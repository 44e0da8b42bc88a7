/**
 Branch conditions compiled to formulas: negations pushed to the atoms, operands
 turned round when the tracked value is on the right, and everything outside the
 supported fragment replaced by true.

 Which SSA value an operand is, and which types compare with which constants,
 comes from Go; here an operand carries that information.
 */
module Conditions {
  import opened Options
  import opened Constraints

  /** An SSA value: its key, whether it is a phi, and what its type compares with. */
  datatype Tracked = Tracked(key: string, phi: bool, nilable: bool, basic: bool)

  datatype Operand = Operand(id: nat, tracked: Option<Tracked>, constant: Option<string>)

  datatype Condition =
    | Literal(value: bool)
    | Name(operand: Operand)
    | Not(inner: Condition)
    | And(left: Condition, right: Condition)
    | Or(left: Condition, right: Condition)
    | Comparison(op: Op, x: Operand, y: Operand)
    | Other(id: nat)

  // ---------------------------------------------------------------- meaning

  /** One execution's values: of SSA keys, of untracked operands, and of conditions outside the fragment. */
  datatype World = World(values: Valuation, operands: nat -> Value, conditions: nat -> bool)

  function ValueOf(rd: Reading, w: World, o: Operand): Value {
    if o.tracked.Some? then w.values(o.tracked.value.key)
    else if o.constant.Some? then Denote(rd, o.constant.value)
    else w.operands(o.id)
  }

  predicate Truth(rd: Reading, w: World, c: Condition) {
    match c
    case Literal(value) => value
    case Name(o) => if o.tracked.Some? then w.values(o.tracked.value.key) == Denote(rd, "true") else w.conditions(o.id)
    case Not(inner) => !Truth(rd, w, inner)
    case And(left, right) => Truth(rd, w, left) && Truth(rd, w, right)
    case Or(left, right) => Truth(rd, w, left) || Truth(rd, w, right)
    case Comparison(op, x, y) => Compare(rd, op, ValueOf(rd, w, x), ValueOf(rd, w, y))
    case Other(id) => w.conditions(id)
  }

  /** An operand that is both a tracked value and a constant has that constant's value. */
  predicate OperandConsistent(rd: Reading, w: World, o: Operand) {
    o.tracked.Some? && o.constant.Some? ==> w.values(o.tracked.value.key) == Denote(rd, o.constant.value)
  }

  /** The world respects Go's typing of the condition: names used as conditions are booleans. */
  predicate Typed(rd: Reading, w: World, c: Condition) {
    match c
    case Literal(_) => true
    case Name(o) =>
      o.tracked.Some? ==>
        w.values(o.tracked.value.key) == Denote(rd, "true") || w.values(o.tracked.value.key) == Denote(rd, "false")
    case Not(inner) => Typed(rd, w, inner)
    case And(left, right) => Typed(rd, w, left) && Typed(rd, w, right)
    case Or(left, right) => Typed(rd, w, left) && Typed(rd, w, right)
    case Comparison(_, x, y) => OperandConsistent(rd, w, x) && OperandConsistent(rd, w, y)
    case Other(_) => true
  }

  ghost predicate BooleansDiffer(rd: Reading) {
    Denote(rd, "true") != Denote(rd, "false")
  }

  // ---------------------------------------------------------------- compilation

  function ReverseOp(op: Op): Op {
    match op
    case Lt => Gt
    case Le => Ge
    case Gt => Lt
    case Ge => Le
    case Eq => Eq
    case Neq => Neq
  }

  function NegateOp(op: Op): Op {
    match op
    case Eq => Neq
    case Neq => Eq
    case Lt => Ge
    case Le => Gt
    case Gt => Le
    case Ge => Lt
  }

  predicate ComparisonSupported(t: Tracked, constant: string) {
    if constant == "<nil>" then t.nilable else t.basic
  }

  /** An atom for `subject op constant`; ordered comparisons of a phi need induction and are refused. */
  function ComparisonAtom(subject: Operand, value: Operand, op: Op): Option<Atom> {
    if subject.tracked.None? then None
    else if op != Eq && op != Neq && subject.tracked.value.phi then None
    else if value.constant.None? || !ComparisonSupported(subject.tracked.value, value.constant.value) then None
    else Some(Atom(subject.tracked.value.key, op, value.constant.value))
  }

  function Compile(c: Condition, truthy: bool): Formula {
    match c
    case Literal(value) => if value == truthy then TRUE_FORMULA else FALSE_FORMULA
    case Name(o) =>
      if o.tracked.None? || !ComparisonSupported(o.tracked.value, "true") then UNSUPPORTED_FORMULA
      else Formula([[Atom(o.tracked.value.key, Eq, if truthy then "true" else "false")]], false)
    case Not(inner) => Compile(inner, !truthy)
    case And(left, right) =>
      var l, r := Compile(left, truthy), Compile(right, truthy);
      if truthy then AndFormula(l, r) else OrFormula(l, r)
    case Or(left, right) =>
      var l, r := Compile(left, truthy), Compile(right, truthy);
      if truthy then OrFormula(l, r) else AndFormula(l, r)
    case Comparison(op, x, y) =>
      var direct := ComparisonAtom(x, y, op);
      var atom := if direct.Some? then direct else ComparisonAtom(y, x, ReverseOp(op));
      if atom.None? then UNSUPPORTED_FORMULA
      else
        var a := if truthy then atom.value else atom.value.(op := NegateOp(atom.value.op));
        Formula([[a]], false)
    case Other(_) => UNSUPPORTED_FORMULA
  }

  // ---------------------------------------------------------------- compilation keeps the meaning

  lemma SingleMeaning(rd: Reading, v: Valuation, a: Atom, unsupported: bool)
    ensures Holds(rd, v, Formula([[a]], unsupported)) <==> HoldsAtom(rd, v, a)
  {
    var f := Formula([[a]], unsupported);
    assert [a] in f.alternatives;
    assert HoldsAll(rd, v, [a]) <==> HoldsAtom(rd, v, a) by {
      assert a in [a];
    }
  }

  lemma TrivialMeaning(rd: Reading, v: Valuation)
    ensures Holds(rd, v, UNSUPPORTED_FORMULA) && Holds(rd, v, TRUE_FORMULA) && !Holds(rd, v, FALSE_FORMULA)
  {
    assert [] in UNSUPPORTED_FORMULA.alternatives && [] in TRUE_FORMULA.alternatives && HoldsAll(rd, v, []);
  }

  lemma OperatorLaws(rd: Reading, op: Op, a: Value, b: Value)
    ensures Compare(rd, ReverseOp(op), b, a) == Compare(rd, op, a, b)
    ensures Compare(rd, NegateOp(op), a, b) == !Compare(rd, op, a, b)
  {
  }

  lemma AtomMeaning(rd: Reading, w: World, subject: Operand, value: Operand, op: Op)
    requires ComparisonAtom(subject, value, op).Some? && OperandConsistent(rd, w, value)
    ensures HoldsAtom(rd, w.values, ComparisonAtom(subject, value, op).value)
            == Compare(rd, op, ValueOf(rd, w, subject), ValueOf(rd, w, value))
  {
  }

  lemma ComparisonMeaning(rd: Reading, w: World, c: Condition, truthy: bool)
    requires c.Comparison? && Typed(rd, w, c)
    ensures Truth(rd, w, c) == truthy ==> Holds(rd, w.values, Compile(c, truthy))
    ensures !Compile(c, truthy).unsupported ==> (Holds(rd, w.values, Compile(c, truthy)) <==> Truth(rd, w, c) == truthy)
  {
    TrivialMeaning(rd, w.values);
    var direct := ComparisonAtom(c.x, c.y, c.op);
    var atom := if direct.Some? then direct else ComparisonAtom(c.y, c.x, ReverseOp(c.op));
    if atom.Some? {
      if direct.Some? {
        AtomMeaning(rd, w, c.x, c.y, c.op);
      } else {
        AtomMeaning(rd, w, c.y, c.x, ReverseOp(c.op));
        OperatorLaws(rd, c.op, ValueOf(rd, w, c.x), ValueOf(rd, w, c.y));
      }
      OperatorLaws(rd, atom.value.op, w.values(atom.value.subject), Denote(rd, atom.value.value));
      SingleMeaning(rd, w.values, if truthy then atom.value else atom.value.(op := NegateOp(atom.value.op)), false);
    }
  }

  /**
   For every condition, polarity and world: a condition with that truth value
   makes the formula hold, and an unmarked formula holds for no other.
   */
  lemma {:induction false} CompileMeaning(rd: Reading, w: World, c: Condition, truthy: bool)
    requires BooleansDiffer(rd) && Typed(rd, w, c)
    ensures Truth(rd, w, c) == truthy ==> Holds(rd, w.values, Compile(c, truthy))
    ensures !Compile(c, truthy).unsupported ==> (Holds(rd, w.values, Compile(c, truthy)) <==> Truth(rd, w, c) == truthy)
  {
    TrivialMeaning(rd, w.values);
    match c
    case Literal(_) =>
    case Name(o) =>
      if o.tracked.Some? {
        SingleMeaning(rd, w.values, Atom(o.tracked.value.key, Eq, if truthy then "true" else "false"), false);
      }
    case Not(inner) => CompileMeaning(rd, w, inner, !truthy);
    case And(left, right) =>
      CompileMeaning(rd, w, left, truthy);
      CompileMeaning(rd, w, right, truthy);
      AndMeaning(rd, w.values, Compile(left, truthy), Compile(right, truthy));
      OrMeaning(rd, w.values, Compile(left, truthy), Compile(right, truthy));
    case Or(left, right) =>
      CompileMeaning(rd, w, left, truthy);
      CompileMeaning(rd, w, right, truthy);
      AndMeaning(rd, w.values, Compile(left, truthy), Compile(right, truthy));
      OrMeaning(rd, w.values, Compile(left, truthy), Compile(right, truthy));
    case Comparison(_, _, _) => ComparisonMeaning(rd, w, c, truthy);
    case Other(_) =>
  }

  /** However large the condition, the formula stays within the bound. */
  lemma {:induction false} CompileBounded(c: Condition, truthy: bool)
    ensures |Compile(c, truthy).alternatives| <= ALTERNATIVE_LIMIT
  {
    match c
    case Literal(_) =>
    case Name(_) =>
    case Not(inner) => CompileBounded(inner, !truthy);
    case And(left, right) =>
      ProductLength(Compile(left, truthy).alternatives, Compile(right, truthy).alternatives);
    case Or(left, right) =>
      ProductLength(Compile(left, truthy).alternatives, Compile(right, truthy).alternatives);
    case Comparison(_, _, _) =>
    case Other(_) =>
  }

  // ---------------------------------------------------------------- when a formula is marked

  /** The subject is tracked and its type compares with the constant, which is one; phis only compare for equality. */
  predicate AtomFits(subject: Operand, value: Operand, op: Op) {
    && subject.tracked.Some? && value.constant.Some?
    && (subject.tracked.value.phi ==> op == Eq || op == Neq)
    && (if value.constant.value == "<nil>" then subject.tracked.value.nilable else subject.tracked.value.basic)
  }

  /** Every leaf is a literal, a tracked boolean, or a tracked value against a constant, either way round. */
  predicate InFragment(c: Condition) {
    match c
    case Literal(_) => true
    case Name(o) => o.tracked.Some? && o.tracked.value.basic
    case Not(inner) => InFragment(inner)
    case And(left, right) => InFragment(left) && InFragment(right)
    case Or(left, right) => InFragment(left) && InFragment(right)
    case Comparison(op, x, y) => AtomFits(x, y, op) || AtomFits(y, x, op)
    case Other(_) => false
  }

  /** How many alternatives a condition comes to: conjunctions multiply, disjunctions add, negations exchange them. */
  function Count(c: Condition, truthy: bool): nat {
    match c
    case Literal(value) => if value == truthy then 1 else 0
    case Name(_) => 1
    case Not(inner) => Count(inner, !truthy)
    case And(left, right) =>
      if truthy then Count(left, true) * Count(right, true) else Count(left, false) + Count(right, false)
    case Or(left, right) =>
      if truthy then Count(left, true) + Count(right, true) else Count(left, false) * Count(right, false)
    case Comparison(_, _, _) => 1
    case Other(_) => 1
  }

  /** No part of the condition comes to more alternatives than the bound. */
  predicate WithinBound(c: Condition, truthy: bool) {
    && Count(c, truthy) <= 256
    && match c
       case Not(inner) => WithinBound(inner, !truthy)
       case And(left, right) => WithinBound(left, truthy) && WithinBound(right, truthy)
       case Or(left, right) => WithinBound(left, truthy) && WithinBound(right, truthy)
       case _ => true
  }

  /** A formula is marked exactly when a leaf is outside the fragment or some part comes to too many alternatives. */
  lemma {:induction false} MarksExact(c: Condition, truthy: bool)
    ensures Compile(c, truthy).unsupported <==> !InFragment(c) || !WithinBound(c, truthy)
    ensures !Compile(c, truthy).unsupported ==> |Compile(c, truthy).alternatives| == Count(c, truthy)
  {
    match c
    case Literal(_) =>
    case Name(_) =>
      assert "true" != "<nil>" by {
        assert |"true"| != |"<nil>"|;
      }
    case Not(inner) => MarksExact(inner, !truthy);
    case And(left, right) =>
      MarksExact(left, truthy);
      MarksExact(right, truthy);
      hide Product;
      if truthy {
        AndMarked(Compile(left, truthy), Compile(right, truthy));
      } else {
        OrMarked(Compile(left, truthy), Compile(right, truthy));
      }
    case Or(left, right) =>
      MarksExact(left, truthy);
      MarksExact(right, truthy);
      hide Product;
      if truthy {
        OrMarked(Compile(left, truthy), Compile(right, truthy));
      } else {
        AndMarked(Compile(left, truthy), Compile(right, truthy));
      }
    case Comparison(op, x, y) => ReversedFits(y, x, op);
    case Other(_) =>
  }

  lemma ReversedFits(subject: Operand, value: Operand, op: Op)
    ensures AtomFits(subject, value, op) <==> ComparisonAtom(subject, value, ReverseOp(op)).Some?
  {
  }
}
