/**
 The predicate a branch contributes to a path, and the formula of a whole path.
 */
module Branches {
  import opened Options
  import opened ControlFlow
  import opened Constraints
  import opened Conditions

  /**
   A switch label. A boolean one is a condition whose truth is its value; any other
   is an identifier, which the extractor reads as a condition all the same, or an
   expression that it cannot read as one.
   */
  datatype CaseLabel =
    | Boolean(condition: Condition, operand: Operand)
    | Identifier(operand: Operand)
    | Plain(operand: Operand)

  /**
   What a two-way block ends in. A switch case compares a tag with its label; the
   tag stands in the same block only for the first case.
   */
  datatype Branch =
    | If(condition: Condition)
    | Case(tag: Operand, caseLabel: CaseLabel, tagListed: bool)
    | Statement

  type BranchMap = map<int, Branch>

  function BooleanText(value: bool): string {
    if value then "true" else "false"
  }

  /** The label taken for a condition. */
  function AsCondition(caseLabel: CaseLabel): Condition {
    match caseLabel
    case Boolean(condition, _) => condition
    case Identifier(operand) => Name(operand)
    case Plain(operand) => Other(operand.id)
  }

  predicate BranchTruth(rd: Reading, w: World, br: Branch)
    requires !br.Statement?
  {
    match br
    case If(condition) => Truth(rd, w, condition)
    case Case(tag, caseLabel, _) => ValueOf(rd, w, tag) == ValueOf(rd, w, caseLabel.operand)
  }

  /** The world respects Go's typing; a boolean label has the value that its condition has. */
  predicate BranchTyped(rd: Reading, w: World, br: Branch) {
    match br
    case If(condition) => Typed(rd, w, condition)
    case Case(tag, caseLabel, _) =>
      && OperandConsistent(rd, w, tag) && OperandConsistent(rd, w, caseLabel.operand)
      && (caseLabel.Boolean? ==>
            && Typed(rd, w, caseLabel.condition)
            && ValueOf(rd, w, caseLabel.operand) == Denote(rd, BooleanText(Truth(rd, w, caseLabel.condition))))
    case Statement => true
  }

  /** Tag and label as an equality, when the tag stands before the label. */
  function CasePredicate(br: Branch, truthy: bool): Formula {
    if !br.Case? || !br.tagListed || ComparisonAtom(br.tag, br.caseLabel.operand, Eq).None? then UNSUPPORTED_FORMULA
    else Formula([[ComparisonAtom(br.tag, br.caseLabel.operand, Eq).value.(op := if truthy then Eq else Neq)]], false)
  }

  /** The last node read as a condition; failing that, as a case. */
  function Predicate(br: Branch, truthy: bool): Formula {
    match br
    case Statement => UNSUPPORTED_FORMULA
    case If(condition) => Compile(condition, truthy)
    case Case(_, caseLabel, _) =>
      var f := Compile(AsCondition(caseLabel), truthy);
      if f.unsupported && !CasePredicate(br, truthy).unsupported then CasePredicate(br, truthy) else f
  }

  // ---------------------------------------------------------------- what is read, and what is meant

  predicate ReadAsCase(br: Branch, truthy: bool) {
    br.Case? && Compile(AsCondition(br.caseLabel), truthy).unsupported && !CasePredicate(br, truthy).unsupported
  }

  /**
   What the extractor takes leaving by this edge to say: for a label read as a condition,
   that the label has that truth.
   */
  predicate ReadAgrees(rd: Reading, w: World, br: Branch, truthy: bool)
    requires !br.Statement?
  {
    if Predicate(br, truthy) == UNSUPPORTED_FORMULA then true
    else if br.If? || ReadAsCase(br, truthy) then BranchTruth(rd, w, br) == truthy
    else
      match br.caseLabel
      case Boolean(condition, _) => Truth(rd, w, condition) == truthy
      case Identifier(operand) =>
        operand.tracked.Some? ==> w.values(operand.tracked.value.key) == Denote(rd, BooleanText(truthy))
      case Plain(_) => true
  }

  lemma CasePredicateMeaning(rd: Reading, w: World, br: Branch, truthy: bool)
    requires br.Case? && BranchTyped(rd, w, br) && !CasePredicate(br, truthy).unsupported
    ensures Holds(rd, w.values, CasePredicate(br, truthy)) <==> BranchTruth(rd, w, br) == truthy
  {
    var atom := ComparisonAtom(br.tag, br.caseLabel.operand, Eq).value;
    SingleMeaning(rd, w.values, atom.(op := if truthy then Eq else Neq), false);
    AtomMeaning(rd, w, br.tag, br.caseLabel.operand, Eq);
  }

  lemma IdentifierMeaning(rd: Reading, w: World, o: Operand, truthy: bool)
    ensures Compile(Name(o), truthy) == UNSUPPORTED_FORMULA
            || (o.tracked.Some? && !Compile(Name(o), truthy).unsupported)
    ensures !Compile(Name(o), truthy).unsupported ==>
              (Holds(rd, w.values, Compile(Name(o), truthy)) <==>
               w.values(o.tracked.value.key) == Denote(rd, BooleanText(truthy)))
  {
    if o.tracked.Some? {
      SingleMeaning(rd, w.values, Atom(o.tracked.value.key, Eq, BooleanText(truthy)), false);
    }
  }

  /** Whatever the label, the predicate holds wherever the reading agrees, and nowhere else if unmarked. */
  lemma PredicateMeaning(rd: Reading, w: World, br: Branch, truthy: bool)
    requires BooleansDiffer(rd) && BranchTyped(rd, w, br) && !br.Statement?
    ensures ReadAgrees(rd, w, br, truthy) ==> Holds(rd, w.values, Predicate(br, truthy))
    ensures !Predicate(br, truthy).unsupported && Holds(rd, w.values, Predicate(br, truthy)) ==>
              ReadAgrees(rd, w, br, truthy)
  {
    TrivialMeaning(rd, w.values);
    if br.If? {
      CompileMeaning(rd, w, br.condition, truthy);
    } else if ReadAsCase(br, truthy) {
      CasePredicateMeaning(rd, w, br, truthy);
    } else {
      match br.caseLabel
      case Boolean(condition, _) => CompileMeaning(rd, w, condition, truthy);
      case Identifier(operand) => IdentifierMeaning(rd, w, operand, truthy);
      case Plain(_) =>
    }
  }

  /** The formula of the condition is not marked. */
  predicate Supported(c: Condition, truthy: bool) {
    InFragment(c) && WithinBound(c, truthy)
  }

  /** It can be read as a condition, or as a case whose tag stands in the block. */
  predicate Readable(br: Branch, truthy: bool) {
    match br
    case Statement => false
    case If(condition) => Supported(condition, truthy)
    case Case(tag, caseLabel, listed) =>
      Supported(AsCondition(caseLabel), truthy) || (listed && AtomFits(tag, caseLabel.operand, Eq))
  }

  /** Where neither will do, and only there, the predicate is marked. */
  lemma PredicateMarked(br: Branch, truthy: bool)
    ensures Predicate(br, truthy).unsupported <==> !Readable(br, truthy)
  {
    if br.If? {
      MarksExact(br.condition, truthy);
    } else if br.Case? {
      MarksExact(AsCondition(br.caseLabel), truthy);
    }
  }

  // ---------------------------------------------------------------- when the reading is right

  /** On every execution that leaves by this edge the predicate holds. */
  ghost predicate ReadsSoundly(br: Branch, truthy: bool)
    requires !br.Statement?
  {
    forall rd, w :: BooleansDiffer(rd) && BranchTyped(rd, w, br) && BranchTruth(rd, w, br) == truthy ==>
                    Holds(rd, w.values, Predicate(br, truthy))
  }

  predicate IsConstantTrue(o: Operand) {
    o.tracked.None? && o.constant == Some("true")
  }

  /** The test: conditions; labels outside the fragment; and any boolean label of a switch on the constant true. */
  predicate ReadsRight(br: Branch) {
    br.Case? ==>
      match br.caseLabel
      case Boolean(condition, _) =>
        || IsConstantTrue(br.tag)
        || (Compile(condition, true) == UNSUPPORTED_FORMULA && Compile(condition, false) == UNSUPPORTED_FORMULA)
      case Identifier(operand) => Compile(Name(operand), true) == UNSUPPORTED_FORMULA
      case Plain(_) => true
  }

  /** Where the test succeeds, what is read is what the branch does. */
  lemma RightReadingAgrees(rd: Reading, w: World, br: Branch, truthy: bool)
    requires BooleansDiffer(rd) && BranchTyped(rd, w, br) && !br.Statement? && ReadsRight(br)
    ensures BranchTruth(rd, w, br) == truthy ==> ReadAgrees(rd, w, br, truthy)
    ensures !Predicate(br, truthy).unsupported && ReadAgrees(rd, w, br, truthy) ==> BranchTruth(rd, w, br) == truthy
  {
    if br.Case? && !ReadAsCase(br, truthy) && br.caseLabel.Identifier? {
      IdentifierMeaning(rd, w, br.caseLabel.operand, truthy);
    }
  }

  /** In this world the tag is not true, so that what the label says is not what the branch does. */
  predicate Misleads(rd: Reading, w: World, br: Branch, truthy: bool)
    requires br.Case?
  {
    if truthy then ValueOf(rd, w, br.tag) == Denote(rd, "false") else ValueOf(rd, w, br.tag) != Denote(rd, "true")
  }

  /**
   Exactly when a boolean label read as a condition is harmless on one edge: its
   predicate holds anyway wherever the tag is not true.
   */
  lemma BooleanReadingExact(br: Branch, truthy: bool)
    requires br.Case? && br.caseLabel.Boolean? && !ReadAsCase(br, truthy)
    ensures ReadsSoundly(br, truthy) <==>
            forall rd, w :: BooleansDiffer(rd) && BranchTyped(rd, w, br) && Misleads(rd, w, br, truthy) ==>
                            Holds(rd, w.values, Predicate(br, truthy))
  {
    forall rd, w | BooleansDiffer(rd) && BranchTyped(rd, w, br) && !Holds(rd, w.values, Predicate(br, truthy))
      ensures Misleads(rd, w, br, truthy) <==> BranchTruth(rd, w, br) == truthy
    {
      CompileMeaning(rd, w, br.caseLabel.condition, truthy);
      assert Truth(rd, w, br.caseLabel.condition) != truthy;
    }
  }

  /** Some execution has the tag false: the switch is not on the constant true in disguise. */
  ghost predicate TagCanBeFalse(br: Branch)
    requires br.Case?
  {
    exists rd, w :: BooleansDiffer(rd) && BranchTyped(rd, w, br) && ValueOf(rd, w, br.tag) == Denote(rd, "false")
  }

  predicate Mentions(c: Condition, id: nat) {
    match c
    case Literal(_) => false
    case Name(o) => o.id == id
    case Not(inner) => Mentions(inner, id)
    case And(left, right) => Mentions(left, id) || Mentions(right, id)
    case Or(left, right) => Mentions(left, id) || Mentions(right, id)
    case Comparison(_, x, y) => x.id == id || y.id == id
    case Other(_) => false
  }

  function WithOperand(w: World, id: nat, x: Value): World {
    w.(operands := (i: nat) => if i == id then x else w.operands(i))
  }

  lemma UnmentionedIrrelevant(rd: Reading, w: World, c: Condition, id: nat, x: Value)
    requires !Mentions(c, id)
    ensures Truth(rd, WithOperand(w, id, x), c) == Truth(rd, w, c)
    ensures Typed(rd, WithOperand(w, id, x), c) == Typed(rd, w, c)
  {
  }

  /** A tag that is neither tracked nor constant can be anything. */
  lemma FreeTagCanBeFalse(br: Branch, rd: Reading, w: World)
    requires br.Case? && br.caseLabel.Boolean? && br.tag.tracked.None? && br.tag.constant.None?
    requires br.caseLabel.operand.id != br.tag.id && !Mentions(br.caseLabel.condition, br.tag.id)
    requires BooleansDiffer(rd) && BranchTyped(rd, w, br)
    ensures TagCanBeFalse(br)
  {
    var x := Denote(rd, "false");
    UnmentionedIrrelevant(rd, w, br.caseLabel.condition, br.tag.id, x);
    assert BranchTyped(rd, WithOperand(w, br.tag.id, x), br);
  }

  /** Some tracked operand of the condition has this key. */
  predicate MentionsKey(c: Condition, key: string) {
    match c
    case Literal(_) => false
    case Name(o) => HasKey(o, key)
    case Not(inner) => MentionsKey(inner, key)
    case And(left, right) => MentionsKey(left, key) || MentionsKey(right, key)
    case Or(left, right) => MentionsKey(left, key) || MentionsKey(right, key)
    case Comparison(_, x, y) => HasKey(x, key) || HasKey(y, key)
    case Other(_) => false
  }

  predicate HasKey(o: Operand, key: string) {
    o.tracked.Some? && o.tracked.value.key == key
  }

  function WithValue(w: World, key: string, x: Value): World {
    w.(values := (k: string) => if k == key then x else w.values(k))
  }

  lemma UnmentionedKeyIrrelevant(rd: Reading, w: World, c: Condition, key: string, x: Value)
    requires !MentionsKey(c, key)
    ensures Truth(rd, WithValue(w, key, x), c) == Truth(rd, w, c)
    ensures Typed(rd, WithValue(w, key, x), c) == Typed(rd, w, c)
  {
  }

  /** Nor is a tracked tag bound to be true when the label does not speak of it. */
  lemma TrackedTagCanBeFalse(br: Branch, rd: Reading, w: World)
    requires br.Case? && br.caseLabel.Boolean? && br.tag.tracked.Some? && br.tag.constant.None?
    requires var key := br.tag.tracked.value.key;
             !HasKey(br.caseLabel.operand, key) && !MentionsKey(br.caseLabel.condition, key)
    requires BooleansDiffer(rd) && BranchTyped(rd, w, br)
    ensures TagCanBeFalse(br)
  {
    var key, x := br.tag.tracked.value.key, Denote(rd, "false");
    UnmentionedKeyIrrelevant(rd, w, br.caseLabel.condition, key, x);
    assert BranchTyped(rd, WithValue(w, key, x), br);
  }

  /** Values and constants are told apart, and a label is either inside the fragment on both edges or outside it. */
  predicate PlainlyLabelled(br: Branch) {
    br.Case? && (br.tag.tracked.Some? ==> br.tag.constant.None?) &&
    match br.caseLabel
    case Boolean(condition, _) =>
      || (!Compile(condition, true).unsupported && !Compile(condition, false).unsupported)
      || (Compile(condition, true) == UNSUPPORTED_FORMULA && Compile(condition, false) == UNSUPPORTED_FORMULA)
    case Identifier(operand) => operand.tracked.Some? ==> operand.constant.None?
    case Plain(_) => true
  }

  lemma ReadsRightIsSound(br: Branch, truthy: bool)
    requires !br.Statement? && ReadsRight(br)
    ensures ReadsSoundly(br, truthy)
  {
    forall rd, w | BooleansDiffer(rd) && BranchTyped(rd, w, br) && BranchTruth(rd, w, br) == truthy
      ensures Holds(rd, w.values, Predicate(br, truthy))
    {
      RightReadingAgrees(rd, w, br, truthy);
      PredicateMeaning(rd, w, br, truthy);
    }
  }

  /** A tag that is not true makes one of the two edges of a supported boolean label unsound. */
  lemma FalseTagBreaksReading(br: Branch)
    requires br.Case? && br.caseLabel.Boolean? && TagCanBeFalse(br)
    requires !Compile(br.caseLabel.condition, true).unsupported && !Compile(br.caseLabel.condition, false).unsupported
    ensures !ReadsSoundly(br, true) || !ReadsSoundly(br, false)
  {
    var rd, w :| BooleansDiffer(rd) && BranchTyped(rd, w, br) && ValueOf(rd, w, br.tag) == Denote(rd, "false");
    var c := br.caseLabel.condition;
    CompileMeaning(rd, w, c, true);
    CompileMeaning(rd, w, c, false);
    assert BranchTruth(rd, w, br) == !Truth(rd, w, c);
    assert !Holds(rd, w.values, Predicate(br, !Truth(rd, w, c)));
  }

  const SEVENS := World(_ => Num(7.0), _ => Num(7.0), _ => false)

  /** Booleans are themselves, and every other text is seven. */
  const SEVEN_READING := Reading(
    _ => None,
    text => if text == "true" || text == "false" then Sym(text) else Num(7.0),
    (_, _) => false)

  /**
   An identifier that is not a boolean is never right on both edges: where it is seven, it
   is neither true nor false.
   */
  lemma IdentifierBreaksReading(br: Branch)
    requires PlainlyLabelled(br) && br.caseLabel.Identifier?
             && Compile(Name(br.caseLabel.operand), true) != UNSUPPORTED_FORMULA
    ensures !ReadsSoundly(br, true) || !ReadsSoundly(br, false)
  {
    var rd, w := SEVEN_READING, SEVENS;
    var o := br.caseLabel.operand;
    assert "true" != "false" by {
      assert |"true"| == 4 && |"false"| == 5;
    }
    IdentifierMeaning(rd, w, o, true);
    IdentifierMeaning(rd, w, o, false);
    var truthy := BranchTruth(rd, w, br);
    assert BranchTyped(rd, w, br) && !Holds(rd, w.values, Predicate(br, truthy));
  }

  /** The reading of a case is right on both edges exactly when the test says so. */
  lemma CaseReadRightExactly(br: Branch)
    requires PlainlyLabelled(br)
    requires br.caseLabel.Boolean? && !IsConstantTrue(br.tag) ==> TagCanBeFalse(br)
    ensures ReadsSoundly(br, true) && ReadsSoundly(br, false) <==> ReadsRight(br)
  {
    if ReadsRight(br) {
      ReadsRightIsSound(br, true);
      ReadsRightIsSound(br, false);
    } else if br.caseLabel.Boolean? {
      FalseTagBreaksReading(br);
    } else {
      IdentifierBreaksReading(br);
    }
  }

  /** `switch b { case true: }`: leaving by the other edge is declared impossible, though any false `b` does. */
  lemma BooleanCaseMisread(rd: Reading, tag: Tracked, listed: bool)
    requires BooleansDiffer(rd)
    ensures var br := Case(Operand(0, Some(tag), None), Boolean(Literal(true), Operand(1, None, Some("true"))), listed);
            && Predicate(br, false) == FALSE_FORMULA
            && exists w: World ::
                 BranchTyped(rd, w, br) && !BranchTruth(rd, w, br) && !Holds(rd, w.values, Predicate(br, false))
  {
    var br := Case(Operand(0, Some(tag), None), Boolean(Literal(true), Operand(1, None, Some("true"))), listed);
    var w := World(_ => Denote(rd, "false"), _ => Denote(rd, "false"), _ => false);
    TrivialMeaning(rd, w.values);
    assert BranchTyped(rd, w, br) && !BranchTruth(rd, w, br);
  }

  // ---------------------------------------------------------------- along a path

  predicate TwoWay(c: Cfg, b: int) {
    b in c.successors && |c.successors[b]| == 2
  }

  /** Which way a step leaves a two-way block; the first successor wins when both are the same. */
  function Polarity(c: Cfg, a: int, b: int): Option<bool>
    requires TwoWay(c, a)
  {
    if c.successors[a][0] == Some(b) then Some(true)
    else if c.successors[a][1] == Some(b) then Some(false)
    else None
  }

  predicate Decides(c: Cfg, branches: BranchMap, a: int) {
    TwoWay(c, a) && a in branches && !branches[a].Statement?
  }

  /** The step from `a` to `b` is the one this world takes, as far as the branch can tell. */
  predicate AgreesAt(rd: Reading, w: World, c: Cfg, branches: BranchMap, a: int, b: int) {
    Decides(c, branches, a) && Polarity(c, a, b).Some? ==> BranchTruth(rd, w, branches[a]) == Polarity(c, a, b).value
  }

  /** The step is one that the reading of its branch allows. */
  predicate ReadAgreesAt(rd: Reading, w: World, c: Cfg, branches: BranchMap, a: int, b: int) {
    Decides(c, branches, a) && Polarity(c, a, b).Some? ==> ReadAgrees(rd, w, branches[a], Polarity(c, a, b).value)
  }

  ghost predicate Follows(rd: Reading, w: World, c: Cfg, branches: BranchMap, p: seq<int>) {
    forall i :: 0 <= i < |p| - 1 ==> AgreesAt(rd, w, c, branches, p[i], p[i + 1])
  }

  ghost predicate ReadFollows(rd: Reading, w: World, c: Cfg, branches: BranchMap, p: seq<int>) {
    forall i :: 0 <= i < |p| - 1 ==> ReadAgreesAt(rd, w, c, branches, p[i], p[i + 1])
  }

  ghost predicate AllTyped(rd: Reading, w: World, branches: BranchMap) {
    BooleansDiffer(rd) && forall b :: b in branches ==> BranchTyped(rd, w, branches[b])
  }

  /** Every branch that decides a step of the path is read for what it is. */
  ghost predicate RightAlong(c: Cfg, branches: BranchMap, p: seq<int>) {
    forall i :: 0 <= i < |p| - 1 && Decides(c, branches, p[i]) ==> ReadsRight(branches[p[i]])
  }

  predicate MarkedAt(c: Cfg, branches: BranchMap, a: int, b: int) {
    Decides(c, branches, a) && Polarity(c, a, b).Some? && Predicate(branches[a], Polarity(c, a, b).value).unsupported
  }

  ghost predicate Unmarked(c: Cfg, branches: BranchMap, p: seq<int>) {
    forall i :: 0 <= i < |p| - 1 ==> !MarkedAt(c, branches, p[i], p[i + 1])
  }

  /** The predicates that the steps of a path contribute, in order. */
  function PathPredicates(c: Cfg, branches: BranchMap, p: seq<int>): seq<Formula> {
    if |p| < 2 then []
    else
      var k := |p| - 2;
      PathPredicates(c, branches, p[..k + 1])
      + if Decides(c, branches, p[k]) && Polarity(c, p[k], p[k + 1]).Some?
        then [Predicate(branches[p[k]], Polarity(c, p[k], p[k + 1]).value)] else []
  }

  lemma PathPredicatesMore(c: Cfg, branches: BranchMap, p: seq<int>, i: nat)
    requires i + 1 < |p|
    ensures PathPredicates(c, branches, p[..i + 2])
            == PathPredicates(c, branches, p[..i + 1])
               + if Decides(c, branches, p[i]) && Polarity(c, p[i], p[i + 1]).Some?
                 then [Predicate(branches[p[i]], Polarity(c, p[i], p[i + 1]).value)] else []
  {
    var q := p[..i + 2];
    assert q[..i + 1] == p[..i + 1] && q[i] == p[i] && q[i + 1] == p[i + 1];
  }

  lemma AndAllMore(parts: seq<Formula>, g: Formula)
    ensures AndAll(parts + [g]) == AndFormula(AndAll(parts), g)
  {
    assert (parts + [g])[..|parts|] == parts;
  }

  /** An execution that takes the successors its conditions select follows its path. */
  lemma ExecutionFollows(rd: Reading, w: World, c: Cfg, branches: BranchMap, p: seq<int>)
    requires forall i :: 0 <= i < |p| - 1 && Decides(c, branches, p[i]) ==>
               && c.successors[p[i]][0] != c.successors[p[i]][1]
               && c.successors[p[i]][if BranchTruth(rd, w, branches[p[i]]) then 0 else 1] == Some(p[i + 1])
    ensures Follows(rd, w, c, branches, p)
  {
  }

  /** The formula over-approximates the worlds that satisfy `agrees`, and is exact unless marked. */
  ghost predicate Represents(f: Formula, branches: BranchMap, agrees: (Reading, World) -> bool) {
    forall rd, w :: AllTyped(rd, w, branches) ==>
      && (agrees(rd, w) ==> Holds(rd, w.values, f))
      && (!f.unsupported && Holds(rd, w.values, f) ==> agrees(rd, w))
  }

  lemma TrueRepresents(branches: BranchMap, agrees: (Reading, World) -> bool)
    requires forall rd, w :: agrees(rd, w)
    ensures Represents(TRUE_FORMULA, branches, agrees)
  {
    forall rd: Reading, w: World
      ensures Holds(rd, w.values, TRUE_FORMULA)
    {
      TrivialMeaning(rd, w.values);
    }
  }

  lemma RepresentsAnd(f: Formula, g: Formula, branches: BranchMap,
                      fAgrees: (Reading, World) -> bool, gAgrees: (Reading, World) -> bool,
                      both: (Reading, World) -> bool)
    requires Represents(f, branches, fAgrees) && Represents(g, branches, gAgrees)
    requires forall rd, w :: both(rd, w) <==> fAgrees(rd, w) && gAgrees(rd, w)
    ensures Represents(AndFormula(f, g), branches, both)
  {
    forall rd, w | AllTyped(rd, w, branches)
      ensures both(rd, w) ==> Holds(rd, w.values, AndFormula(f, g))
      ensures !AndFormula(f, g).unsupported && Holds(rd, w.values, AndFormula(f, g)) ==> both(rd, w)
    {
      AndMeaning(rd, w.values, f, g);
    }
  }

  lemma RepresentsNormalize(f: Formula, branches: BranchMap, agrees: (Reading, World) -> bool)
    requires Represents(f, branches, agrees)
    ensures Represents(Normalize(f), branches, agrees)
  {
    forall rd, w | AllTyped(rd, w, branches)
      ensures agrees(rd, w) ==> Holds(rd, w.values, Normalize(f))
      ensures !Normalize(f).unsupported && Holds(rd, w.values, Normalize(f)) ==> agrees(rd, w)
    {
      NormalizeMeaning(rd, w.values, f);
    }
  }

  lemma RepresentsBranch(br: Branch, truthy: bool, branches: BranchMap, b: int, agrees: (Reading, World) -> bool)
    requires b in branches && branches[b] == br && !br.Statement?
    requires forall rd, w :: agrees(rd, w) <==> ReadAgrees(rd, w, br, truthy)
    ensures Represents(Predicate(br, truthy), branches, agrees)
  {
    forall rd, w | AllTyped(rd, w, branches)
      ensures agrees(rd, w) ==> Holds(rd, w.values, Predicate(br, truthy))
      ensures !Predicate(br, truthy).unsupported && Holds(rd, w.values, Predicate(br, truthy)) ==> agrees(rd, w)
    {
      PredicateMeaning(rd, w, br, truthy);
    }
  }

  /** Marks are never lost by a conjunction. */
  lemma AndKeepsMarks(f: Formula, g: Formula)
    ensures !AndFormula(f, g).unsupported ==> !f.unsupported && !g.unsupported
  {
  }

  lemma RightStepAgrees(rd: Reading, w: World, c: Cfg, branches: BranchMap, a: int, b: int)
    requires AllTyped(rd, w, branches) && (Decides(c, branches, a) ==> ReadsRight(branches[a]))
    ensures AgreesAt(rd, w, c, branches, a, b) ==> ReadAgreesAt(rd, w, c, branches, a, b)
    ensures !MarkedAt(c, branches, a, b) && ReadAgreesAt(rd, w, c, branches, a, b) ==>
              AgreesAt(rd, w, c, branches, a, b)
  {
    if Decides(c, branches, a) && Polarity(c, a, b).Some? {
      RightReadingAgrees(rd, w, branches[a], Polarity(c, a, b).value);
    }
  }

  /** Where all branches of a path are read right, what stands for the read path stands for the path. */
  lemma RightPathRepresented(c: Cfg, branches: BranchMap, p: seq<int>, f: Formula)
    requires RightAlong(c, branches, p) && (!f.unsupported ==> Unmarked(c, branches, p))
    requires Represents(f, branches, (rd: Reading, w: World) => ReadFollows(rd, w, c, branches, p))
    ensures Represents(f, branches, (rd: Reading, w: World) => Follows(rd, w, c, branches, p))
  {
    var read := (rd: Reading, w: World) => ReadFollows(rd, w, c, branches, p);
    forall rd, w | AllTyped(rd, w, branches)
      ensures Follows(rd, w, c, branches, p) ==> read(rd, w)
      ensures !f.unsupported && read(rd, w) ==> Follows(rd, w, c, branches, p)
    {
      forall i | 0 <= i < |p| - 1
        ensures AgreesAt(rd, w, c, branches, p[i], p[i + 1]) ==> ReadAgreesAt(rd, w, c, branches, p[i], p[i + 1])
        ensures !f.unsupported && ReadAgreesAt(rd, w, c, branches, p[i], p[i + 1]) ==>
                  AgreesAt(rd, w, c, branches, p[i], p[i + 1])
      {
        RightStepAgrees(rd, w, c, branches, p[i], p[i + 1]);
      }
    }
  }

  /**
   The conjunction of the predicates of a block path, in normal form. It stands for
   the worlds that the readings of its branches allow; and for those that follow the
   path, if each of its branches is read right.
   */
  method PathFormula(c: Cfg, branches: BranchMap, path: seq<int>) returns (f: Formula)
    ensures Represents(f, branches, (rd: Reading, w: World) => ReadFollows(rd, w, c, branches, path))
    ensures RightAlong(c, branches, path) ==>
              Represents(f, branches, (rd: Reading, w: World) => Follows(rd, w, c, branches, path))
    ensures |path| < 2 ==> f == TRUE_FORMULA
    ensures f.unsupported <==> AnyMark(PathPredicates(c, branches, path))
  {
    hide Represents, ReadAgreesAt, MarkedAt, RightAlong, AnyMark;
    AndAllMarked(PathPredicates(c, branches, path));
    f := TRUE_FORMULA;
    TrueRepresents(branches,
                   (rd: Reading, w: World) => ReadFollows(rd, w, c, branches, path[..if path == [] then 0 else 1]));
    if |path| < 2 {
      assert path[..if path == [] then 0 else 1] == path;
    } else {
      f := ManyStepFormula(c, branches, path);
    }
    if RightAlong(c, branches, path) {
      RightPathRepresented(c, branches, path, f);
    }
  }

  method ManyStepFormula(c: Cfg, branches: BranchMap, path: seq<int>) returns (f: Formula)
    requires |path| >= 2
    ensures Represents(f, branches, (rd: Reading, w: World) => ReadFollows(rd, w, c, branches, path))
    ensures !f.unsupported ==> Unmarked(c, branches, path)
    ensures f == Normalize(AndAll(PathPredicates(c, branches, path)))
  {
    hide Represents, ReadAgreesAt, AndAll, AndFormula, PathPredicates;
    FirstBlock(c, branches, path);
    f := TRUE_FORMULA;
    TrueRepresents(branches, (rd: Reading, w: World) => ReadFollows(rd, w, c, branches, path[..1]));
    var i := 0;
    while i + 1 < |path|
      invariant 0 <= i < |path|
      invariant Represents(f, branches, (rd: Reading, w: World) => ReadFollows(rd, w, c, branches, path[..i + 1]))
      invariant !f.unsupported ==> forall k :: 0 <= k < i ==> !MarkedAt(c, branches, path[k], path[k + 1])
      invariant f == AndAll(PathPredicates(c, branches, path[..i + 1]))
    {
      f := TakeStep(c, branches, path, i, f);
      i := i + 1;
    }
    assert path[..i + 1] == path;
    RepresentsNormalize(f, branches, (rd: Reading, w: World) => ReadFollows(rd, w, c, branches, path));
    f := Normalize(f);
  }

  lemma FirstBlock(c: Cfg, branches: BranchMap, path: seq<int>)
    requires path != []
    ensures AndAll(PathPredicates(c, branches, path[..1])) == TRUE_FORMULA
  {
  }

  /** One turn of the loop over a path. */
  method TakeStep(c: Cfg, branches: BranchMap, path: seq<int>, i: nat, f: Formula) returns (g: Formula)
    requires i + 1 < |path|
    requires Represents(f, branches, (rd: Reading, w: World) => ReadFollows(rd, w, c, branches, path[..i + 1]))
    requires f == AndAll(PathPredicates(c, branches, path[..i + 1]))
    ensures Represents(g, branches, (rd: Reading, w: World) => ReadFollows(rd, w, c, branches, path[..i + 2]))
    ensures !g.unsupported ==> !f.unsupported && !MarkedAt(c, branches, path[i], path[i + 1])
    ensures g == AndAll(PathPredicates(c, branches, path[..i + 2]))
  {
    hide Represents, ReadAgreesAt, ReadFollows, AndAll, AndFormula, PathPredicates;
    var a, b := path[i], path[i + 1];
    ghost var before := (rd: Reading, w: World) => ReadFollows(rd, w, c, branches, path[..i + 1]);
    ghost var here := (rd: Reading, w: World) => ReadAgreesAt(rd, w, c, branches, a, b);
    ghost var after := (rd: Reading, w: World) => ReadFollows(rd, w, c, branches, path[..i + 2]);
    FollowsLonger(c, branches, path, i, before, here, after);
    PathPredicatesMore(c, branches, path, i);
    if Decides(c, branches, a) && Polarity(c, a, b).Some? {
      var p := Predicate(branches[a], Polarity(c, a, b).value);
      StepRepresents(c, branches, a, b, here);
      RepresentsAnd(f, p, branches, before, here, after);
      AndKeepsMarks(f, p);
      AndAllMore(PathPredicates(c, branches, path[..i + 1]), p);
      g := Conjoin(f, p);
    } else {
      PlainStep(c, branches, a, b, f, before, here, after);
      assert PathPredicates(c, branches, path[..i + 1]) + [] == PathPredicates(c, branches, path[..i + 1]);
      g := f;
    }
  }

  lemma StepRepresents(c: Cfg, branches: BranchMap, a: int, b: int, here: (Reading, World) -> bool)
    requires Decides(c, branches, a) && Polarity(c, a, b).Some?
    requires forall rd, w :: here(rd, w) <==> ReadAgreesAt(rd, w, c, branches, a, b)
    ensures Represents(Predicate(branches[a], Polarity(c, a, b).value), branches, here)
  {
    RepresentsBranch(branches[a], Polarity(c, a, b).value, branches, a, here);
  }

  lemma PlainStep(c: Cfg, branches: BranchMap, a: int, b: int, f: Formula,
                  before: (Reading, World) -> bool, here: (Reading, World) -> bool, after: (Reading, World) -> bool)
    requires !(Decides(c, branches, a) && Polarity(c, a, b).Some?) && Represents(f, branches, before)
    requires forall rd, w :: here(rd, w) <==> ReadAgreesAt(rd, w, c, branches, a, b)
    requires forall rd, w :: after(rd, w) <==> before(rd, w) && here(rd, w)
    ensures Represents(f, branches, after)
  {
  }

  lemma FollowsLonger(c: Cfg, branches: BranchMap, path: seq<int>, i: nat,
                      before: (Reading, World) -> bool, here: (Reading, World) -> bool, after: (Reading, World) -> bool)
    requires i + 1 < |path|
    requires forall rd, w :: before(rd, w) <==> ReadFollows(rd, w, c, branches, path[..i + 1])
    requires forall rd, w :: here(rd, w) <==> ReadAgreesAt(rd, w, c, branches, path[i], path[i + 1])
    requires forall rd, w :: after(rd, w) <==> ReadFollows(rd, w, c, branches, path[..i + 2])
    ensures forall rd, w :: after(rd, w) <==> before(rd, w) && here(rd, w)
  {
    forall rd, w
      ensures after(rd, w) <==> before(rd, w) && here(rd, w)
    {
      FollowsStep(rd, w, c, branches, path, i);
    }
  }

  lemma FollowsStep(rd: Reading, w: World, c: Cfg, branches: BranchMap, path: seq<int>, i: nat)
    requires i + 1 < |path|
    ensures ReadFollows(rd, w, c, branches, path[..i + 2]) <==>
            ReadFollows(rd, w, c, branches, path[..i + 1]) && ReadAgreesAt(rd, w, c, branches, path[i], path[i + 1])
  {
    hide ReadAgreesAt;
    var long, short := path[..i + 2], path[..i + 1];
    assert forall k :: 0 <= k < |short| ==> short[k] == long[k];
    if ReadFollows(rd, w, c, branches, short) && ReadAgreesAt(rd, w, c, branches, path[i], path[i + 1]) {
      forall k | 0 <= k < |long| - 1
        ensures ReadAgreesAt(rd, w, c, branches, long[k], long[k + 1])
      {
        if k < i {
          assert ReadAgreesAt(rd, w, c, branches, short[k], short[k + 1]);
        }
      }
    }
    if ReadFollows(rd, w, c, branches, long) {
      assert ReadAgreesAt(rd, w, c, branches, long[i], long[i + 1]);
      forall k | 0 <= k < |short| - 1
        ensures ReadAgreesAt(rd, w, c, branches, short[k], short[k + 1])
      {
        assert ReadAgreesAt(rd, w, c, branches, long[k], long[k + 1]);
      }
    }
  }

  // ---------------------------------------------------------------- the predicate written on an edge

  function DirectPredicate(br: Branch, truthy: bool): Formula
    requires !br.Statement?
  {
    Compile(if br.If? then br.condition else AsCondition(br.caseLabel), truthy)
  }

  /**
   What the provenance text of an edge decodes to: nothing for a plain step, true
   for a way out that is not a condition, and the mark for texts that only explain.
   */
  function ProvenanceFormula(c: Cfg, branches: BranchMap, nondeterministic: set<int>, a: int, b: int): Option<Formula> {
    if !TwoWay(c, a) || a !in branches then None
    else if Polarity(c, a, b).None? then Some(UNSUPPORTED_FORMULA)
    else if branches[a].Statement? then Some(TRUE_FORMULA)
    else
      var truthy := Polarity(c, a, b).value;
      var direct := DirectPredicate(branches[a], truthy);
      var f := if direct.unsupported then CasePredicate(branches[a], truthy) else direct;
      if !f.unsupported then Some(Normalize(f))
      else if a in nondeterministic then Some(TRUE_FORMULA)
      else Some(UNSUPPORTED_FORMULA)
  }

  /** This edge's own branch is read right, or not as a condition at all. */
  predicate WrittenRight(c: Cfg, branches: BranchMap, a: int, b: int) {
    Decides(c, branches, a) && Polarity(c, a, b).Some? ==>
      ReadsRight(branches[a]) || DirectPredicate(branches[a], Polarity(c, a, b).value).unsupported
  }

  /** Whoever takes the step satisfies what is written on it. */
  lemma ProvenanceHolds(rd: Reading, w: World, c: Cfg, branches: BranchMap, nondeterministic: set<int>, a: int, b: int)
    requires AllTyped(rd, w, branches)
    ensures WrittenRight(c, branches, a, b) && AgreesAt(rd, w, c, branches, a, b)
            && ProvenanceFormula(c, branches, nondeterministic, a, b).Some? ==>
              Holds(rd, w.values, ProvenanceFormula(c, branches, nondeterministic, a, b).value)
  {
    TrivialMeaning(rd, w.values);
    if Decides(c, branches, a) && Polarity(c, a, b).Some? && WrittenRight(c, branches, a, b)
      && AgreesAt(rd, w, c, branches, a, b) {
      var br, truthy := branches[a], Polarity(c, a, b).value;
      if !DirectPredicate(br, truthy).unsupported {
        RightReadingAgrees(rd, w, br, truthy);
        PredicateMeaning(rd, w, br, truthy);
        NormalizeMeaning(rd, w.values, Predicate(br, truthy));
      } else if !CasePredicate(br, truthy).unsupported {
        CasePredicateMeaning(rd, w, br, truthy);
        NormalizeMeaning(rd, w.values, CasePredicate(br, truthy));
      }
    }
  }

  /**
   A branch that can be read is written down for what it is: the text is not marked, and
   says what the reading says. One that cannot is marked, unless it is known not to be a
   condition, and then the text says nothing.
   */
  lemma ProvenanceExact(rd: Reading, w: World, c: Cfg, branches: BranchMap, nondeterministic: set<int>, a: int, b: int)
    requires Decides(c, branches, a) && Polarity(c, a, b).Some?
    requires BooleansDiffer(rd) && BranchTyped(rd, w, branches[a])
    ensures var truthy, written := Polarity(c, a, b).value, ProvenanceFormula(c, branches, nondeterministic, a, b);
            && written.Some?
            && (Readable(branches[a], truthy) ==>
                  && !written.value.unsupported
                  && (Holds(rd, w.values, written.value) <==> ReadAgrees(rd, w, branches[a], truthy)))
            && (!Readable(branches[a], truthy) ==>
                  written.value == if a in nondeterministic then TRUE_FORMULA else UNSUPPORTED_FORMULA)
  {
    var br, truthy := branches[a], Polarity(c, a, b).value;
    hide Compile, Normalize, ReadAgrees, Holds, Readable;
    PredicateMarked(br, truthy);
    PredicateMeaning(rd, w, br, truthy);
    NormalizeMeaning(rd, w.values, Predicate(br, truthy));
  }
}
