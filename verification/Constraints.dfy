/**
 Predicate formulas in disjunctive normal form over SSA values, what they mean,
 and how they are combined under a bound and brought into a normal order.
 */
module Constraints {
  import opened Options
  import Ordering

  const ALTERNATIVE_LIMIT := 256

  datatype Op = Eq | Neq | Lt | Le | Gt | Ge

  datatype Atom = Atom(subject: string, op: Op, value: string)

  type Alternative = seq<Atom>

  /** `unsupported` marks an over-approximation: some atom was replaced by true. */
  datatype Formula = Formula(alternatives: seq<Alternative>, unsupported: bool)

  const TRUE_FORMULA := Formula([[]], false)
  const FALSE_FORMULA := Formula([], false)
  const UNSUPPORTED_FORMULA := Formula([[]], true)

  // ---------------------------------------------------------------- meaning

  datatype Value = Num(number: real) | Sym(text: string)

  /**
   How constant texts are read. `denote` is what a text means in Go, `number` what the
   parser of the contradiction rules makes of it, and `less` orders what is no number.
   Two texts may mean the same, and the parser may be wrong about one.
   */
  datatype Reading = Reading(number: string -> Option<real>, denote: string -> Value, less: (string, string) -> bool)

  type Valuation = string -> Value

  function Denote(rd: Reading, text: string): Value {
    rd.denote(text)
  }

  predicate Less(rd: Reading, a: Value, b: Value) {
    match (a, b)
    case (Num(x), Num(y)) => x < y
    case (Sym(s), Sym(t)) => rd.less(s, t)
    case (Num(_), Sym(_)) => true
    case (Sym(_), Num(_)) => false
  }

  predicate Compare(rd: Reading, op: Op, a: Value, b: Value) {
    match op
    case Eq => a == b
    case Neq => a != b
    case Lt => Less(rd, a, b)
    case Le => !Less(rd, b, a)
    case Gt => Less(rd, b, a)
    case Ge => !Less(rd, a, b)
  }

  predicate HoldsAtom(rd: Reading, v: Valuation, a: Atom) {
    Compare(rd, a.op, v(a.subject), Denote(rd, a.value))
  }

  predicate HoldsAll(rd: Reading, v: Valuation, alternative: Alternative) {
    forall a :: a in alternative ==> HoldsAtom(rd, v, a)
  }

  predicate Holds(rd: Reading, v: Valuation, f: Formula) {
    exists alternative :: alternative in f.alternatives && HoldsAll(rd, v, alternative)
  }

  ghost predicate Satisfiable(rd: Reading, f: Formula) {
    exists v: Valuation :: Holds(rd, v, f)
  }

  // ---------------------------------------------------------------- combining

  function Pairings(left: Alternative, right: seq<Alternative>): seq<Alternative> {
    if right == [] then []
    else Pairings(left, right[..|right| - 1]) + [left + right[|right| - 1]]
  }

  function Product(left: seq<Alternative>, right: seq<Alternative>): seq<Alternative> {
    if left == [] then []
    else Product(left[..|left| - 1], right) + Pairings(left[|left| - 1], right)
  }

  function AndFormula(l: Formula, r: Formula): Formula {
    if l.alternatives == [] || r.alternatives == [] then Formula([], l.unsupported || r.unsupported)
    else if |l.alternatives| * |r.alternatives| > ALTERNATIVE_LIMIT then UNSUPPORTED_FORMULA
    else Formula(Product(l.alternatives, r.alternatives), l.unsupported || r.unsupported)
  }

  function OrFormula(l: Formula, r: Formula): Formula {
    if |l.alternatives| + |r.alternatives| > ALTERNATIVE_LIMIT then UNSUPPORTED_FORMULA
    else Formula(l.alternatives + r.alternatives, l.unsupported || r.unsupported)
  }

  /** The nested loops that build a conjunction. */
  method Conjoin(l: Formula, r: Formula) returns (f: Formula)
    ensures f == AndFormula(l, r)
  {
    if |l.alternatives| == 0 || |r.alternatives| == 0 {
      return Formula([], l.unsupported || r.unsupported);
    }
    if |l.alternatives| * |r.alternatives| > ALTERNATIVE_LIMIT {
      return UNSUPPORTED_FORMULA;
    }
    var alternatives: seq<Alternative> := [];
    var i := 0;
    while i < |l.alternatives|
      invariant 0 <= i <= |l.alternatives|
      invariant alternatives == Product(l.alternatives[..i], r.alternatives)
    {
      var done := alternatives;
      var j := 0;
      while j < |r.alternatives|
        invariant 0 <= j <= |r.alternatives|
        invariant alternatives == done + Pairings(l.alternatives[i], r.alternatives[..j])
      {
        var combined := l.alternatives[i] + r.alternatives[j];
        alternatives := alternatives + [combined];
        assert r.alternatives[..j + 1][..j] == r.alternatives[..j];
        j := j + 1;
      }
      assert r.alternatives[..j] == r.alternatives;
      assert l.alternatives[..i + 1][..i] == l.alternatives[..i];
      i := i + 1;
    }
    assert l.alternatives[..i] == l.alternatives;
    f := Formula(alternatives, l.unsupported || r.unsupported);
  }

  lemma {:induction false} InPairings(left: Alternative, right: seq<Alternative>, x: Alternative)
    ensures x in Pairings(left, right) <==> exists r :: r in right && x == left + r
  {
    if right != [] {
      var k := |right| - 1;
      InPairings(left, right[..k], x);
      assert right == right[..k] + [right[k]];
    }
  }

  lemma {:induction false} InProduct(left: seq<Alternative>, right: seq<Alternative>, x: Alternative)
    ensures x in Product(left, right) <==> exists l, r :: l in left && r in right && x == l + r
  {
    if left != [] {
      var k := |left| - 1;
      InProduct(left[..k], right, x);
      InPairings(left[k], right, x);
      assert left == left[..k] + [left[k]];
    }
  }

  lemma HoldsAllConcat(rd: Reading, v: Valuation, a: Alternative, b: Alternative)
    ensures HoldsAll(rd, v, a + b) <==> HoldsAll(rd, v, a) && HoldsAll(rd, v, b)
  {
    if HoldsAll(rd, v, a + b) {
      forall x | x in a
        ensures HoldsAtom(rd, v, x)
      {
        assert x in a + b;
      }
      forall x | x in b
        ensures HoldsAtom(rd, v, x)
      {
        assert x in a + b;
      }
    }
  }

  lemma ProductMeaning(rd: Reading, v: Valuation, left: seq<Alternative>, right: seq<Alternative>)
    ensures (exists x :: x in Product(left, right) && HoldsAll(rd, v, x)) <==>
            (exists l :: l in left && HoldsAll(rd, v, l)) && (exists r :: r in right && HoldsAll(rd, v, r))
  {
    if x :| x in Product(left, right) && HoldsAll(rd, v, x) {
      InProduct(left, right, x);
      var l, r :| l in left && r in right && x == l + r;
      HoldsAllConcat(rd, v, l, r);
    }
    if (exists l :: l in left && HoldsAll(rd, v, l)) && (exists r :: r in right && HoldsAll(rd, v, r)) {
      var l :| l in left && HoldsAll(rd, v, l);
      var r :| r in right && HoldsAll(rd, v, r);
      HoldsAllConcat(rd, v, l, r);
      InProduct(left, right, l + r);
    }
  }

  /** A bounded conjunction is never stronger than the conjunction, and exact unless marked. */
  lemma AndMeaning(rd: Reading, v: Valuation, l: Formula, r: Formula)
    ensures Holds(rd, v, l) && Holds(rd, v, r) ==> Holds(rd, v, AndFormula(l, r))
    ensures !AndFormula(l, r).unsupported ==> (Holds(rd, v, AndFormula(l, r)) <==> Holds(rd, v, l) && Holds(rd, v, r))
    ensures !AndFormula(l, r).unsupported ==> !l.unsupported && !r.unsupported
  {
    ProductMeaning(rd, v, l.alternatives, r.alternatives);
    assert [] in UNSUPPORTED_FORMULA.alternatives && HoldsAll(rd, v, []);
  }

  lemma OrMeaning(rd: Reading, v: Valuation, l: Formula, r: Formula)
    ensures Holds(rd, v, l) || Holds(rd, v, r) ==> Holds(rd, v, OrFormula(l, r))
    ensures !OrFormula(l, r).unsupported ==> (Holds(rd, v, OrFormula(l, r)) <==> Holds(rd, v, l) || Holds(rd, v, r))
    ensures !OrFormula(l, r).unsupported ==> !l.unsupported && !r.unsupported
  {
    assert [] in UNSUPPORTED_FORMULA.alternatives && HoldsAll(rd, v, []);
    var f := OrFormula(l, r);
    if x :| x in l.alternatives && HoldsAll(rd, v, x) {
      assert x in l.alternatives + r.alternatives;
    }
    if x :| x in r.alternatives && HoldsAll(rd, v, x) {
      assert x in l.alternatives + r.alternatives;
    }
  }

  // ---------------------------------------------------------------- marks

  lemma {:induction false} PairingsLength(left: Alternative, right: seq<Alternative>)
    ensures |Pairings(left, right)| == |right|
  {
    if right != [] {
      PairingsLength(left, right[..|right| - 1]);
    }
  }

  lemma {:induction false} ProductLength(left: seq<Alternative>, right: seq<Alternative>)
    ensures |Product(left, right)| == |left| * |right|
  {
    if left != [] {
      var k := |left| - 1;
      ProductLength(left[..k], right);
      PairingsLength(left[k], right);
      hide Pairings;
      OneMoreTimes(k, |right|);
    }
  }

  lemma OneMoreTimes(k: nat, n: nat)
    ensures (k + 1) * n == k * n + n
  {
  }

  /** A conjunction is marked exactly when a part is, or when there would be too many alternatives. */
  lemma AndMarked(l: Formula, r: Formula)
    ensures AndFormula(l, r).unsupported <==>
            l.unsupported || r.unsupported || |l.alternatives| * |r.alternatives| > ALTERNATIVE_LIMIT
    ensures !AndFormula(l, r).unsupported ==>
              |AndFormula(l, r).alternatives| == |l.alternatives| * |r.alternatives|
  {
    ProductLength(l.alternatives, r.alternatives);
  }

  lemma OrMarked(l: Formula, r: Formula)
    ensures OrFormula(l, r).unsupported <==>
            l.unsupported || r.unsupported || |l.alternatives| + |r.alternatives| > ALTERNATIVE_LIMIT
    ensures !OrFormula(l, r).unsupported ==>
              |OrFormula(l, r).alternatives| == |l.alternatives| + |r.alternatives|
  {
  }

  /** One conjunction after the other, from the left. */
  function AndAll(parts: seq<Formula>): Formula {
    if parts == [] then TRUE_FORMULA else AndFormula(AndAll(parts[..|parts| - 1]), parts[|parts| - 1])
  }

  function CountAll(parts: seq<Formula>): nat {
    if parts == [] then 1 else CountAll(parts[..|parts| - 1]) * |parts[|parts| - 1].alternatives|
  }

  /** Some part is marked, or at some point there would be too many alternatives. */
  ghost predicate AnyMark(parts: seq<Formula>) {
    || (exists i :: 0 <= i < |parts| && parts[i].unsupported)
    || (exists n :: 0 <= n <= |parts| && CountAll(parts[..n]) > ALTERNATIVE_LIMIT)
  }

  lemma AnyMarkMore(parts: seq<Formula>, last: Formula)
    ensures AnyMark(parts + [last]) <==>
            AnyMark(parts) || last.unsupported || CountAll(parts + [last]) > ALTERNATIVE_LIMIT
  {
    var more := parts + [last];
    assert forall n :: 0 <= n <= |parts| ==> more[..n] == parts[..n];
    assert more[..|more|] == more;
    assert more[|parts|] == last;
    if AnyMark(parts) {
      if i :| 0 <= i < |parts| && parts[i].unsupported {
        assert more[i].unsupported;
      } else {
        var n :| 0 <= n <= |parts| && CountAll(parts[..n]) > ALTERNATIVE_LIMIT;
        assert CountAll(more[..n]) > ALTERNATIVE_LIMIT;
      }
    }
    if CountAll(more) > ALTERNATIVE_LIMIT {
      assert CountAll(more[..|more|]) > ALTERNATIVE_LIMIT;
    }
  }

  lemma {:induction false} AndAllMarked(parts: seq<Formula>)
    ensures AndAll(parts).unsupported <==> AnyMark(parts)
    ensures !AndAll(parts).unsupported ==> |AndAll(parts).alternatives| == CountAll(parts)
    decreases |parts|
  {
    if parts != [] {
      var k := |parts| - 1;
      AndAllMarked(parts[..k]);
      AndMarked(AndAll(parts[..k]), parts[k]);
      assert parts == parts[..k] + [parts[k]];
      hide AnyMark, AndFormula;
      AnyMarkMore(parts[..k], parts[k]);
    }
  }

  // ---------------------------------------------------------------- normal order

  function OpName(op: Op): string {
    match op
    case Eq => "eq"
    case Neq => "neq"
    case Lt => "lt"
    case Le => "le"
    case Gt => "gt"
    case Ge => "ge"
  }

  /** The parts of the text key `subject|op|value`; keys are treated as injective. */
  function KeyParts(a: Atom): seq<string> {
    [a.subject, OpName(a.op), a.value]
  }

  predicate AtomLeq(a: Atom, b: Atom) {
    Ordering.LexLeq(Ordering.StringLeq, KeyParts(a), KeyParts(b))
  }

  predicate AlternativeLeq(a: Alternative, b: Alternative) {
    Ordering.LexLeq(AtomLeq, a, b)
  }

  function SortAtoms(alternatives: seq<Alternative>): (r: seq<Alternative>)
    ensures |r| == |alternatives|
    ensures forall i :: 0 <= i < |r| ==> r[i] == Ordering.Sort(AtomLeq, alternatives[i])
  {
    if alternatives == [] then []
    else [Ordering.Sort(AtomLeq, alternatives[0])] + SortAtoms(alternatives[1..])
  }

  function Normalize(f: Formula): Formula {
    f.(alternatives := Ordering.Sort(AlternativeLeq, SortAtoms(f.alternatives)))
  }

  lemma KeyPartsInjective(a: Atom, b: Atom)
    requires KeyParts(a) == KeyParts(b)
    ensures a == b
  {
    assert KeyParts(a)[0] == KeyParts(b)[0] && KeyParts(a)[1] == KeyParts(b)[1] && KeyParts(a)[2] == KeyParts(b)[2];
    assert OpName(a.op)[0] == OpName(b.op)[0] && OpName(a.op)[1] == OpName(b.op)[1];
  }

  lemma AtomLeqIsTotalOrder()
    ensures Ordering.TotalOrder(AtomLeq)
  {
    Ordering.StringLeqIsTotalOrder();
    Ordering.LexIsTotalOrder(Ordering.StringLeq);
    var lex := (a: seq<string>, b: seq<string>) => Ordering.LexLeq(Ordering.StringLeq, a, b);
    assert forall a, b :: AtomLeq(a, b) == lex(KeyParts(a), KeyParts(b));
    forall a, b | AtomLeq(a, b) && AtomLeq(b, a)
      ensures a == b
    {
      KeyPartsInjective(a, b);
    }
    forall a, b, c | AtomLeq(a, b) && AtomLeq(b, c)
      ensures AtomLeq(a, c)
    {
      assert lex(KeyParts(a), KeyParts(b)) && lex(KeyParts(b), KeyParts(c));
    }
  }

  lemma AlternativeLeqIsTotalOrder()
    ensures Ordering.TotalOrder(AlternativeLeq)
  {
    AtomLeqIsTotalOrder();
    Ordering.LexIsTotalOrder(AtomLeq);
    var lex := (a: Alternative, b: Alternative) => Ordering.LexLeq(AtomLeq, a, b);
    assert forall a, b :: AlternativeLeq(a, b) == lex(a, b);
    forall a, b, c | AlternativeLeq(a, b) && AlternativeLeq(b, c)
      ensures AlternativeLeq(a, c)
    {
      assert lex(a, b) && lex(b, c);
    }
  }

  lemma SortAtomsMeaning(rd: Reading, v: Valuation, f: Formula)
    ensures Holds(rd, v, f.(alternatives := SortAtoms(f.alternatives))) <==> Holds(rd, v, f)
  {
    var sorted := SortAtoms(f.alternatives);
    forall i | 0 <= i < |sorted|
      ensures HoldsAll(rd, v, sorted[i]) <==> HoldsAll(rd, v, f.alternatives[i])
    {
      Ordering.SameElements(sorted[i], f.alternatives[i]);
    }
    if x :| x in sorted && HoldsAll(rd, v, x) {
      var i :| 0 <= i < |sorted| && sorted[i] == x;
      assert f.alternatives[i] in f.alternatives;
    }
    if x :| x in f.alternatives && HoldsAll(rd, v, x) {
      var i :| 0 <= i < |f.alternatives| && f.alternatives[i] == x;
      assert sorted[i] in sorted;
    }
  }

  /** Normal order changes no meaning. */
  lemma NormalizeMeaning(rd: Reading, v: Valuation, f: Formula)
    ensures Holds(rd, v, Normalize(f)) <==> Holds(rd, v, f)
    ensures Normalize(f).unsupported == f.unsupported
    ensures |Normalize(f).alternatives| == |f.alternatives|
  {
    SortAtomsMeaning(rd, v, f);
    Ordering.SameElements(Normalize(f).alternatives, SortAtoms(f.alternatives));
  }

  /** The same alternatives, up to the order of atoms inside each and of the alternatives themselves. */
  ghost predicate SameUpToOrder(f: Formula, g: Formula) {
    && f.unsupported == g.unsupported
    && multiset(SortAtoms(f.alternatives)) == multiset(SortAtoms(g.alternatives))
  }

  /** Normal form is canonical: it depends on nothing but which alternatives there are. */
  lemma NormalizeCanonical(f: Formula, g: Formula)
    ensures SameUpToOrder(f, g) <==> Normalize(f) == Normalize(g)
  {
    AlternativeLeqIsTotalOrder();
    var a, b := SortAtoms(f.alternatives), SortAtoms(g.alternatives);
    Ordering.SortSorted(AlternativeLeq, a);
    Ordering.SortSorted(AlternativeLeq, b);
    if multiset(a) == multiset(b) {
      Ordering.SortedUnique(AlternativeLeq, Ordering.Sort(AlternativeLeq, a), Ordering.Sort(AlternativeLeq, b));
    }
  }
}
