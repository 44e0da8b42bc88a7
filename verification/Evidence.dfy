/**
 Contradictions between atoms, certificates that name one per alternative, the
 function that builds a certificate and the separate one that checks it.
 */
module Evidence {
  import opened Options
  import opened Constraints
  import Ordering

  const VERSION := 1

  datatype Contradiction = Contradiction(alternative: int, left: Atom, right: Atom)

  datatype Certificate = Certificate(
    version: int,
    constantFalse: bool,
    path: seq<int>,
    subjects: seq<string>,
    contradictions: seq<Contradiction>)

  datatype Verdict = Sat | Unsat | Unknown

  datatype Decision = Decision(verdict: Verdict, certificate: Option<Certificate>)

  // ---------------------------------------------------------------- contradiction rules

  /** Numeric comparison of two constant texts; fails unless both are numbers. */
  function CompareNumbers(rd: Reading, left: string, right: string): Option<int> {
    if rd.number(left).None? || rd.number(right).None? then None
    else if rd.number(left).value < rd.number(right).value then Some(-1)
    else if rd.number(left).value > rd.number(right).value then Some(1)
    else Some(0)
  }

  predicate EqualityContradicts(rd: Reading, value: string, a: Atom) {
    if a.op == Neq then value == a.value
    else
      match CompareNumbers(rd, value, a.value)
      case None => false
      case Some(c) =>
        match a.op
        case Lt => c >= 0
        case Le => c > 0
        case Gt => c <= 0
        case Ge => c < 0
        case Eq => false
        case Neq => false
  }

  predicate IsLower(a: Atom) { a.op == Gt || a.op == Ge }

  predicate IsUpper(a: Atom) { a.op == Lt || a.op == Le }

  predicate BoundsContradict(rd: Reading, lower: Atom, upper: Atom) {
    match CompareNumbers(rd, lower.value, upper.value)
    case None => false
    case Some(c) => c > 0 || (c == 0 && (lower.op == Gt || upper.op == Lt))
  }

  predicate OrderedContradict(rd: Reading, left: Atom, right: Atom) {
    if IsLower(left) && IsUpper(right) then BoundsContradict(rd, left, right)
    else if IsLower(right) && IsUpper(left) then BoundsContradict(rd, right, left)
    else false
  }

  predicate Contradict(rd: Reading, left: Atom, right: Atom) {
    if left.subject == "" || left.subject != right.subject || left.value == "" || right.value == "" then false
    else if left.op == Eq && right.op == Eq then left.value != right.value
    else if left.op == Eq then EqualityContradicts(rd, left.value, right)
    else if right.op == Eq then EqualityContradicts(rd, right.value, left)
    else if left.op == Neq || right.op == Neq then false
    else OrderedContradict(rd, left, right)
  }

  /** Two equalities with differently written texts of one value. */
  predicate Respelled(rd: Reading, left: Atom, right: Atom) {
    left.op == Eq && right.op == Eq && left.value != right.value && Denote(rd, left.value) == Denote(rd, right.value)
  }

  /** The parser takes the text for a number that it does not mean. */
  predicate Misparsed(rd: Reading, a: Atom) {
    rd.number(a.value).Some? && Denote(rd, a.value) != Num(rd.number(a.value).value)
  }

  /** What the parser takes for a number does mean some number, if not always the same. */
  predicate MeansNumber(rd: Reading, a: Atom) {
    rd.number(a.value).Some? ==> Denote(rd, a.value).Num?
  }

  /** By what the texts mean: an equality meets the other atom, or a lower bound leaves room below an upper one. */
  predicate Coexist(rd: Reading, left: Atom, right: Atom) {
    var l, r := Denote(rd, left.value), Denote(rd, right.value);
    if left.op == Eq then Compare(rd, right.op, l, r)
    else if right.op == Eq then Compare(rd, left.op, r, l)
    else if IsLower(left) then Less(rd, l, r) || (l == r && left.op == Ge && right.op == Le)
    else Less(rd, r, l) || (l == r && left.op == Le && right.op == Ge)
  }

  /** The cases the rules get wrong: one value spelled in two ways, or a misparsed text that conflicts with nothing. */
  predicate Misjudged(rd: Reading, left: Atom, right: Atom) {
    Respelled(rd, left, right) || ((Misparsed(rd, left) || Misparsed(rd, right)) && Coexist(rd, left, right))
  }

  /** Some value between the bounds, or the bound itself. */
  function Between(rd: Reading, lower: Atom, upper: Atom): Value {
    var l, u := Denote(rd, lower.value), Denote(rd, upper.value);
    if l.Num? && u.Num? then Num((l.number + u.number) / 2.0) else l
  }

  /** A value that meets both atoms if any does. */
  function Candidate(rd: Reading, left: Atom, right: Atom): Value {
    if left.op == Eq then Denote(rd, left.value)
    else if right.op == Eq then Denote(rd, right.value)
    else if IsLower(left) then Between(rd, left, right)
    else Between(rd, right, left)
  }

  lemma CoexistMeaning(rd: Reading, left: Atom, right: Atom)
    requires Contradict(rd, left, right) && MeansNumber(rd, left) && MeansNumber(rd, right)
    ensures Coexist(rd, left, right) <==> exists v: Valuation :: HoldsAtom(rd, v, left) && HoldsAtom(rd, v, right)
  {
    if Coexist(rd, left, right) {
      var x := Candidate(rd, left, right);
      var v: Valuation := _ => x;
      assert HoldsAtom(rd, v, left) && HoldsAtom(rd, v, right);
    }
  }

  /** A reported contradiction has a common solution exactly when it is misjudged. */
  lemma ContradictionExact(rd: Reading, left: Atom, right: Atom)
    requires Contradict(rd, left, right) && MeansNumber(rd, left) && MeansNumber(rd, right)
    ensures (exists v: Valuation :: HoldsAtom(rd, v, left) && HoldsAtom(rd, v, right)) <==> Misjudged(rd, left, right)
  {
    CoexistMeaning(rd, left, right);
    assert Respelled(rd, left, right) ==> Coexist(rd, left, right);
  }

  /** Different spellings never mean one value, and the parser is right about every text. */
  ghost predicate CanonicalTexts(rd: Reading, f: Formula) {
    && (forall x, a :: x in f.alternatives && a in x ==> !Misparsed(rd, a))
    && forall x, y, a, b :: x in f.alternatives && y in f.alternatives && a in x && b in y ==> !Respelled(rd, a, b)
  }

  predicate HasContradiction(rd: Reading, alternative: Alternative) {
    exists i, j :: 0 <= i < j < |alternative| && Contradict(rd, alternative[i], alternative[j])
  }

  /** No pair before (i, j), row by row, is contradictory, and (i, j) is. */
  ghost predicate FirstContradiction(rd: Reading, alternative: Alternative, i: nat, j: nat) {
    && i < j < |alternative| && Contradict(rd, alternative[i], alternative[j])
    && (forall k, l :: 0 <= k < i && k < l < |alternative| ==> !Contradict(rd, alternative[k], alternative[l]))
    && (forall l :: i < l < j ==> !Contradict(rd, alternative[i], alternative[l]))
  }

  /** The evidence is deterministic: it is the first contradictory pair of the alternative. */
  method FindContradiction(rd: Reading, alternative: Alternative) returns (left: Atom, right: Atom, found: bool)
    ensures found <==> HasContradiction(rd, alternative)
    ensures found ==> NamesContradiction(rd, alternative, Contradiction(0, left, right))
    ensures found ==> exists i: nat, j: nat ::
      FirstContradiction(rd, alternative, i, j) && left == alternative[i] && right == alternative[j]
  {
    var i := 0;
    while i < |alternative|
      invariant 0 <= i <= |alternative|
      invariant forall k, l :: 0 <= k < i && k < l < |alternative| ==> !Contradict(rd, alternative[k], alternative[l])
    {
      var j := i + 1;
      while j < |alternative|
        invariant i < j <= |alternative|
        invariant forall l :: i < l < j ==> !Contradict(rd, alternative[i], alternative[l])
      {
        if Contradict(rd, alternative[i], alternative[j]) {
          assert FirstContradiction(rd, alternative, i, j);
          return alternative[i], alternative[j], true;
        }
        j := j + 1;
      }
      i := i + 1;
    }
    return Atom("", Eq, ""), Atom("", Eq, ""), false;
  }

  // ---------------------------------------------------------------- subjects

  function Subjects(f: Formula): set<string> {
    set i, j | 0 <= i < |f.alternatives| && 0 <= j < |f.alternatives[i]| && f.alternatives[i][j].subject != "" ::
      f.alternatives[i][j].subject
  }

  /** A set listed in string order, once each: the only thing sorting a set's elements can give. */
  ghost predicate ListedInOrder(listed: seq<string>, members: set<string>) {
    && (forall x :: x in listed <==> x in members)
    && Ordering.Sorted(Ordering.StringLeq, listed)
    && Ordering.Distinct(listed)
  }

  lemma {:induction false} ListedUnique(a: seq<string>, b: seq<string>, members: set<string>)
    requires ListedInOrder(a, members) && ListedInOrder(b, members)
    ensures a == b
    decreases |a|
  {
    Ordering.StringLeqIsTotalOrder();
    assert b != [] ==> b[0] in members;
    if a != [] {
      assert a[0] in members;
      assert b != [] && b[0] in members;
      var i :| 0 <= i < |b| && b[i] == a[0];
      var j :| 0 <= j < |a| && a[j] == b[0];
      assert a[0] == b[0];
      assert ListedInOrder(a[1..], members - {a[0]});
      assert ListedInOrder(b[1..], members - {a[0]});
      ListedUnique(a[1..], b[1..], members - {a[0]});
      assert a == [a[0]] + a[1..] && b == [b[0]] + b[1..];
    }
  }

  /** Collects the subjects in a set, lists it in whatever order it yields, and sorts. */
  method ListSubjects(f: Formula) returns (listed: seq<string>)
    ensures ListedInOrder(listed, Subjects(f))
  {
    var seen: set<string> := {};
    var i := 0;
    while i < |f.alternatives|
      invariant 0 <= i <= |f.alternatives|
      invariant seen == Subjects(Formula(f.alternatives[..i], f.unsupported))
    {
      seen := AddSubjects(f, i, seen);
      i := i + 1;
    }
    assert f.alternatives[..i] == f.alternatives;
    listed := [];
    var todo := seen;
    while todo != {}
      invariant todo <= seen && (forall x :: x in listed <==> x in seen - todo)
      invariant Ordering.Distinct(listed)
    {
      var x :| x in todo;
      assert x !in listed;
      listed := listed + [x];
      todo := todo - {x};
    }
    Ordering.StringLeqIsTotalOrder();
    Ordering.SortSorted(Ordering.StringLeq, listed);
    Ordering.SortKeepsElements(Ordering.StringLeq, listed);
    listed := Ordering.Sort(Ordering.StringLeq, listed);
  }

  method AddSubjects(f: Formula, i: nat, before: set<string>) returns (seen: set<string>)
    requires i < |f.alternatives| && before == Subjects(Formula(f.alternatives[..i], f.unsupported))
    ensures seen == Subjects(Formula(f.alternatives[..i + 1], f.unsupported))
  {
    seen := before;
    var j := 0;
    while j < |f.alternatives[i]|
      invariant 0 <= j <= |f.alternatives[i]|
      invariant seen == before + set k | 0 <= k < j && f.alternatives[i][k].subject != "" ::
                                   f.alternatives[i][k].subject
    {
      if f.alternatives[i][j].subject != "" {
        seen := seen + {f.alternatives[i][j].subject};
      }
      j := j + 1;
    }
    forall x
      ensures x in seen <==> x in Subjects(Formula(f.alternatives[..i + 1], f.unsupported))
    {
      var more: seq<Alternative> := f.alternatives[..i + 1];
      if x in before {
        var a, b :| 0 <= a < i && 0 <= b < |f.alternatives[..i][a]| && f.alternatives[..i][a][b].subject == x
          && x != "";
        assert more[a][b].subject == x;
      } else if x in seen {
        var k :| 0 <= k < j && f.alternatives[i][k].subject == x && x != "";
        assert more[i][k].subject == x;
      }
      if x in Subjects(Formula(more, f.unsupported)) {
        var a, b :| 0 <= a < |more| && 0 <= b < |more[a]| && more[a][b].subject == x && x != "";
        if a < i {
          assert f.alternatives[..i][a][b].subject == x;
        }
      }
    }
  }

  // ---------------------------------------------------------------- certificates

  ghost predicate NamesContradiction(rd: Reading, alternative: Alternative, c: Contradiction) {
    c.left in alternative && c.right in alternative && Contradict(rd, c.left, c.right)
  }

  /** What a certificate has to be to discharge a formula on a path. */
  ghost predicate Certifies(rd: Reading, f: Formula, path: seq<int>, c: Certificate) {
    && c.version == VERSION
    && c.path == path
    && ListedInOrder(c.subjects, Subjects(f))
    && (if f.alternatives == [] then c.constantFalse && c.contradictions == []
        else
          && !c.constantFalse
          && |c.contradictions| == |f.alternatives|
          && forall i :: 0 <= i < |f.alternatives| ==>
               c.contradictions[i].alternative == i && NamesContradiction(rd, f.alternatives[i], c.contradictions[i]))
  }

  /** Certificates of one formula differ in nothing but their pairs, and those of different paths are told apart. */
  lemma CertificateIsSpecific(rd: Reading, f: Formula, p: seq<int>, a: Certificate, q: seq<int>, b: Certificate)
    requires Certifies(rd, f, p, a) && Certifies(rd, f, q, b)
    ensures a.path == b.path <==> p == q
    ensures a.version == b.version && a.subjects == b.subjects && a.constantFalse == b.constantFalse
    ensures |a.contradictions| == |b.contradictions|
    ensures forall i :: 0 <= i < |a.contradictions| ==>
              a.contradictions[i].alternative == b.contradictions[i].alternative
  {
    ListedUnique(a.subjects, b.subjects, Subjects(f));
    hide ListedInOrder, NamesContradiction;
  }

  predicate RightlyJudged(rd: Reading, left: Atom, right: Atom) {
    MeansNumber(rd, left) && MeansNumber(rd, right) && !Misjudged(rd, left, right)
  }

  ghost predicate AllRightlyJudged(rd: Reading, c: Certificate) {
    forall x :: x in c.contradictions ==> RightlyJudged(rd, x.left, x.right)
  }

  /** A certificate that names no misjudged pair is a proof: no valuation satisfies the formula. */
  lemma CertifiedIsUnsatisfiable(rd: Reading, f: Formula, path: seq<int>, c: Certificate)
    requires Certifies(rd, f, path, c) && AllRightlyJudged(rd, c)
    ensures !Satisfiable(rd, f)
  {
    hide Contradict, Misjudged, MeansNumber;
    if v: Valuation :| Holds(rd, v, f) {
      var x :| x in f.alternatives && HoldsAll(rd, v, x);
      var i :| 0 <= i < |f.alternatives| && f.alternatives[i] == x;
      var pair := c.contradictions[i];
      assert NamesContradiction(rd, x, pair);
      ContradictionExact(rd, pair.left, pair.right);
      assert HoldsAtom(rd, v, pair.left) && HoldsAtom(rd, v, pair.right);
    }
  }

  /** Canonically written constants that are parsed for what they are leave nothing to misjudge. */
  lemma CanonicalTextsSuffice(rd: Reading, f: Formula, path: seq<int>, c: Certificate)
    requires Certifies(rd, f, path, c) && CanonicalTexts(rd, f)
    ensures AllRightlyJudged(rd, c)
  {
    forall x | x in c.contradictions
      ensures RightlyJudged(rd, x.left, x.right)
    {
      var i :| 0 <= i < |c.contradictions| && c.contradictions[i] == x;
      assert NamesContradiction(rd, f.alternatives[i], x);
      assert f.alternatives[i] in f.alternatives;
    }
  }

  /** For any misjudged pair there is a certified formula with a solution. */
  lemma MisjudgedPairIsCertified(rd: Reading, left: Atom, right: Atom, path: seq<int>)
    requires Contradict(rd, left, right) && MeansNumber(rd, left) && MeansNumber(rd, right)
             && Misjudged(rd, left, right)
    ensures var f := Formula([[left, right]], false);
            Certifies(rd, f, path, Certificate(VERSION, false, path, [left.subject], [Contradiction(0, left, right)]))
            && Satisfiable(rd, f)
  {
    var f := Formula([[left, right]], false);
    ContradictionExact(rd, left, right);
    var v: Valuation :| HoldsAtom(rd, v, left) && HoldsAtom(rd, v, right);
    assert [left, right] in f.alternatives && HoldsAll(rd, v, [left, right]);
    assert Holds(rd, v, f);
    assert left.subject == right.subject != "";
    hide Misjudged, MeansNumber, Contradict;
    assert f.alternatives[0][0].subject == left.subject;
    assert Subjects(f) == {left.subject};
    assert left in f.alternatives[0] && right in f.alternatives[0];
  }

  ghost predicate CertifiedThoughSatisfiable(rd: Reading, left: Atom, right: Atom, path: seq<int>) {
    exists c :: Certifies(rd, Formula([[left, right]], false), path, c)
      && Satisfiable(rd, Formula([[left, right]], false))
  }

  /** `x == 0x10` and `x == 16` are certified contradictory, though 16 is both. */
  lemma HexadecimalRespelling(rd: Reading, path: seq<int>)
    requires rd.number("0x10") == Some(16.0) && rd.number("16") == Some(16.0)
    requires rd.denote("0x10") == Num(16.0) && rd.denote("16") == Num(16.0)
    ensures CertifiedThoughSatisfiable(rd, Atom("x", Eq, "0x10"), Atom("x", Eq, "16"), path)
  {
    assert |"0x10"| == 4 && |"16"| == 2;
    MisjudgedPairIsCertified(rd, Atom("x", Eq, "0x10"), Atom("x", Eq, "16"), path);
  }

  /** An interpreted and a raw string literal of the same string. */
  lemma StringRespelling(rd: Reading, path: seq<int>)
    requires rd.number("\"a\"").None? && rd.number("`a`").None?
    requires rd.denote("\"a\"") == Sym("a") && rd.denote("`a`") == Sym("a")
    ensures CertifiedThoughSatisfiable(rd, Atom("x", Eq, "\"a\""), Atom("x", Eq, "`a`"), path)
  {
    assert "\"a\""[0] != "`a`"[0];
    MisjudgedPairIsCertified(rd, Atom("x", Eq, "\"a\""), Atom("x", Eq, "`a`"), path);
  }

  /** A rune literal, and a named constant for the same rune, which is written as its number. */
  lemma RuneRespelling(rd: Reading, path: seq<int>)
    requires rd.number("'/'").None? && rd.number("47") == Some(47.0)
    requires rd.denote("'/'") == Num(47.0) && rd.denote("47") == Num(47.0)
    ensures CertifiedThoughSatisfiable(rd, Atom("x", Eq, "'/'"), Atom("x", Eq, "47"), path)
  {
    assert |"'/'"| == 3 && |"47"| == 2;
    MisjudgedPairIsCertified(rd, Atom("x", Eq, "'/'"), Atom("x", Eq, "47"), path);
  }

  /** An octal literal parsed as decimal: `x == 010` is refuted by `x < 9`, though 8 is less. */
  lemma OctalMisparse(rd: Reading, path: seq<int>)
    requires rd.number("010") == Some(10.0) && rd.number("9") == Some(9.0)
    requires rd.denote("010") == Num(8.0) && rd.denote("9") == Num(9.0)
    ensures CertifiedThoughSatisfiable(rd, Atom("x", Eq, "010"), Atom("x", Lt, "9"), path)
  {
    MisjudgedPairIsCertified(rd, Atom("x", Eq, "010"), Atom("x", Lt, "9"), path);
  }

  /** Builds one contradiction per alternative, or gives up at the first alternative without one. */
  method Build(rd: Reading, f: Formula) returns (c: Certificate, unsat: bool)
    ensures unsat <==> forall x :: x in f.alternatives ==> HasContradiction(rd, x)
    ensures unsat ==> forall path, subjects ::
      ListedInOrder(subjects, Subjects(f)) ==> Certifies(rd, f, path, c.(path := path, subjects := subjects))
  {
    c := Certificate(VERSION, false, [], [], []);
    if |f.alternatives| == 0 {
      return c.(constantFalse := true), true;
    }
    var i := 0;
    while i < |f.alternatives|
      invariant 0 <= i <= |f.alternatives| && |c.contradictions| == i
      invariant c == Certificate(VERSION, false, [], [], c.contradictions)
      invariant forall k :: 0 <= k < i ==> HasContradiction(rd, f.alternatives[k])
      invariant forall k :: 0 <= k < i ==>
        c.contradictions[k].alternative == k && NamesContradiction(rd, f.alternatives[k], c.contradictions[k])
    {
      var left, right, found := FindContradiction(rd, f.alternatives[i]);
      if !found {
        return Certificate(0, false, [], [], []), false;
      }
      c := c.(contradictions := c.contradictions + [Contradiction(i, left, right)]);
      i := i + 1;
    }
    unsat := true;
  }

  /** The separate checker: it accepts exactly the certificates that certify. */
  method Check(rd: Reading, f: Formula, path: seq<int>, c: Certificate) returns (accepted: bool)
    ensures accepted <==> Certifies(rd, f, path, c)
  {
    if c.version != VERSION {
      return false;
    }
    var subjects := ListSubjects(f);
    if ListedInOrder(c.subjects, Subjects(f)) {
      ListedUnique(c.subjects, subjects, Subjects(f));
    }
    if c.path != path || c.subjects != subjects {
      return false;
    }
    if |f.alternatives| == 0 {
      return c.constantFalse && |c.contradictions| == 0;
    }
    if c.constantFalse || |f.alternatives| != |c.contradictions| {
      return false;
    }
    var i := 0;
    while i < |f.alternatives|
      invariant 0 <= i <= |f.alternatives|
      invariant forall k :: 0 <= k < i ==>
        c.contradictions[k].alternative == k && NamesContradiction(rd, f.alternatives[k], c.contradictions[k])
    {
      var named := c.contradictions[i];
      if named.alternative != i || named.left !in f.alternatives[i] || named.right !in f.alternatives[i]
         || !Contradict(rd, named.left, named.right) {
        return false;
      }
      i := i + 1;
    }
    accepted := true;
  }

  /** The backend: an UNSAT answer always carries a certificate the checker accepts. */
  method Decide(rd: Reading, f: Formula, path: seq<int>) returns (d: Decision)
    ensures d.verdict == Unsat <==> forall x :: x in f.alternatives ==> HasContradiction(rd, x)
    ensures d.verdict == Unsat <==> d.certificate.Some?
    ensures d.verdict == Unsat ==> Certifies(rd, f, path, d.certificate.value)
    ensures d.verdict == Unknown ==> f.unsupported
    ensures d.verdict == Sat ==> !f.unsupported
  {
    var subjects := ListSubjects(f);
    var c, unsat := Build(rd, f);
    if unsat {
      return Decision(Unsat, Some(c.(path := path, subjects := subjects)));
    }
    if f.unsupported {
      return Decision(Unknown, None);
    }
    d := Decision(Sat, None);
  }
}
