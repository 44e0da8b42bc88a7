/**
 What the pairwise search for contradictions overlooks, against Go's own values:
 exactly, for whole formulas and for the subjects of each type, with an example of
 each thing overlooked.
 */
module PairSearch {
  import opened Options
  import opened Constraints
  import opened Evidence
  import opened Domains
  import Ordering

  /** No two equalities spell one value in two ways, and no text is parsed for another number. */
  ghost predicate CanonicalAlternative(rd: Reading, alternative: Alternative) {
    && (forall a :: a in alternative ==> !Misparsed(rd, a))
    && (forall a, b :: a in alternative && b in alternative ==> !Respelled(rd, a, b))
  }

  /** An alternative that no Go values satisfy, and in which the search finds no pair. */
  ghost predicate Overlooked(rd: Reading, kinds: Kinds, alternative: Alternative) {
    !HasContradiction(rd, alternative) && Closed(rd, kinds, alternative)
  }

  /** A contradiction between canonical atoms is one. */
  lemma ContradictionCloses(rd: Reading, kinds: Kinds, alternative: Alternative)
    requires AlternativeTyped(rd, kinds, alternative) && CanonicalAlternative(rd, alternative)
    requires HasContradiction(rd, alternative)
    ensures Closed(rd, kinds, alternative)
  {
    hide Closed, Contradict, Compare;
    var i, j :| 0 <= i < j < |alternative| && Contradict(rd, alternative[i], alternative[j]);
    var a, b := alternative[i], alternative[j];
    assert AtomTyped(rd, kinds(a.subject), a) && AtomTyped(rd, kinds(b.subject), b);
    ContradictionExact(rd, a, b);
    AlternativeDecided(rd, kinds, alternative);
    forall v: Valuation
      ensures !HoldsAll(rd, v, alternative)
    {
      assert HoldsAll(rd, v, alternative) ==> HoldsAtom(rd, v, a) && HoldsAtom(rd, v, b);
    }
  }

  ghost predicate FormulaTyped(rd: Reading, kinds: Kinds, f: Formula) {
    forall x :: x in f.alternatives ==> AlternativeTyped(rd, kinds, x) && CanonicalAlternative(rd, x)
  }

  /** Go values satisfy the formula. */
  ghost predicate Feasible(rd: Reading, kinds: Kinds, f: Formula) {
    exists v :: Inhabits(rd, kinds, v) && Holds(rd, v, f)
  }

  /** The backend refutes what is infeasible, except where a conflict is overlooked. */
  lemma DecisionExact(rd: Reading, kinds: Kinds, f: Formula)
    requires FormulaTyped(rd, kinds, f)
    ensures !Feasible(rd, kinds, f) <==>
            forall x :: x in f.alternatives ==> HasContradiction(rd, x) || Overlooked(rd, kinds, x)
  {
    hide AlternativeTyped, CanonicalAlternative, Closed, HasContradiction;
    forall x | x in f.alternatives
      ensures HasContradiction(rd, x) || Overlooked(rd, kinds, x) <==> !Solvable(rd, kinds, x)
    {
      AlternativeDecided(rd, kinds, x);
      if HasContradiction(rd, x) {
        ContradictionCloses(rd, kinds, x);
      }
    }
    if x :| x in f.alternatives && Solvable(rd, kinds, x) {
      var v :| Inhabits(rd, kinds, v) && HoldsAll(rd, v, x);
      assert Holds(rd, v, f);
    }
    if Feasible(rd, kinds, f) {
      var v :| Inhabits(rd, kinds, v) && Holds(rd, v, f);
      var x :| x in f.alternatives && HoldsAll(rd, v, x);
      assert Solvable(rd, kinds, x);
    }
  }

  // ---------------------------------------------------------------- what is overlooked, type by type

  /** A pair on this subject that the search finds. */
  ghost predicate Conflicting(rd: Reading, alternative: Alternative, s: string) {
    exists a, b :: a in alternative && b in alternative && a.subject == s && Contradict(rd, a, b)
  }

  /** Only equality is compared, and each value has one text. */
  ghost predicate OneTextEach(rd: Reading, alternative: Alternative, s: string) {
    && (forall a :: a in alternative && a.subject == s ==> a.op == Eq || a.op == Neq)
    && (forall a, b :: a in alternative && b in alternative && a.subject == b.subject == s ==>
          Denote(rd, a.value) == Denote(rd, b.value) ==> a.value == b.value)
  }

  /** Then what the search finds is what is refused. */
  lemma EqualityPairs(rd: Reading, kinds: Kinds, alternative: Alternative, s: string)
    requires AlternativeTyped(rd, kinds, alternative) && OneTextEach(rd, alternative, s)
    ensures Conflicting(rd, alternative, s) <==> Refused(rd, alternative, s)
  {
    hide Less;
    if a, b :| a in alternative && b in alternative && a.subject == s && Contradict(rd, a, b) {
      assert RefusedBy(rd, alternative, s, if a.op == Eq then a else b, if a.op == Eq then b else a);
    }
    if e, a :| RefusedBy(rd, alternative, s, e, a) {
      assert Contradict(rd, e, a);
    }
  }

  /** On references the pairwise search is a decision. */
  lemma ReferencesDecided(rd: Reading, kinds: Kinds, alternative: Alternative, s: string)
    requires AlternativeTyped(rd, kinds, alternative) && kinds(s).Reference?
    ensures !Open(rd, kinds, alternative, s) <==> Conflicting(rd, alternative, s)
  {
    SubjectDecided(rd, kinds, alternative, s);
    EqualityPairs(rd, kinds, alternative, s);
  }

  /** And on strings that are only compared for equality: there is always another one. */
  lemma StringEqualitiesDecided(rd: Reading, kinds: Kinds, alternative: Alternative, s: string)
    requires AlternativeTyped(rd, kinds, alternative) && kinds(s).Text? && OneTextEach(rd, alternative, s)
    ensures !Open(rd, kinds, alternative, s) <==> Conflicting(rd, alternative, s)
  {
    SubjectDecided(rd, kinds, alternative, s);
    EqualityPairs(rd, kinds, alternative, s);
    hide Conflicting, Refused, Less, Open;
    if !HasEquality(alternative, s) {
      var l := Lowest(rd, Text, alternative, s);
      LowestMeets(rd, Text, alternative, s, Sym(""));
      StepsCount(rd, Text, l, |alternative| + 1);
      var y := Spared(rd, alternative, s, Steps(l, |alternative| + 1));
      var i: nat :| i < |alternative| + 1 && y == Nth(l, i);
      assert Left(rd, Text, alternative, s, Nth(l, i));
    }
  }

  predicate PlainlySpelled(alternative: Alternative, s: string, texts: set<string>) {
    forall a :: a in alternative && a.subject == s ==> a.value in texts
  }

  /** On booleans it misses one thing: both values excluded by inequalities. */
  lemma BooleansDecided(rd: Reading, kinds: Kinds, alternative: Alternative, s: string)
    requires AlternativeTyped(rd, kinds, alternative) && kinds(s).Boolean?
    requires PlainlySpelled(alternative, s, {"true", "false"})
    ensures !Open(rd, kinds, alternative, s) <==>
            || Conflicting(rd, alternative, s)
            || (Atom(s, Neq, "true") in alternative && Atom(s, Neq, "false") in alternative)
  {
    SubjectDecided(rd, kinds, alternative, s);
    BooleanTexts(rd, kinds, alternative, s);
    EqualityPairs(rd, kinds, alternative, s);
    hide OneTextEach;
    BooleanLeft(rd, kinds, alternative, s, "true");
    BooleanLeft(rd, kinds, alternative, s, "false");
    if HasEquality(alternative, s) && Atom(s, Neq, "true") in alternative && Atom(s, Neq, "false") in alternative {
      BothExcluded(rd, alternative, s);
    }
    hide Left, Open, Conflicting, Refused, AlternativeTyped, PlainlySpelled;
  }

  lemma BooleanTexts(rd: Reading, kinds: Kinds, alternative: Alternative, s: string)
    requires AlternativeTyped(rd, kinds, alternative) && kinds(s).Boolean?
    requires PlainlySpelled(alternative, s, {"true", "false"})
    ensures OneTextEach(rd, alternative, s)
  {
    hide Less;
  }

  lemma BothExcluded(rd: Reading, alternative: Alternative, s: string)
    requires HasEquality(alternative, s) && PlainlySpelled(alternative, s, {"true", "false"})
    requires Atom(s, Neq, "true") in alternative && Atom(s, Neq, "false") in alternative
    ensures Refused(rd, alternative, s)
  {
    var e :| e in alternative && e.subject == s && e.op == Eq;
    assert RefusedBy(rd, alternative, s, e, Atom(s, Neq, e.value));
  }

  lemma BooleanLeft(rd: Reading, kinds: Kinds, alternative: Alternative, s: string, t: string)
    requires AlternativeTyped(rd, kinds, alternative) && kinds(s).Boolean?
    requires PlainlySpelled(alternative, s, {"true", "false"}) && t in {"true", "false"}
    ensures Left(rd, Boolean, alternative, s, Denote(rd, t)) <==> Atom(s, Neq, t) !in alternative
  {
    hide Less;
    forall a | a in alternative && a.subject == s && (IsUpper(a) || a.op == Neq)
      ensures Meets(rd, a, Denote(rd, t)) <==> a != Atom(s, Neq, t)
    {
    }
  }

  /** Every text on the subject is parsed for the number it means, and no two equalities spell one value in two ways. */
  ghost predicate Numeric(rd: Reading, alternative: Alternative, s: string) {
    && (forall a :: a in alternative && a.subject == s ==> rd.number(a.value).Some? && !Misparsed(rd, a))
    && (forall a, b :: a in alternative && b in alternative && a.subject == b.subject == s ==> !Respelled(rd, a, b))
  }

  /** An equality and an inequality with one value in two spellings: they conflict, but their texts differ. */
  ghost predicate Missed(rd: Reading, alternative: Alternative, s: string) {
    exists e, n :: e in alternative && n in alternative && e.subject == n.subject == s && e.op == Eq && n.op == Neq
                   && e.value != n.value && Denote(rd, e.value) == Denote(rd, n.value)
  }

  lemma ConflictCloses(rd: Reading, kinds: Kinds, alternative: Alternative, s: string)
    requires AlternativeTyped(rd, kinds, alternative) && kinds(s).Integer? && Numeric(rd, alternative, s)
    requires Conflicting(rd, alternative, s)
    ensures !Open(rd, kinds, alternative, s)
  {
    hide Contradict, Compare;
    var a, b :| a in alternative && b in alternative && a.subject == s && Contradict(rd, a, b);
    assert b.subject == s by {
      ContradictSameSubject(rd, a, b);
    }
    assert AtomTyped(rd, kinds(s), a) && AtomTyped(rd, kinds(s), b);
    ContradictionExact(rd, a, b);
    forall x
      ensures !MeetsAll(rd, alternative, s, x)
    {
      var v: Valuation := _ => x;
      assert HoldsAtom(rd, v, a) == Meets(rd, a, x) && HoldsAtom(rd, v, b) == Meets(rd, b, x);
    }
  }

  lemma ContradictSameSubject(rd: Reading, a: Atom, b: Atom)
    requires Contradict(rd, a, b)
    ensures a.subject == b.subject
  {
  }

  lemma RefusedInteger(rd: Reading, kinds: Kinds, alternative: Alternative, s: string, e: Atom, a: Atom)
    requires AlternativeTyped(rd, kinds, alternative) && kinds(s).Integer? && Numeric(rd, alternative, s)
    requires RefusedBy(rd, alternative, s, e, a)
    ensures Contradict(rd, e, a) || (a.op == Neq && e.value != a.value && Denote(rd, e.value) == Denote(rd, a.value))
  {
    assert AtomTyped(rd, kinds(s), e) && AtomTyped(rd, kinds(s), a);
  }

  lemma RefusedMeansMissed(rd: Reading, kinds: Kinds, alternative: Alternative, s: string)
    requires AlternativeTyped(rd, kinds, alternative) && kinds(s).Integer? && Numeric(rd, alternative, s)
    ensures Refused(rd, alternative, s) ==> Conflicting(rd, alternative, s) || Missed(rd, alternative, s)
    ensures Missed(rd, alternative, s) ==> Refused(rd, alternative, s)
  {
    if e, a :| RefusedBy(rd, alternative, s, e, a) {
      RefusedInteger(rd, kinds, alternative, s, e, a);
    }
    hide Contradict, AlternativeTyped, Numeric;
    if e, n :| e in alternative && n in alternative && e.subject == n.subject == s && e.op == Eq && n.op == Neq
               && e.value != n.value && Denote(rd, e.value) == Denote(rd, n.value) {
      assert RefusedBy(rd, alternative, s, e, n);
    }
  }

  /**
   On integers it misses two things: an inequality that writes an equality's number
   otherwise, and a range with no integer that the inequalities leave.
   */
  lemma IntegersDecided(rd: Reading, kinds: Kinds, alternative: Alternative, s: string)
    requires AlternativeTyped(rd, kinds, alternative) && kinds(s).Integer? && Numeric(rd, alternative, s)
    ensures !Open(rd, kinds, alternative, s) <==>
            || Conflicting(rd, alternative, s)
            || Missed(rd, alternative, s)
            || Exhausted(rd, kinds, alternative, s)
  {
    hide Conflicting, Missed, Refused, Exhausted, Open, AlternativeTyped, Numeric;
    SubjectDecided(rd, kinds, alternative, s);
    RefusedMeansMissed(rd, kinds, alternative, s);
    if Conflicting(rd, alternative, s) {
      ConflictCloses(rd, kinds, alternative, s);
    }
  }

  lemma {:induction false} LowestIs(rd: Reading, kind: Kind, alternative: Alternative, s: string)
    returns (a: Option<Atom>)
    ensures a.None? ==> Lowest(rd, kind, alternative, s) == Bottom(kind)
    ensures a.Some? ==> a.value in alternative && a.value.subject == s && IsLower(a.value)
                        && Lowest(rd, kind, alternative, s) == LeastMeeting(rd, a.value)
    decreases |alternative|
  {
    hide Less, LeastMeeting;
    if alternative == [] {
      return None;
    }
    a := LowestIs(rd, kind, alternative[1..], s);
    var first := alternative[0];
    if first.subject == s && IsLower(first)
       && Less(rd, Lowest(rd, kind, alternative[1..], s), LeastMeeting(rd, first)) {
      a := Some(first);
    }
  }

  function IntegerOf(rd: Reading, a: Atom): int {
    match Denote(rd, a.value)
    case Num(number) => number.Floor
    case Sym(_) => 0
  }

  /** Strict bounds one apart: rational numbers fit between them, no integer does. */
  ghost predicate Adjacent(rd: Reading, alternative: Alternative, s: string) {
    exists a, b :: a in alternative && b in alternative && a.subject == b.subject == s
                   && a.op == Gt && b.op == Lt && IntegerOf(rd, b) == IntegerOf(rd, a) + 1
  }

  /** A strict bound at the end of the type. */
  ghost predicate OffTheEnd(rd: Reading, kinds: Kinds, alternative: Alternative, s: string)
    requires kinds(s).Integer?
  {
    exists a :: a in alternative && a.subject == s
                && ((a.op == Gt && IntegerOf(rd, a) == kinds(s).greatest)
                    || (a.op == Lt && IntegerOf(rd, a) == kinds(s).least))
  }

  predicate NumericBound(rd: Reading, kind: Kind, a: Atom) {
    kind.Integer? && AtomTyped(rd, kind, a) && rd.number(a.value).Some? && !Misparsed(rd, a)
  }

  lemma LeastRefused(rd: Reading, kind: Kind, a: Atom, b: Atom)
    requires NumericBound(rd, kind, a) && NumericBound(rd, kind, b) && a.subject == b.subject
    requires IsLower(a) && IsUpper(b) && !Meets(rd, b, LeastMeeting(rd, a))
    ensures Contradict(rd, a, b) || (a.op == Gt && b.op == Lt && IntegerOf(rd, b) == IntegerOf(rd, a) + 1)
  {
    var x, y := Denote(rd, a.value).number, Denote(rd, b.value).number;
    assert CompareNumbers(rd, a.value, b.value)
           == if x < y then Some(-1) else if x > y then Some(1) else Some(0);
    NextInteger(x, y);
    NextInteger(y, x);
    assert (x + 1.0).Floor == x.Floor + 1;
    hide CompareNumbers, AtomTyped;
  }

  lemma LeastBeyond(rd: Reading, kind: Kind, a: Atom)
    requires NumericBound(rd, kind, a) && IsLower(a) && !Member(rd, kind, LeastMeeting(rd, a))
    ensures a.op == Gt && IntegerOf(rd, a) == kind.greatest
  {
    var c := Denote(rd, a.value).number;
    NextInteger(c, c);
    assert (c + 1.0).Floor == c.Floor + 1;
  }

  lemma BottomRefused(rd: Reading, kind: Kind, b: Atom)
    requires NumericBound(rd, kind, b) && IsUpper(b) && !Meets(rd, b, Bottom(kind))
    ensures b.op == Lt && IntegerOf(rd, b) == kind.least
  {
  }

  /** The lowest value is refused by an upper bound or beyond the type: two bounds conflict, or one is off the end. */
  lemma EmptyRange(rd: Reading, kinds: Kinds, alternative: Alternative, s: string)
    requires AlternativeTyped(rd, kinds, alternative) && kinds(s).Integer? && Numeric(rd, alternative, s)
    requires forall a :: a in alternative && a.subject == s ==> a.op != Neq
    requires !Left(rd, kinds(s), alternative, s, Lowest(rd, kinds(s), alternative, s))
    ensures Conflicting(rd, alternative, s) || Adjacent(rd, alternative, s) || OffTheEnd(rd, kinds, alternative, s)
  {
    var kind := kinds(s);
    var l := Lowest(rd, kind, alternative, s);
    var from := LowestIs(rd, kind, alternative, s);
    assert forall a :: a in alternative && a.subject == s ==> NumericBound(rd, kind, a);
    assert Member(rd, kind, Bottom(kind));
    hide AlternativeTyped, Numeric, NumericBound, Member, Meets, LeastMeeting, IntegerOf, Contradict, Lowest;
    if Member(rd, kind, l) {
      var b :| b in alternative && b.subject == s && IsUpper(b) && !Meets(rd, b, l);
      if from.Some? {
        LeastRefused(rd, kind, from.value, b);
      } else {
        BottomRefused(rd, kind, b);
      }
    } else {
      LeastBeyond(rd, kind, from.value);
    }
  }

  /** No integer of the type is strictly between bounds one apart. */
  lemma NoneBetween(rd: Reading, kind: Kind, a: Atom, b: Atom, x: Value)
    requires kind.Integer? && AtomTyped(rd, kind, a) && AtomTyped(rd, kind, b) && Member(rd, kind, x)
    requires a.op == Gt && b.op == Lt && IntegerOf(rd, b) == IntegerOf(rd, a) + 1
    ensures !Meets(rd, a, x) || !Meets(rd, b, x)
  {
    NextInteger(Denote(rd, a.value).number, x.number);
  }

  lemma NoneBeyond(rd: Reading, kind: Kind, a: Atom, x: Value)
    requires kind.Integer? && AtomTyped(rd, kind, a) && Member(rd, kind, x)
    requires (a.op == Gt && IntegerOf(rd, a) == kind.greatest) || (a.op == Lt && IntegerOf(rd, a) == kind.least)
    ensures !Meets(rd, a, x)
  {
  }

  lemma AdjacentCloses(rd: Reading, kinds: Kinds, alternative: Alternative, s: string)
    requires AlternativeTyped(rd, kinds, alternative) && kinds(s).Integer?
    requires Adjacent(rd, alternative, s) || OffTheEnd(rd, kinds, alternative, s)
    ensures !Open(rd, kinds, alternative, s)
  {
    assert forall a :: a in alternative && a.subject == s ==> AtomTyped(rd, kinds(s), a);
    hide AlternativeTyped, AtomTyped, Member, Meets, IntegerOf;
    if Adjacent(rd, alternative, s) {
      var a, b :| a in alternative && b in alternative && a.subject == b.subject == s
                  && a.op == Gt && b.op == Lt && IntegerOf(rd, b) == IntegerOf(rd, a) + 1;
      forall x | Member(rd, kinds(s), x)
        ensures !Meets(rd, a, x) || !Meets(rd, b, x)
      {
        NoneBetween(rd, kinds(s), a, b, x);
      }
    } else {
      var a :| a in alternative && a.subject == s
               && ((a.op == Gt && IntegerOf(rd, a) == kinds(s).greatest)
                   || (a.op == Lt && IntegerOf(rd, a) == kinds(s).least));
      forall x | Member(rd, kinds(s), x)
        ensures !Meets(rd, a, x)
      {
        NoneBeyond(rd, kinds(s), a, x);
      }
    }
  }

  /**
   Without inequalities the pairwise search decides integer bounds and equalities but for
   two cases: strict bounds one apart, and a strict bound at the end of the type.
   */
  lemma PairsDecide(rd: Reading, kinds: Kinds, alternative: Alternative, s: string)
    requires AlternativeTyped(rd, kinds, alternative) && kinds(s).Integer? && Numeric(rd, alternative, s)
    requires forall a :: a in alternative && a.subject == s ==> a.op != Neq
    ensures !Open(rd, kinds, alternative, s) <==>
            || Conflicting(rd, alternative, s)
            || Adjacent(rd, alternative, s)
            || OffTheEnd(rd, kinds, alternative, s)
  {
    hide Conflicting, Adjacent, OffTheEnd, Open, AlternativeTyped, Numeric, Lowest, Left;
    IntegersDecided(rd, kinds, alternative, s);
    if Adjacent(rd, alternative, s) || OffTheEnd(rd, kinds, alternative, s) {
      AdjacentCloses(rd, kinds, alternative, s);
    }
    if Exhausted(rd, kinds, alternative, s) {
      var l := Lowest(rd, kinds(s), alternative, s);
      LowestOnLine(rd, kinds, alternative, s);
      assert Nth(l, 0) == l;
      EmptyRange(rd, kinds, alternative, s);
    }
  }

  lemma LowestOnLine(rd: Reading, kinds: Kinds, alternative: Alternative, s: string)
    requires AlternativeTyped(rd, kinds, alternative) && kinds(s).Integer?
    ensures OnLine(kinds(s), Lowest(rd, kinds(s), alternative, s))
  {
    LowestMeets(rd, kinds(s), alternative, s, Bottom(kinds(s)));
  }

  // ---------------------------------------------------------------- overlooked conflicts

  lemma ClosedAt(rd: Reading, kinds: Kinds, alternative: Alternative, s: string)
    requires AlternativeTyped(rd, kinds, alternative) && !Open(rd, kinds, alternative, s)
    ensures Closed(rd, kinds, alternative)
  {
    SubjectDecided(rd, kinds, alternative, s);
  }

  predicate ReadsNumber(rd: Reading, text: string, n: int) {
    text != "" && rd.number(text) == Some(n as real) && rd.denote(text) == Num(n as real)
  }

  const ALL_BYTES: Kinds := _ => Integer(-128, 127)
  const ALL_BOOLEANS: Kinds := _ => Boolean
  const ALL_STRINGS: Kinds := _ => Text

  /** `x > 5 && x < 6`: no integer is left, and the bounds do not conflict as rationals. */
  lemma AdjacentBoundsOverlooked(rd: Reading)
    requires ReadsGo(rd) && ReadsNumber(rd, "5", 5) && ReadsNumber(rd, "6", 6)
    ensures var pair := [Atom("x", Gt, "5"), Atom("x", Lt, "6")];
            AlternativeTyped(rd, ALL_BYTES, pair) && Overlooked(rd, ALL_BYTES, pair)
  {
    var pair := [Atom("x", Gt, "5"), Atom("x", Lt, "6")];
    assert AlternativeTyped(rd, ALL_BYTES, pair) && !HasContradiction(rd, pair);
    assert Adjacent(rd, pair, "x") by {
      assert pair[0] in pair && pair[1] in pair;
    }
    AdjacentCloses(rd, ALL_BYTES, pair, "x");
    ClosedAt(rd, ALL_BYTES, pair, "x");
  }

  /** `x <= 5 && x >= 5 && x != 5`: three atoms conflict although no two of them do. */
  lemma InequalityBreaksPairs(rd: Reading)
    requires ReadsGo(rd) && ReadsNumber(rd, "5", 5)
    ensures var trio := [Atom("x", Le, "5"), Atom("x", Ge, "5"), Atom("x", Neq, "5")];
            AlternativeTyped(rd, ALL_BYTES, trio) && Overlooked(rd, ALL_BYTES, trio)
  {
    var trio := [Atom("x", Le, "5"), Atom("x", Ge, "5"), Atom("x", Neq, "5")];
    assert AlternativeTyped(rd, ALL_BYTES, trio) && !HasContradiction(rd, trio);
    assert trio[0] in trio && trio[1] in trio && trio[2] in trio;
    forall x | Member(rd, ALL_BYTES("x"), x)
      ensures !Meets(rd, trio[0], x) || !Meets(rd, trio[1], x) || !Meets(rd, trio[2], x)
    {
    }
    hide Meets, Member, AlternativeTyped, HasContradiction;
    assert !Open(rd, ALL_BYTES, trio, "x");
    ClosedAt(rd, ALL_BYTES, trio, "x");
  }

  /** `x == 16 && x != 0x10`: one number in two spellings. */
  lemma RespelledInequalityOverlooked(rd: Reading)
    requires ReadsGo(rd) && ReadsNumber(rd, "16", 16) && ReadsNumber(rd, "0x10", 16)
    ensures var pair := [Atom("x", Eq, "16"), Atom("x", Neq, "0x10")];
            AlternativeTyped(rd, ALL_BYTES, pair) && Overlooked(rd, ALL_BYTES, pair)
  {
    var pair := [Atom("x", Eq, "16"), Atom("x", Neq, "0x10")];
    assert |"16"| == 2 && |"0x10"| == 4;
    assert RefusedBy(rd, pair, "x", pair[0], pair[1]);
    assert Refused(rd, pair, "x");
  }

  /** `b != true && b != false`: nothing is left of the two booleans. */
  lemma NoBooleanOverlooked(rd: Reading)
    requires ReadsGo(rd) && rd.number("true").None? && rd.number("false").None?
    ensures var pair := [Atom("b", Neq, "true"), Atom("b", Neq, "false")];
            AlternativeTyped(rd, ALL_BOOLEANS, pair) && Overlooked(rd, ALL_BOOLEANS, pair)
  {
    var pair := [Atom("b", Neq, "true"), Atom("b", Neq, "false")];
    assert pair[0] in pair && pair[1] in pair;
    assert AlternativeTyped(rd, ALL_BOOLEANS, pair) && !HasContradiction(rd, pair);
    BooleansDecided(rd, ALL_BOOLEANS, pair, "b");
    ClosedAt(rd, ALL_BOOLEANS, pair, "b");
  }

  /** `s == "b" && s < "a"`: strings are not compared by order. */
  lemma StringOrderOverlooked(rd: Reading)
    requires ReadsGo(rd) && rd.denote("\"a\"") == Sym("a") && rd.denote("\"b\"") == Sym("b")
    requires rd.number("\"a\"").None? && rd.number("\"b\"").None?
    ensures var pair := [Atom("s", Eq, "\"b\""), Atom("s", Lt, "\"a\"")];
            AlternativeTyped(rd, ALL_STRINGS, pair) && Overlooked(rd, ALL_STRINGS, pair)
  {
    var pair := [Atom("s", Eq, "\"b\""), Atom("s", Lt, "\"a\"")];
    TextOrder(rd, "b", "a");
    assert !Ordering.StringLeq("b", "a");
    assert RefusedBy(rd, pair, "s", pair[0], pair[1]);
    assert Refused(rd, pair, "s");
  }
}
