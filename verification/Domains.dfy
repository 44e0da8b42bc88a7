/**
 Which atoms on a subject of each supported type leave it a value: integers of a
 given range, booleans, strings and references. Exact, by a finite test.

 Integers and strings are lines on which every value has a next one: adding one,
 and appending the least character. From the least value that meets the lower
 bounds, more steps than there are atoms get past every inequality.
 */
module Domains {
  import opened Options
  import opened Constraints
  import opened Evidence
  import Ordering

  datatype Kind = Integer(least: int, greatest: int) | Text | Boolean | Reference

  type Kinds = string -> Kind

  const NIL := "<nil>"

  // ---------------------------------------------------------------- values of a kind

  predicate Integral(x: Value) {
    x.Num? && x.number == x.number.Floor as real
  }

  /** The line a kind lies on; an integer type is an interval of it. */
  predicate OnLine(kind: Kind, x: Value) {
    match kind
    case Integer(_, _) => Integral(x)
    case Text => x.Sym?
    case Boolean => false
    case Reference => false
  }

  predicate Member(rd: Reading, kind: Kind, x: Value) {
    match kind
    case Integer(least, greatest) => Integral(x) && least <= x.number.Floor <= greatest
    case Text => x.Sym?
    case Boolean => x == Denote(rd, "true") || x == Denote(rd, "false")
    case Reference => true
  }

  /** Strings are ordered character by character, and true is not false. */
  ghost predicate ReadsGo(rd: Reading) {
    && (forall s, t :: rd.less(s, t) <==> s != t && Ordering.StringLeq(s, t))
    && Denote(rd, "true") != Denote(rd, "false")
  }

  /** Go's typing of an atom: a constant of the subject's type, in range, and an operator the type has. */
  predicate AtomTyped(rd: Reading, kind: Kind, a: Atom) {
    && a.subject != "" && a.value != ""
    && Member(rd, kind, Denote(rd, a.value))
    && (!kind.Integer? ==> rd.number(a.value).None?)
    && (kind.Boolean? || kind.Reference? ==> a.op == Eq || a.op == Neq)
    && (kind.Reference? ==> a.value == NIL)
  }

  ghost predicate AlternativeTyped(rd: Reading, kinds: Kinds, x: Alternative) {
    && ReadsGo(rd)
    && (forall a :: a in x ==> AtomTyped(rd, kinds(a.subject), a))
    && (forall s :: kinds(s).Integer? ==> kinds(s).least <= kinds(s).greatest)
  }

  /** A valuation of Go values: each subject has a value of its type. */
  ghost predicate Inhabits(rd: Reading, kinds: Kinds, v: Valuation) {
    forall s :: Member(rd, kinds(s), v(s))
  }

  ghost predicate Solvable(rd: Reading, kinds: Kinds, x: Alternative) {
    exists v :: Inhabits(rd, kinds, v) && HoldsAll(rd, v, x)
  }

  predicate Meets(rd: Reading, a: Atom, x: Value) {
    Compare(rd, a.op, x, Denote(rd, a.value))
  }

  predicate MeetsAll(rd: Reading, alternative: Alternative, s: string, x: Value) {
    forall a :: a in alternative && a.subject == s ==> Meets(rd, a, x)
  }

  /** Some value of its type meets every atom on the subject. */
  ghost predicate Open(rd: Reading, kinds: Kinds, alternative: Alternative, s: string) {
    exists x :: Member(rd, kinds(s), x) && MeetsAll(rd, alternative, s, x)
  }

  // ---------------------------------------------------------------- steps along a line

  function Zeros(n: nat): (z: string)
    ensures |z| == n && forall i :: 0 <= i < n ==> z[i] == '\0'
  {
    seq(n, _ => '\0')
  }

  /** `n` steps on from a value. */
  function Nth(x: Value, n: nat): Value {
    match x
    case Num(number) => Num(number + n as real)
    case Sym(text) => Sym(text + Zeros(n))
  }

  predicate AtMost(rd: Reading, x: Value, y: Value) {
    !Less(rd, y, x)
  }

  function Bottom(kind: Kind): Value {
    if kind.Integer? then Num(kind.least as real) else Sym("")
  }

  /** The least value that meets a lower bound. */
  function LeastMeeting(rd: Reading, a: Atom): Value {
    if a.op == Gt then Nth(Denote(rd, a.value), 1) else Denote(rd, a.value)
  }

  /** The least value of the type's line that meets every lower bound on the subject. */
  function Lowest(rd: Reading, kind: Kind, alternative: Alternative, s: string): Value {
    if alternative == [] then Bottom(kind)
    else
      var a := alternative[0];
      var rest := Lowest(rd, kind, alternative[1..], s);
      if a.subject == s && IsLower(a) && Less(rd, rest, LeastMeeting(rd, a)) then LeastMeeting(rd, a) else rest
  }

  // ---------------------------------------------------------------- the finite test

  /** The value is of the type, and neither an upper bound nor an inequality excludes it. */
  predicate Left(rd: Reading, kind: Kind, alternative: Alternative, s: string, x: Value) {
    && Member(rd, kind, x)
    && forall a :: a in alternative && a.subject == s && (IsUpper(a) || a.op == Neq) ==> Meets(rd, a, x)
  }

  predicate HasEquality(alternative: Alternative, s: string) {
    exists e :: e in alternative && e.subject == s && e.op == Eq
  }

  /** An equality names a value that some atom on its subject refuses. */
  predicate RefusedBy(rd: Reading, alternative: Alternative, s: string, e: Atom, a: Atom) {
    e in alternative && a in alternative && e.subject == a.subject == s && e.op == Eq
      && !Meets(rd, a, Denote(rd, e.value))
  }

  ghost predicate Refused(rd: Reading, alternative: Alternative, s: string) {
    exists e, a :: RefusedBy(rd, alternative, s, e, a)
  }

  /**
   Without an equality: from the lowest value on, as many values as there are atoms and
   one more are all excluded, or both booleans are.
   */
  ghost predicate Exhausted(rd: Reading, kinds: Kinds, alternative: Alternative, s: string)
  {
    && !HasEquality(alternative, s)
    && match kinds(s)
       case Reference => false
       case Boolean =>
         && !Left(rd, Boolean, alternative, s, Denote(rd, "true"))
         && !Left(rd, Boolean, alternative, s, Denote(rd, "false"))
       case kind =>
         forall i: nat :: i <= |alternative| ==>
           !Left(rd, kind, alternative, s, Nth(Lowest(rd, kind, alternative, s), i))
  }

  // ---------------------------------------------------------------- the order of strings

  predicate StringLess(s: string, t: string) {
    s != t && Ordering.StringLeq(s, t)
  }

  lemma {:induction false} SameStart(p: string, s: string, t: string)
    ensures Ordering.StringLeq(p + s, p + t) <==> Ordering.StringLeq(s, t)
    decreases |p|
  {
    if p == [] {
      assert p + s == s && p + t == t;
    } else {
      SameStart(p[1..], s, t);
      assert (p + s)[1..] == p[1..] + s && (p + t)[1..] == p[1..] + t;
    }
  }

  lemma FirstString(x: string)
    ensures Ordering.StringLeq(Zeros(1), x) <==> x != []
  {
    var z := Zeros(1);
    if x != [] {
      assert z[0] <= x[0] && z[1..] == [];
      assert Ordering.LexLeq(Ordering.CharLeq, z[1..], x[1..]);
      assert Ordering.CharLeq(z[0], x[0]);
    }
  }

  /** Appending the least character gives the next string. */
  lemma {:induction false} NextString(c: string, x: string)
    ensures Ordering.StringLeq(c + Zeros(1), x) <==> StringLess(c, x)
    decreases |c|
  {
    var next := c + Zeros(1);
    if c == [] {
      FirstString(x);
      assert next == Zeros(1);
    } else if x != [] {
      NextString(c[1..], x[1..]);
      assert next[0] == c[0] && next[1..] == c[1..] + Zeros(1);
      assert c == [c[0]] + c[1..] && x == [x[0]] + x[1..];
    }
  }

  lemma {:induction false} ZerosFirst(x: string, n: nat)
    ensures (exists j: nat :: j <= n && x == Zeros(j)) || StringLess(Zeros(n), x)
    decreases n
  {
    if n == 0 {
      if x == [] {
        assert x == Zeros(0);
      }
    } else if x == [] {
      assert x == Zeros(0);
    } else {
      ZerosFirst(x[1..], n - 1);
      assert Zeros(n)[1..] == Zeros(n - 1) && x == [x[0]] + x[1..];
      if x[0] == '\0' {
        if j: nat :| j <= n - 1 && x[1..] == Zeros(j) {
          assert x == Zeros(j + 1);
        }
      }
    }
  }

  /** A string from `l` on is a few steps away, or beyond all of them. */
  lemma {:induction false} StepsFrom(l: string, x: string, n: nat)
    requires Ordering.StringLeq(l, x)
    ensures (exists j: nat :: j <= n && x == l + Zeros(j)) || StringLess(l + Zeros(n), x)
    decreases |l|
  {
    if l == [] {
      ZerosFirst(x, n);
      assert forall j: nat :: l + Zeros(j) == Zeros(j);
    } else {
      assert l == [l[0]] + l[1..] && x == [x[0]] + x[1..];
      assert (l + Zeros(n))[1..] == l[1..] + Zeros(n);
      if l[0] == x[0] {
        StepsFrom(l[1..], x[1..], n);
        if j: nat :| j <= n && x[1..] == l[1..] + Zeros(j) {
          assert x == l + Zeros(j);
        }
      }
    }
  }

  // ---------------------------------------------------------------- the order of a line

  lemma TextOrder(rd: Reading, s: string, t: string)
    requires ReadsGo(rd)
    ensures AtMost(rd, Sym(s), Sym(t)) <==> Ordering.StringLeq(s, t)
    ensures Less(rd, Sym(s), Sym(t)) <==> StringLess(s, t)
  {
    Ordering.StringLeqIsTotalOrder();
    assert Ordering.StringLeq(s, t) || Ordering.StringLeq(t, s);
    assert Ordering.StringLeq(s, s);
  }

  lemma AtMostTransitive(rd: Reading, kind: Kind, x: Value, y: Value, z: Value)
    requires ReadsGo(rd) && OnLine(kind, x) && OnLine(kind, y) && OnLine(kind, z)
    requires AtMost(rd, x, y) && AtMost(rd, y, z)
    ensures AtMost(rd, x, z)
    ensures Less(rd, x, y) || Less(rd, y, z) ==> Less(rd, x, z)
  {
    if kind.Text? {
      TextOrder(rd, x.text, y.text);
      TextOrder(rd, y.text, z.text);
      TextOrder(rd, x.text, z.text);
      TextOrder(rd, z.text, x.text);
      Ordering.StringLeqIsTotalOrder();
      assert Ordering.StringLeq(x.text, z.text);
    }
  }

  lemma LessIsAtMost(rd: Reading, kind: Kind, x: Value, y: Value)
    requires ReadsGo(rd) && OnLine(kind, x) && OnLine(kind, y)
    ensures Less(rd, x, y) ==> AtMost(rd, x, y)
  {
    if kind.Text? {
      TextOrder(rd, x.text, y.text);
    }
  }

  lemma NextInteger(c: real, x: real)
    requires c == c.Floor as real && x == x.Floor as real
    ensures (c + 1.0) == (c + 1.0).Floor as real
    ensures c < x <==> c + 1.0 <= x
  {
    assert (c + 1.0).Floor == c.Floor + 1;
    assert c < x ==> c.Floor + 1 <= x.Floor;
  }

  /** Beyond a value is from the next one on. */
  lemma NextLeast(rd: Reading, kind: Kind, c: Value, x: Value)
    requires ReadsGo(rd) && OnLine(kind, c) && OnLine(kind, x)
    ensures OnLine(kind, Nth(c, 1))
    ensures Less(rd, c, x) <==> AtMost(rd, Nth(c, 1), x)
    ensures AtMost(rd, Nth(c, 1), x) ==> AtMost(rd, c, x)
  {
    hide Zeros, StringLess, Ordering.StringLeq, ReadsGo;
    if kind.Text? {
      LessIsAtMost(rd, kind, c, x);
      NextString(c.text, x.text);
      TextOrder(rd, c.text, x.text);
      TextOrder(rd, c.text + Zeros(1), x.text);
    } else {
      NextInteger(c.number, x.number);
    }
  }

  lemma StepsGrow(rd: Reading, kind: Kind, l: Value, i: nat, j: nat)
    requires ReadsGo(rd) && OnLine(kind, l)
    ensures OnLine(kind, Nth(l, i)) && AtMost(rd, l, Nth(l, i))
    ensures i < j ==> Less(rd, Nth(l, i), Nth(l, j)) && Nth(l, i) != Nth(l, j)
  {
    if kind.Text? {
      var t := l.text;
      assert t == t + Zeros(0);
      SameStart(t, Zeros(0), Zeros(i));
      assert Zeros(0) == [];
      TextOrder(rd, t, t + Zeros(i));
      if i < j {
        ZerosFirst(Zeros(j), i);
        assert forall k: nat :: Zeros(j) == Zeros(k) ==> |Zeros(j)| == |Zeros(k)|;
        SameStart(t, Zeros(i), Zeros(j));
        TextOrder(rd, t + Zeros(i), t + Zeros(j));
        assert |t + Zeros(i)| < |t + Zeros(j)|;
      }
    } else {
      assert (l.number + i as real).Floor == l.number.Floor + i;
    }
  }

  /** A value from `l` on is at most `n` steps away, or beyond them all. */
  lemma StepsReach(rd: Reading, kind: Kind, l: Value, x: Value, n: nat)
    requires ReadsGo(rd) && OnLine(kind, l) && OnLine(kind, x) && AtMost(rd, l, x)
    ensures (exists j: nat :: j <= n && x == Nth(l, j)) || Less(rd, Nth(l, n), x)
  {
    if kind.Text? {
      TextOrder(rd, l.text, x.text);
      StepsFrom(l.text, x.text, n);
      TextOrder(rd, l.text + Zeros(n), x.text);
      if j: nat :| j <= n && x.text == l.text + Zeros(j) {
        assert x == Nth(l, j);
      }
    } else {
      var j := x.number.Floor - l.number.Floor;
      if j <= n {
        assert x == Nth(l, j);
      }
    }
  }

  /** From the lowest value on, and only there, every lower bound is met. */
  lemma {:induction false} LowestMeets(rd: Reading, kind: Kind, alternative: Alternative, s: string, x: Value)
    requires ReadsGo(rd) && OnLine(kind, x) && AtMost(rd, Bottom(kind), x)
    requires forall a :: a in alternative && a.subject == s ==> OnLine(kind, Denote(rd, a.value))
    ensures OnLine(kind, Lowest(rd, kind, alternative, s)) && AtMost(rd, Bottom(kind), Lowest(rd, kind, alternative, s))
    ensures AtMost(rd, Lowest(rd, kind, alternative, s), x) <==>
            forall a :: a in alternative && a.subject == s && IsLower(a) ==> Meets(rd, a, x)
    decreases |alternative|
  {
    if alternative == [] {
      StepsGrow(rd, kind, Bottom(kind), 0, 0);
    } else {
      var a, rest := alternative[0], alternative[1..];
      LowestMeets(rd, kind, rest, s, x);
      assert forall b :: b in alternative <==> b == a || b in rest;
      if a.subject == s && IsLower(a) {
        var c, l := Denote(rd, a.value), Lowest(rd, kind, rest, s);
        NextLeast(rd, kind, c, x);
        RaisedBound(rd, kind, Bottom(kind), l, LeastMeeting(rd, a), x);
      }
    }
  }

  /** The higher of two values is below exactly what both are below. */
  lemma RaisedBound(rd: Reading, kind: Kind, bottom: Value, l: Value, m: Value, x: Value)
    requires ReadsGo(rd) && OnLine(kind, bottom) && OnLine(kind, l) && OnLine(kind, m) && OnLine(kind, x)
    requires AtMost(rd, bottom, l)
    ensures var h := if Less(rd, l, m) then m else l;
            AtMost(rd, bottom, h) && (AtMost(rd, h, x) <==> AtMost(rd, l, x) && AtMost(rd, m, x))
  {
    LessIsAtMost(rd, kind, l, m);
    if AtMost(rd, l, m) {
      AtMostTransitive(rd, kind, bottom, l, m);
      if AtMost(rd, m, x) {
        AtMostTransitive(rd, kind, l, m, x);
      }
    }
    if AtMost(rd, m, l) && AtMost(rd, l, x) {
      AtMostTransitive(rd, kind, m, l, x);
    }
  }

  // ---------------------------------------------------------------- the test is exact

  /** The first `n` values from `l` on. */
  ghost function Steps(l: Value, n: nat): set<Value> {
    set i: nat | i < n :: Nth(l, i)
  }

  lemma {:induction false} StepsCount(rd: Reading, kind: Kind, l: Value, n: nat)
    requires ReadsGo(rd) && OnLine(kind, l)
    ensures |Steps(l, n)| == n
  {
    hide Less, ReadsGo, Nth, OnLine;
    if n == 0 {
      assert Steps(l, n) == {};
    } else {
      StepsCount(rd, kind, l, n - 1);
      assert Steps(l, n) == Steps(l, n - 1) + {Nth(l, n - 1)};
      forall i: nat | i < n - 1
        ensures Nth(l, i) != Nth(l, n - 1)
      {
        StepsGrow(rd, kind, l, i, n - 1);
      }
    }
  }

  /** Of more values than there are atoms, one is excluded by no inequality. */
  lemma {:induction false} Spared(rd: Reading, alternative: Alternative, s: string, xs: set<Value>) returns (y: Value)
    requires |xs| > |alternative|
    ensures y in xs && forall n :: n in alternative && n.subject == s && n.op == Neq ==> y != Denote(rd, n.value)
    decreases |alternative|
  {
    if alternative == [] {
      y :| y in xs;
    } else {
      var a, rest := alternative[0], alternative[1..];
      assert forall n :: n in alternative ==> n == a || n in rest;
      y := Spared(rd, rest, s, xs - {Denote(rd, a.value)});
    }
  }

  lemma BottomLeast(rd: Reading, kind: Kind, x: Value)
    requires ReadsGo(rd) && (kind.Integer? || kind.Text?) && Member(rd, kind, x)
    ensures OnLine(kind, x) && OnLine(kind, Bottom(kind)) && AtMost(rd, Bottom(kind), x)
  {
    if kind.Text? {
      TextOrder(rd, "", x.text);
    }
  }

  /**
   What is below a value of the type, and not below its line's lowest, is left if only
   inequalities could exclude it.
   */
  lemma LeftBelow(rd: Reading, kind: Kind, alternative: Alternative, s: string, x: Value, y: Value)
    requires ReadsGo(rd) && (kind.Integer? || kind.Text?)
    requires Member(rd, kind, x) && OnLine(kind, y) && AtMost(rd, Bottom(kind), y) && AtMost(rd, y, x)
    requires forall a :: a in alternative && a.subject == s ==> OnLine(kind, Denote(rd, a.value))
    requires MeetsAll(rd, alternative, s, x)
    requires forall n :: n in alternative && n.subject == s && n.op == Neq ==> y != Denote(rd, n.value)
    ensures Left(rd, kind, alternative, s, y)
  {
    BottomLeast(rd, kind, x);
    forall a | a in alternative && a.subject == s && (IsUpper(a) || a.op == Neq)
      ensures Meets(rd, a, y)
    {
      var c := Denote(rd, a.value);
      if a.op == Le {
        AtMostTransitive(rd, kind, y, x, c);
      } else if a.op == Lt {
        LessIsAtMost(rd, kind, x, c);
        AtMostTransitive(rd, kind, y, x, c);
      }
    }
    assert kind.Integer? ==> y.number.Floor <= x.number.Floor;
  }

  /** Some value from the lowest on, within as many steps as there are atoms, is left. */
  ghost predicate LeftWithin(rd: Reading, kind: Kind, alternative: Alternative, s: string) {
    exists i: nat :: i <= |alternative| && Left(rd, kind, alternative, s, Nth(Lowest(rd, kind, alternative, s), i))
  }

  lemma LeftIsOpen(rd: Reading, kinds: Kinds, alternative: Alternative, s: string, i: nat)
    requires AlternativeTyped(rd, kinds, alternative) && (kinds(s).Integer? || kinds(s).Text?)
    requires !HasEquality(alternative, s)
    requires Left(rd, kinds(s), alternative, s, Nth(Lowest(rd, kinds(s), alternative, s), i))
    ensures Open(rd, kinds, alternative, s)
  {
    var kind := kinds(s);
    var l := Lowest(rd, kind, alternative, s);
    var x := Nth(l, i);
    BottomLeast(rd, kind, x);
    LowestMeets(rd, kind, alternative, s, x);
    StepsGrow(rd, kind, l, i, i);
    hide ReadsGo, Less, Lowest, Nth, Member;
    forall a | a in alternative && a.subject == s
      ensures Meets(rd, a, x)
    {
      assert IsLower(a) || IsUpper(a) || a.op == Neq;
    }
  }

  /** What fits is left itself, or everything within the steps is below it and one of that is left. */
  lemma OpenIsLeft(rd: Reading, kinds: Kinds, alternative: Alternative, s: string, x: Value)
    requires AlternativeTyped(rd, kinds, alternative) && (kinds(s).Integer? || kinds(s).Text?)
    requires Member(rd, kinds(s), x) && MeetsAll(rd, alternative, s, x)
    ensures LeftWithin(rd, kinds(s), alternative, s)
  {
    var kind, n := kinds(s), |alternative|;
    var l := Lowest(rd, kind, alternative, s);
    BottomLeast(rd, kind, x);
    LowestMeets(rd, kind, alternative, s, x);
    hide Lowest, Less;
    StepsReach(rd, kind, l, x, n);
    if j: nat :| j <= n && x == Nth(l, j) {
      assert Left(rd, kind, alternative, s, Nth(l, j));
    } else {
      StepsCount(rd, kind, l, n + 1);
      var y := Spared(rd, alternative, s, Steps(l, n + 1));
      var i: nat :| i < n + 1 && y == Nth(l, i);
      StepsGrow(rd, kind, l, i, n);
      StepsGrow(rd, kind, l, n, n);
      LessIsAtMost(rd, kind, Nth(l, n), x);
      LessIsAtMost(rd, kind, y, Nth(l, n));
      AtMostTransitive(rd, kind, Bottom(kind), l, y);
      if i < n {
        AtMostTransitive(rd, kind, y, Nth(l, n), x);
      }
      LeftBelow(rd, kind, alternative, s, x, y);
    }
  }

  lemma OpenWithEquality(rd: Reading, kinds: Kinds, alternative: Alternative, s: string)
    requires AlternativeTyped(rd, kinds, alternative) && HasEquality(alternative, s)
    ensures Open(rd, kinds, alternative, s) <==> !Refused(rd, alternative, s)
  {
    hide Less;
    if Open(rd, kinds, alternative, s) {
      var x :| Member(rd, kinds(s), x) && MeetsAll(rd, alternative, s, x);
      forall e, a
        ensures !RefusedBy(rd, alternative, s, e, a)
      {
        assert e in alternative && e.subject == s && e.op == Eq ==> Meets(rd, e, x);
      }
    }
    if !Refused(rd, alternative, s) {
      var e :| e in alternative && e.subject == s && e.op == Eq;
      forall a | a in alternative && a.subject == s
        ensures Meets(rd, a, Denote(rd, e.value))
      {
        assert !RefusedBy(rd, alternative, s, e, a);
      }
    }
  }

  /** A subject has a value exactly when no equality on it is refused and its values are not exhausted. */
  lemma SubjectDecided(rd: Reading, kinds: Kinds, alternative: Alternative, s: string)
    requires AlternativeTyped(rd, kinds, alternative)
    ensures Open(rd, kinds, alternative, s) <==>
            !Refused(rd, alternative, s) && !Exhausted(rd, kinds, alternative, s)
  {
    if HasEquality(alternative, s) {
      OpenWithEquality(rd, kinds, alternative, s);
    } else {
      match kinds(s)
      case Reference =>
        var x := if Denote(rd, NIL) == Num(0.0) then Num(1.0) else Num(0.0);
        assert MeetsAll(rd, alternative, s, x);
      case Boolean =>
        hide Less;
        assert forall x :: Member(rd, Boolean, x) ==>
                           (Left(rd, Boolean, alternative, s, x) <==> MeetsAll(rd, alternative, s, x));
      case _ => LineDecided(rd, kinds, alternative, s);
    }
  }

  lemma LineDecided(rd: Reading, kinds: Kinds, alternative: Alternative, s: string)
    requires AlternativeTyped(rd, kinds, alternative) && (kinds(s).Integer? || kinds(s).Text?)
    requires !HasEquality(alternative, s)
    ensures Open(rd, kinds, alternative, s) <==> LeftWithin(rd, kinds(s), alternative, s)
  {
    hide Left, MeetsAll, Member, Lowest, Nth, AlternativeTyped;
    if Open(rd, kinds, alternative, s) {
      var x :| Member(rd, kinds(s), x) && MeetsAll(rd, alternative, s, x);
      OpenIsLeft(rd, kinds, alternative, s, x);
    }
    if i: nat :| i <= |alternative|
                 && Left(rd, kinds(s), alternative, s, Nth(Lowest(rd, kinds(s), alternative, s), i)) {
      LeftIsOpen(rd, kinds, alternative, s, i);
    }
  }

  ghost predicate Closed(rd: Reading, kinds: Kinds, alternative: Alternative) {
    exists s :: Refused(rd, alternative, s) || Exhausted(rd, kinds, alternative, s)
  }

  ghost function ValueFor(rd: Reading, kinds: Kinds, alternative: Alternative, s: string): (x: Value)
    requires Open(rd, kinds, alternative, s)
    ensures Member(rd, kinds(s), x) && MeetsAll(rd, alternative, s, x)
  {
    var x :| Member(rd, kinds(s), x) && MeetsAll(rd, alternative, s, x);
    x
  }

  /**
   No Go values satisfy the atoms exactly when some subject fails the finite test: for
   every operator, integers of any range, booleans, strings and references together.
   */
  lemma AlternativeDecided(rd: Reading, kinds: Kinds, alternative: Alternative)
    requires AlternativeTyped(rd, kinds, alternative)
    ensures !Solvable(rd, kinds, alternative) <==> Closed(rd, kinds, alternative)
  {
    hide Refused, Exhausted, AlternativeTyped, Compare;
    if Solvable(rd, kinds, alternative) {
      var v :| Inhabits(rd, kinds, v) && HoldsAll(rd, v, alternative);
      forall s
        ensures !Refused(rd, alternative, s) && !Exhausted(rd, kinds, alternative, s)
      {
        assert MeetsAll(rd, alternative, s, v(s)) by {
          forall a | a in alternative && a.subject == s
            ensures Meets(rd, a, v(s))
          {
            assert HoldsAtom(rd, v, a);
          }
        }
        SubjectDecided(rd, kinds, alternative, s);
      }
    }
    if !Closed(rd, kinds, alternative) {
      forall s
        ensures Open(rd, kinds, alternative, s)
      {
        SubjectDecided(rd, kinds, alternative, s);
      }
      var v: Valuation := s => ValueFor(rd, kinds, alternative, s);
      forall a | a in alternative
        ensures HoldsAtom(rd, v, a)
      {
        assert Meets(rd, a, v(a.subject));
      }
      assert Inhabits(rd, kinds, v) && HoldsAll(rd, v, alternative);
    }
  }
}
