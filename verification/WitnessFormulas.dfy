/**
 The formula of a witness: the mandatory prefix of its origin and the predicates
 written on its edges.
 */
module WitnessFormulas {
  import opened Options
  import opened Supergraph
  import opened Constraints
  import Conditions

  /**
   How block paths and provenance texts are turned into formulas: `prefix` for the
   origin of a path, `suffix` for the path itself, `decode` for one text.
   */
  datatype Extraction = Extraction(prefix: seq<int> -> Formula, suffix: seq<int> -> Formula, decode: string -> Formula)

  /** What is asked about: where the fact arose, the block path, and the steps. */
  datatype Record = Record(origin: seq<int>, path: seq<int>, trail: Witness)

  function OriginPath(r: Record): seq<int> {
    if r.origin != [] then r.origin else r.path
  }

  function FoldTexts(decode: string -> Formula, start: Formula, texts: seq<string>): Formula {
    if texts == [] then start
    else AndFormula(FoldTexts(decode, start, texts[..|texts| - 1]), decode(texts[|texts| - 1]))
  }

  function FoldTrail(decode: string -> Formula, trail: Witness): Formula {
    if trail == [] then TRUE_FORMULA
    else FoldTexts(decode, FoldTrail(decode, trail[..|trail| - 1]), trail[|trail| - 1].edge.predicates)
  }

  function FormulaOf(x: Extraction, r: Record): Formula {
    var prefix := x.prefix(OriginPath(r));
    if r.trail == [] then AndFormula(prefix, x.suffix(r.path))
    else AndFormula(prefix, Normalize(FoldTrail(x.decode, r.trail)))
  }

  method ExtractFormula(x: Extraction, r: Record) returns (f: Formula)
    ensures f == FormulaOf(x, r)
  {
    var prefix := x.prefix(OriginPath(r));
    if |r.trail| == 0 {
      f := Conjoin(prefix, x.suffix(r.path));
      return;
    }
    f := TRUE_FORMULA;
    var i := 0;
    while i < |r.trail|
      invariant 0 <= i <= |r.trail| && f == FoldTrail(x.decode, r.trail[..i])
    {
      var texts := r.trail[i].edge.predicates;
      ghost var start := f;
      var j := 0;
      while j < |texts|
        invariant 0 <= j <= |texts| && f == FoldTexts(x.decode, start, texts[..j])
      {
        assert texts[..j + 1][..j] == texts[..j];
        f := Conjoin(f, x.decode(texts[j]));
        j := j + 1;
      }
      assert texts[..j] == texts;
      assert r.trail[..i + 1][..i] == r.trail[..i];
      i := i + 1;
    }
    assert r.trail[..i] == r.trail;
    f := Conjoin(prefix, Normalize(f));
  }

  // ---------------------------------------------------------------- what the formula means

  /** The valuation satisfies every one of these texts. */
  ghost predicate SatisfiesTexts(rd: Reading, v: Valuation, decode: string -> Formula, texts: set<string>) {
    forall p :: p in texts ==> Holds(rd, v, decode(p))
  }

  function TextSet(texts: seq<string>): set<string> {
    set p | p in texts
  }

  /** `f` holds wherever `meaning` does, and nowhere else unless marked. */
  predicate StandsFor(rd: Reading, v: Valuation, f: Formula, meaning: bool) {
    (meaning ==> Holds(rd, v, f)) && (!f.unsupported && Holds(rd, v, f) ==> meaning)
  }

  lemma AndStandsFor(rd: Reading, v: Valuation, f: Formula, g: Formula, fMeans: bool, gMeans: bool)
    requires StandsFor(rd, v, f, fMeans) && StandsFor(rd, v, g, gMeans)
    ensures StandsFor(rd, v, AndFormula(f, g), fMeans && gMeans)
  {
    AndMeaning(rd, v, f, g);
  }

  lemma {:induction false} TextsStandFor(rd: Reading, v: Valuation, decode: string -> Formula, start: Formula,
                                         means: bool, texts: seq<string>)
    requires StandsFor(rd, v, start, means)
    ensures StandsFor(rd, v, FoldTexts(decode, start, texts), means && SatisfiesTexts(rd, v, decode, TextSet(texts)))
    decreases |texts|
  {
    if texts != [] {
      var k := |texts| - 1;
      TextsStandFor(rd, v, decode, start, means, texts[..k]);
      assert texts == texts[..k] + [texts[k]];
      assert TextSet(texts) == TextSet(texts[..k]) + {texts[k]};
      AndStandsFor(rd, v, FoldTexts(decode, start, texts[..k]), decode(texts[k]),
                   means && SatisfiesTexts(rd, v, decode, TextSet(texts[..k])), Holds(rd, v, decode(texts[k])));
    }
  }

  lemma PredicatesOfLonger(trail: Witness)
    requires trail != []
    ensures Predicates(trail) == Predicates(trail[..|trail| - 1]) + TextSet(trail[|trail| - 1].edge.predicates)
  {
    var k := |trail| - 1;
    forall p
      ensures p in Predicates(trail) <==> p in Predicates(trail[..k]) || p in trail[k].edge.predicates
    {
      if p in Predicates(trail) {
        var i :| 0 <= i < |trail| && p in trail[i].edge.predicates;
        assert i < k ==> p in trail[..k][i].edge.predicates;
      }
      if p in Predicates(trail[..k]) {
        var i :| 0 <= i < k && p in trail[..k][i].edge.predicates;
        assert p in trail[i].edge.predicates;
      }
    }
  }

  lemma {:induction false} TrailStandsFor(rd: Reading, v: Valuation, decode: string -> Formula, trail: Witness)
    ensures StandsFor(rd, v, FoldTrail(decode, trail), SatisfiesTexts(rd, v, decode, Predicates(trail)))
    decreases |trail|
  {
    Conditions.TrivialMeaning(rd, v);
    if trail != [] {
      var k := |trail| - 1;
      TrailStandsFor(rd, v, decode, trail[..k]);
      PredicatesOfLonger(trail);
      TextsStandFor(rd, v, decode, FoldTrail(decode, trail[..k]), SatisfiesTexts(rd, v, decode, Predicates(trail[..k])),
                    trail[k].edge.predicates);
    }
  }

  ghost predicate SatisfiesRecord(rd: Reading, v: Valuation, x: Extraction, r: Record) {
    && (r.origin != [] ==> Holds(rd, v, x.prefix(r.origin)))
    && (r.origin == [] ==> Holds(rd, v, x.prefix(r.path)))
    && (r.trail == [] ==> Holds(rd, v, x.suffix(r.path)))
    && SatisfiesTexts(rd, v, x.decode, Predicates(r.trail))
  }

  /** The formula of a witness holds wherever its prefix and all its predicates do; unmarked, nowhere else. */
  lemma FormulaMeaning(rd: Reading, v: Valuation, x: Extraction, r: Record)
    ensures SatisfiesRecord(rd, v, x, r) ==> Holds(rd, v, FormulaOf(x, r))
    ensures !FormulaOf(x, r).unsupported && Holds(rd, v, FormulaOf(x, r)) ==> SatisfiesRecord(rd, v, x, r)
  {
    var prefix := x.prefix(OriginPath(r));
    if r.trail == [] {
      AndMeaning(rd, v, prefix, x.suffix(r.path));
    } else {
      TrailStandsFor(rd, v, x.decode, r.trail);
      NormalizeMeaning(rd, v, FoldTrail(x.decode, r.trail));
      AndMeaning(rd, v, prefix, Normalize(FoldTrail(x.decode, r.trail)));
    }
  }

  // ---------------------------------------------------------------- when it is marked

  /** The formulas of some texts, in order. */
  function Decoded(decode: string -> Formula, texts: seq<string>): seq<Formula> {
    if texts == [] then [] else Decoded(decode, texts[..|texts| - 1]) + [decode(texts[|texts| - 1])]
  }

  /** The texts on the edges of a trail, in order. */
  function Written(trail: Witness): seq<string> {
    if trail == [] then [] else Written(trail[..|trail| - 1]) + trail[|trail| - 1].edge.predicates
  }

  lemma {:induction false} DecodedInTwo(decode: string -> Formula, first: seq<string>, second: seq<string>)
    ensures Decoded(decode, first + second) == Decoded(decode, first) + Decoded(decode, second)
  {
    var k := |second| - 1;
    if second == [] {
      assert first + second == first;
    } else {
      DecodedInTwo(decode, first, second[..k]);
      assert (first + second)[..|first + second| - 1] == first + second[..k];
    }
  }

  lemma {:induction false} TextsFolded(decode: string -> Formula, before: seq<Formula>, texts: seq<string>)
    ensures FoldTexts(decode, AndAll(before), texts) == AndAll(before + Decoded(decode, texts))
    decreases |texts|
  {
    hide AndFormula;
    if texts == [] {
      assert before + [] == before;
    } else {
      var k := |texts| - 1;
      TextsFolded(decode, before, texts[..k]);
      var parts := before + Decoded(decode, texts);
      assert parts[..|parts| - 1] == before + Decoded(decode, texts[..k]);
    }
  }

  lemma {:induction false} TrailFolded(decode: string -> Formula, trail: Witness)
    ensures FoldTrail(decode, trail) == AndAll(Decoded(decode, Written(trail)))
    decreases |trail|
  {
    if trail != [] {
      var k := |trail| - 1;
      hide AndFormula, AndAll;
      TrailFolded(decode, trail[..k]);
      TextsFolded(decode, Decoded(decode, Written(trail[..k])), trail[k].edge.predicates);
      DecodedInTwo(decode, Written(trail[..k]), trail[k].edge.predicates);
    }
  }

  /** A marked part marks the formula, as do too many alternatives, and nothing else does. */
  lemma FormulaMarked(x: Extraction, r: Record)
    ensures var prefix := x.prefix(OriginPath(r));
            FormulaOf(x, r).unsupported <==>
            || prefix.unsupported
            || (if r.trail == [] then
                  x.suffix(r.path).unsupported || |prefix.alternatives| * |x.suffix(r.path).alternatives| > 256
                else
                  var parts := Decoded(x.decode, Written(r.trail));
                  AnyMark(parts) || |prefix.alternatives| * CountAll(parts) > 256)
  {
    hide AnyMark, AndFormula, AndAll;
    var prefix := x.prefix(OriginPath(r));
    if r.trail == [] {
      AndMarked(prefix, x.suffix(r.path));
    } else {
      var parts := Decoded(x.decode, Written(r.trail));
      TrailFolded(x.decode, r.trail);
      AndAllMarked(parts);
      MarkNormalized(AndAll(parts));
      AndMarked(prefix, Normalize(AndAll(parts)));
    }
  }

  lemma MarkNormalized(f: Formula)
    ensures Normalize(f).unsupported == f.unsupported
    ensures |Normalize(f).alternatives| == |f.alternatives|
  {
    NormalizeMeaning(Reading(_ => None, text => Sym(text), (_, _) => false), _ => Sym(""), f);
  }
}
