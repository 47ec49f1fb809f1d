/** Regression formula synthesis (`generateRegressionFormula`): an intercept
    plus one `slope * factor` term per factor that has a main effect, written
    out as the transfer function the simulator evaluates. */
module Regression {
  import opened Wrappers
  import opened Doe
  import opened Text
  import opened MainEffects
  import opened Sorting

  /** One term: the factor, its slope and the mean of its settings over the
      valid runs (`None` is `NaN`: some valid run has no setting for it). */
  datatype Term = Term(name: string, slope: real, meanX: Option<real>)

  /** The fitted model; an intercept of `None` is `NaN`. */
  datatype LinearModel = LinearModel(intercept: Option<real>, terms: seq<Term>)

  /** `runs.reduce((s, r) => s + r.factors[name], 0)`: adding `undefined`
      gives `NaN`, which stays `NaN`. */
  function SumSetting(runs: seq<Run>, name: string): (r: Option<real>)
    ensures r.None? <==> exists x :: x in runs && name !in x.factors
  {
    if |runs| == 0 then Some(0.0)
    else
      var rest := SumSetting(runs[..|runs| - 1], name);
      var last := runs[|runs| - 1];
      assert runs == runs[..|runs| - 1] + [last];
      if rest.Some? && name in last.factors then Some(rest.value + last.factors[name]) else None
  }

  function MeanSetting(runs: seq<Run>, name: string): Option<real>
    requires |runs| > 0
  {
    match SumSetting(runs, name)
    case Some(s) => Some(s / |runs| as real)
    case None => None
  }

  /** `effects.find(e => e.name === name)`: the first entry with that name. */
  function FindEffect(effects: seq<MainEffect>, name: string): (r: Option<MainEffect>)
    ensures r.Some? ==> r.value in effects && r.value.name == name
    ensures r.None? ==> forall e :: e in effects ==> e.name != name
  {
    if |effects| == 0 then None
    else if effects[0].name == name then Some(effects[0])
    else FindEffect(effects[1..], name)
  }

  /** The term a factor contributes, if `effects` has an entry for its name. */
  function TermFor(effects: seq<MainEffect>, valid: seq<Run>, f: Factor): Option<Term>
    requires |valid| > 0
  {
    match FindEffect(effects, f.name)
    case Some(e) => Some(Term(f.name, e.slope, MeanSetting(valid, f.name)))
    case None => None
  }

  /** The terms in factor order. */
  function Terms(effects: seq<MainEffect>, valid: seq<Run>, factors: seq<Factor>): (r: seq<Term>)
    requires |valid| > 0
    ensures |r| <= |factors|
  {
    if |factors| == 0 then []
    else
      var rest := Terms(effects, valid, factors[..|factors| - 1]);
      match TermFor(effects, valid, factors[|factors| - 1])
      case Some(t) => rest + [t]
      case None => rest
  }

  /** `sumSlopeTimesMeanX`: `None` once any mean is `NaN`. */
  function Weighted(terms: seq<Term>): (r: Option<real>)
    ensures r.Some? <==> forall k :: 0 <= k < |terms| ==> terms[k].meanX.Some?
  {
    if |terms| == 0 then Some(0.0)
    else Accumulate(Weighted(terms[..|terms| - 1]), terms[|terms| - 1])
  }

  /** `sum += effect.slope * meanX`: `NaN` once the sum or the mean is. */
  function Accumulate(sum: Option<real>, t: Term): (r: Option<real>)
    ensures r.Some? <==> sum.Some? && t.meanX.Some?
  {
    if sum.Some? && t.meanX.Some? then Some(sum.value + t.slope * t.meanX.value) else None
  }

  /** The model the source fits, or `None` when no run has an output. */
  function Fit(runs: seq<Run>, factors: seq<Factor>): (r: Option<LinearModel>)
    ensures r.Some? <==> |ValidRuns(runs)| > 0
    ensures r.Some? ==> |r.value.terms| <= |factors|
    ensures r.Some? ==> (r.value.intercept.Some? <==> forall k :: 0 <= k < |r.value.terms| ==> r.value.terms[k].meanX.Some?)
  {
    var valid := ValidRuns(runs);
    if |valid| == 0 then None
    else
      var terms := Terms(Effects(valid, factors), valid, factors);
      Some(LinearModel(Intercept(MeanY(valid), Weighted(terms)), terms))
  }

  /** `meanY - sumSlopeTimesMeanX`, `NaN` when the sum is. */
  function Intercept(meanY: real, sum: Option<real>): Option<real> {
    match sum
    case Some(s) => Some(meanY - s)
    case None => None
  }

  /** `x.toFixed(4)`, with `NaN` written as `"NaN"`. */
  function Num(fmt: real -> string, x: Option<real>): string {
    match x
    case Some(v) => fmt(v)
    case None => "NaN"
  }

  /** `(${slope.toFixed(4)} * ${name})`. */
  function RenderTerm(fmt: real -> string, t: Term): string {
    "(" + fmt(t.slope) + " * " + t.name + ")"
  }

  function RenderedTerms(fmt: real -> string, terms: seq<Term>): (r: seq<string>)
    ensures |r| == |terms|
  {
    seq(|terms|, k requires 0 <= k < |terms| => RenderTerm(fmt, terms[k]))
  }

  /** The source's rendering: `${intercept} + ${parts.join(' + ')}`. */
  function RenderAsWritten(fmt: real -> string, m: LinearModel): string {
    Num(fmt, m.intercept) + " + " + Join(RenderedTerms(fmt, m.terms), " + ")
  }

  /** The rendering the formula syntax needs: the intercept and the terms,
      joined by `" + "`, so without a dangling operator when there are no terms. */
  function Render(fmt: real -> string, m: LinearModel): string {
    Join([Num(fmt, m.intercept)] + RenderedTerms(fmt, m.terms), " + ")
  }

  /** `generateRegressionFormula(runs, factors)` as written. */
  function RegressionFormula(fmt: real -> string, runs: seq<Run>, factors: seq<Factor>): (r: string)
    ensures |ValidRuns(runs)| == 0 ==> r == ""
    ensures |ValidRuns(runs)| > 0 ==> |r| >= 3
  {
    match Fit(runs, factors)
    case None => ""
    case Some(m) => RenderAsWritten(fmt, m)
  }

  /** `generateRegressionFormula` with the corrected rendering. */
  function RegressionFormulaFixed(fmt: real -> string, runs: seq<Run>, factors: seq<Factor>): string {
    match Fit(runs, factors)
    case None => ""
    case Some(m) => Render(fmt, m)
  }

  /** `generateRegressionFormula(runs, factors)`: the formula, and the factors
      as the inner `calculateEffects` call leaves them (levels sorted). */
  method GenerateRegressionFormula(fmt: real -> string, runs: seq<Run>, factors: seq<Factor>)
    returns (formula: string, factorsAfter: seq<Factor>)
    ensures formula == RegressionFormula(fmt, runs, factors)
    ensures factorsAfter == FactorsAfter(runs, factors)
  {
    var validRuns := ValidRuns(runs);
    if |validRuns| == 0 {
      return "", factors;
    }
    var effects;
    effects, factorsAfter := CalculateEffects(validRuns, factors);
    ValidRunsIdempotent(runs);
    var meanY := MeanY(validRuns);
    var sumSlopeTimesMeanX, terms, parts := AccumulateTerms(fmt, effects, validRuns, factors);
    var intercept := Intercept(meanY, sumSlopeTimesMeanX);
    formula := Num(fmt, intercept) + " + " + Join(parts, " + ");
    assert terms == Terms(Effects(validRuns, factors), validRuns, factors);
    assert Fit(runs, factors) == Some(LinearModel(intercept, terms));
  }

  /** The `forEach` over the factors: look up each factor's effect by name
      and, when there is one, add `slope * meanX` to the sum and push the
      rendered term. `terms` is the ghost record of what was pushed. */
  method AccumulateTerms(fmt: real -> string, effects: seq<MainEffect>, validRuns: seq<Run>, factors: seq<Factor>)
    returns (sumSlopeTimesMeanX: Option<real>, ghost terms: seq<Term>, parts: seq<string>)
    requires |validRuns| > 0
    ensures terms == Terms(effects, validRuns, factors)
    ensures sumSlopeTimesMeanX == Weighted(terms)
    ensures parts == RenderedTerms(fmt, terms)
  {
    sumSlopeTimesMeanX := Some(0.0);
    terms := [];
    parts := [];
    var i := 0;
    while i < |factors|
      invariant 0 <= i <= |factors|
      invariant terms == Terms(effects, validRuns, factors[..i])
      invariant sumSlopeTimesMeanX == Weighted(terms)
      invariant parts == RenderedTerms(fmt, terms)
    {
      var f := factors[i];
      TermsStep(effects, validRuns, factors, i);
      var effect := FindEffect(effects, f.name);
      if effect.Some? {
        var meanX := MeanSetting(validRuns, f.name);
        var t := Term(f.name, effect.value.slope, meanX);
        WeightedStep(terms, t);
        RenderedStep(fmt, terms, t);
        sumSlopeTimesMeanX := Accumulate(sumSlopeTimesMeanX, t);
        terms := terms + [t];
        parts := parts + ["(" + fmt(effect.value.slope) + " * " + f.name + ")"];
      }
      i := i + 1;
    }
    assert factors[..i] == factors;
  }

  lemma TermsStep(effects: seq<MainEffect>, valid: seq<Run>, factors: seq<Factor>, i: nat)
    requires |valid| > 0 && i < |factors|
    ensures Terms(effects, valid, factors[..i + 1]) ==
      match TermFor(effects, valid, factors[i])
      case Some(t) => Terms(effects, valid, factors[..i]) + [t]
      case None => Terms(effects, valid, factors[..i])
  {
    assert factors[..i + 1][..i] == factors[..i];
  }

  lemma WeightedStep(terms: seq<Term>, t: Term)
    ensures Weighted(terms + [t]) == Accumulate(Weighted(terms), t)
  {
    var all := terms + [t];
    assert all[..|all| - 1] == terms;
    assert all[|all| - 1] == t;
  }

  lemma RenderedStep(fmt: real -> string, terms: seq<Term>, t: Term)
    ensures RenderedTerms(fmt, terms + [t]) == RenderedTerms(fmt, terms) + [RenderTerm(fmt, t)]
  {
  }

  /** The formula is empty exactly when no run has an output, for the source's
      rendering and for the corrected one alike (`toFixed` never gives ""). */
  lemma FormulaEmptyIff(fmt: real -> string, runs: seq<Run>, factors: seq<Factor>)
    requires forall v :: fmt(v) != ""
    ensures RegressionFormula(fmt, runs, factors) == "" <==> |ValidRuns(runs)| == 0
    ensures RegressionFormulaFixed(fmt, runs, factors) == "" <==> |ValidRuns(runs)| == 0
  {
    match Fit(runs, factors)
    case None =>
    case Some(m) =>
      var parts := [Num(fmt, m.intercept)] + RenderedTerms(fmt, m.terms);
      assert Num(fmt, m.intercept) != "";
      JoinStartsWithFirst(parts, " + ");
  }

  lemma JoinStartsWithFirst(parts: seq<string>, sep: string)
    requires |parts| > 0
    ensures parts[0] <= Join(parts, sep)
  {
  }

  /** With distinct factor names, the entry `find` picks for a factor is that
      factor's own main effect. */
  lemma FindOwnEffect(valid: seq<Run>, factors: seq<Factor>, j: nat)
    requires |valid| > 0 && ValidRuns(valid) == valid
    requires DistinctNames(factors) && j < |factors|
    ensures FindEffect(Effects(valid, factors), factors[j].name) == FactorEffect(valid, factors[j])
  {
    var effects := Effects(valid, factors);
    var found := FindEffect(effects, factors[j].name);
    if found.Some? {
      var i := ReportedBy(valid, factors, found.value);
    }
    if FactorEffect(valid, factors[j]).Some? {
      ReportsFactor(valid, factors, j);
    }
  }

  /** A reported entry is the entry of some factor. */
  lemma ReportedBy(valid: seq<Run>, factors: seq<Factor>, e: MainEffect) returns (i: nat)
    requires |valid| > 0 && ValidRuns(valid) == valid
    requires e in Effects(valid, factors)
    ensures i < |factors| && FactorEffect(valid, factors[i]) == Some(e)
  {
    assert multiset(Effects(valid, factors)) == multiset(RawEffects(valid, factors));
    assert e in multiset(RawEffects(valid, factors));
    RawEffectsMember(valid, factors, e);
    i :| 0 <= i < |factors| && FactorEffect(valid, factors[i]) == Some(e);
  }

  /** Every factor's entry is reported. */
  lemma ReportsFactor(valid: seq<Run>, factors: seq<Factor>, j: nat)
    requires |valid| > 0 && ValidRuns(valid) == valid
    requires j < |factors| && FactorEffect(valid, factors[j]).Some?
    ensures FactorEffect(valid, factors[j]).value in Effects(valid, factors)
  {
    var e := FactorEffect(valid, factors[j]).value;
    RawEffectsMember(valid, factors, e);
    assert multiset(Effects(valid, factors)) == multiset(RawEffects(valid, factors));
    assert e in multiset(Effects(valid, factors));
  }

  /** The reference model: one term per factor with a main effect, in factor
      order, with that effect's slope. */
  function ReferenceTerms(valid: seq<Run>, factors: seq<Factor>): seq<Term>
    requires |valid| > 0
  {
    if |factors| == 0 then []
    else
      var rest := ReferenceTerms(valid, factors[..|factors| - 1]);
      var f := factors[|factors| - 1];
      match FactorEffect(valid, f)
      case Some(e) => rest + [Term(f.name, e.slope, MeanSetting(valid, f.name))]
      case None => rest
  }

  /** With distinct names, the terms are exactly the reference terms: one per
      reported factor, in factor order rather than effect order, with the
      factor's own slope. */
  lemma TermsAreReference(runs: seq<Run>, factors: seq<Factor>)
    requires DistinctNames(factors) && |ValidRuns(runs)| > 0
    ensures Fit(runs, factors).value.terms == ReferenceTerms(ValidRuns(runs), factors)
  {
    var valid := ValidRuns(runs);
    ValidRunsIdempotent(runs);
    TermsPrefix(valid, factors, |factors|);
    assert factors[..|factors|] == factors;
  }

  lemma {:induction false} TermsPrefix(valid: seq<Run>, factors: seq<Factor>, n: nat)
    requires |valid| > 0 && ValidRuns(valid) == valid
    requires DistinctNames(factors) && n <= |factors|
    ensures Terms(Effects(valid, factors), valid, factors[..n]) == ReferenceTerms(valid, factors[..n])
  {
    if n > 0 {
      TermsPrefix(valid, factors, n - 1);
      FindOwnEffect(valid, factors, n - 1);
      PrefixLast(factors, n);
      TermsStepOwn(Effects(valid, factors), valid, factors[..n]);
    }
  }

  /** One more factor whose looked-up effect is its own extends both term lists alike. */
  lemma TermsStepOwn(effects: seq<MainEffect>, valid: seq<Run>, fs: seq<Factor>)
    requires |valid| > 0 && |fs| > 0
    requires FindEffect(effects, fs[|fs| - 1].name) == FactorEffect(valid, fs[|fs| - 1])
    requires Terms(effects, valid, fs[..|fs| - 1]) == ReferenceTerms(valid, fs[..|fs| - 1])
    ensures Terms(effects, valid, fs) == ReferenceTerms(valid, fs)
  {
  }

  lemma PrefixLast(factors: seq<Factor>, n: nat)
    requires 0 < n <= |factors|
    ensures factors[..n][..n - 1] == factors[..n - 1] && factors[..n][n - 1] == factors[n - 1]
  {
  }

  /** The fitted plane passes through the centroid: at the mean settings it
      gives the mean output. The intercept is `NaN` exactly when some term's
      mean setting is. */
  lemma PassesThroughMeans(runs: seq<Run>, factors: seq<Factor>)
    requires |ValidRuns(runs)| > 0
    ensures var m := Fit(runs, factors).value;
      && (m.intercept.Some? <==> forall k :: 0 <= k < |m.terms| ==> m.terms[k].meanX.Some?)
      && (m.intercept.Some? ==> m.intercept.value + Weighted(m.terms).value == MeanY(ValidRuns(runs)))
  {
  }

  /** A mean setting is `NaN` exactly when some valid run lacks the factor. */
  lemma MeanSettingNaN(valid: seq<Run>, name: string)
    requires |valid| > 0
    ensures MeanSetting(valid, name).None? <==> exists x :: x in valid && name !in x.factors
  {
  }

  /** As written: with valid runs but no term, the formula ends in a dangling `" + "`. */
  lemma DanglingPlus(fmt: real -> string, runs: seq<Run>, factors: seq<Factor>)
    requires Fit(runs, factors).Some? && Fit(runs, factors).value.terms == []
    ensures RegressionFormula(fmt, runs, factors) == Num(fmt, Fit(runs, factors).value.intercept) + " + "
  {
  }

  /** A concrete instance: one factor A with levels 0 and 10, one run at 0
      with output 5 and one run at 10 without output. Only the low level has
      a valid run, so A has no effect and the formula is `"5.0000 + "`. */
  lemma DanglingPlusExample(fmt: real -> string)
    ensures RegressionFormula(fmt, ExampleRuns(), ExampleFactors()) == fmt(5.0) + " + "
  {
    ExampleFit();
    DanglingPlus(fmt, ExampleRuns(), ExampleFactors());
  }

  function ExampleRuns(): seq<Run> {
    [Run(1, map["A" := 0.0], Some(5.0)), Run(2, map["A" := 10.0], None)]
  }

  function ExampleFactors(): seq<Factor> {
    [Factor("1", "A", [0.0, 10.0])]
  }

  lemma ExampleValid()
    ensures ValidRuns(ExampleRuns()) == [ExampleRuns()[0]]
  {
    var runs := ExampleRuns();
    assert runs[..1] == [runs[0]];
    assert runs[..1][..0] == [];
  }

  lemma ExampleSort()
    ensures SortAsc([0.0, 10.0]) == [0.0, 10.0]
  {
    assert [0.0, 10.0][1..] == [10.0];
    assert [10.0][1..] == [];
  }

  lemma ExampleNoEffect()
    ensures FactorEffect([ExampleRuns()[0]], ExampleFactors()[0]) == None
  {
    var valid := [ExampleRuns()[0]];
    var f := ExampleFactors()[0];
    ExampleSort();
    assert HighLevel(f) == Some(10.0);
    assert valid[..0] == [];
    assert RunsAt(valid, "A", Some(10.0)) == [];
  }

  lemma ExampleFit()
    ensures Fit(ExampleRuns(), ExampleFactors()) == Some(LinearModel(Some(5.0), []))
  {
    ExampleValid();
    ExampleEffects();
    ExampleTerms();
    ExampleMean();
  }

  lemma ExampleEffects()
    ensures Effects([ExampleRuns()[0]], ExampleFactors()) == []
  {
    var valid := [ExampleRuns()[0]];
    var factors := ExampleFactors();
    ExampleNoEffect();
    assert ValidRuns(valid) == valid by { assert valid[..0] == []; }
    assert Entries(valid, factors) == [None];
    assert Entries(valid, factors)[..0] == [];
  }

  lemma ExampleTerms()
    ensures Terms([], [ExampleRuns()[0]], ExampleFactors()) == []
  {
    var factors := ExampleFactors();
    assert factors[..0] == [];
    assert TermFor([], [ExampleRuns()[0]], factors[0]) == None;
  }

  lemma ExampleMean()
    ensures MeanY([ExampleRuns()[0]]) == 5.0
  {
    var valid := [ExampleRuns()[0]];
    assert SumY(valid) == 5.0 by { assert valid[..0] == []; }
  }

  /** Corrected: without terms the formula is the intercept alone; with terms
      it is what the source writes. */
  lemma RenderFixed(fmt: real -> string, m: LinearModel)
    ensures m.terms == [] ==> Render(fmt, m) == Num(fmt, m.intercept)
    ensures m.terms != [] ==> Render(fmt, m) == RenderAsWritten(fmt, m)
  {
    var parts := [Num(fmt, m.intercept)] + RenderedTerms(fmt, m.terms);
    if m.terms != [] {
      assert parts[1..] == RenderedTerms(fmt, m.terms);
    }
  }

  /** Corrected, on the same instance: the formula is just the intercept. */
  lemma FixedExample(fmt: real -> string)
    ensures RegressionFormulaFixed(fmt, ExampleRuns(), ExampleFactors()) == fmt(5.0)
  {
    ExampleFit();
    RenderFixed(fmt, LinearModel(Some(5.0), []));
  }
}
