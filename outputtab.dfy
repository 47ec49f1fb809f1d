/** The output tab's run table and optimizer: pasting a column of outputs,
    the default optimizer limits, and the simulation inputs derived from the
    limits the user sets. */
module OutputTab {
  import opened Wrappers
  import opened Numbers
  import opened Doe
  import opened Text
  import opened RunTable
  import Lists
  import Sorting
  import MainEffects

  /** Limits and target of one factor in the optimizer; `None` is NaN. */
  datatype OptimizerInput = OptimizerInput(lowerLimit: Option<real>, upperLimit: Option<real>, target: Option<real>)

  /** The output's target and specification limits, as typed. */
  datatype YSpecs = YSpecs(target: string, lsl: string, usl: string)

  /** The lines of a paste, whitespace-only lines dropped. */
  function NonBlank(lines: seq<string>): (r: seq<string>)
    ensures |r| <= |lines|
    ensures forall i :: 0 <= i < |r| ==> Trim(r[i]) != ""
    ensures forall l :: l in r <==> l in lines && Trim(l) != ""
  {
    if |lines| == 0 then []
    else
      var rest := NonBlank(lines[1..]);
      assert forall l :: l in lines <==> l == lines[0] || l in lines[1..];
      if Trim(lines[0]) != "" then [lines[0]] + rest else rest
  }

  /** The filter keeps the lines' order and repeats: filtering a
      concatenation concatenates the filtered parts, and a single line is
      kept exactly when it is not blank. */
  lemma {:induction false} NonBlankConcat(a: seq<string>, b: seq<string>)
    ensures NonBlank(a + b) == NonBlank(a) + NonBlank(b)
  {
    if |a| == 0 {
      assert a + b == b;
    } else {
      NonBlankConcat(a[1..], b);
      NonBlankConcatStep(a[0], a[1..], b);
      assert [a[0]] + a[1..] == a;
    }
  }

  lemma NonBlankConcatStep(x: string, rest: seq<string>, b: seq<string>)
    requires NonBlank(rest + b) == NonBlank(rest) + NonBlank(b)
    ensures NonBlank([x] + rest + b) == NonBlank([x] + rest) + NonBlank(b)
  {
    NonBlankCons3(x, rest, b);
    NonBlankCons(x, rest);
    Lists.ConcatAssoc(Kept(x), NonBlank(rest), NonBlank(b));
  }

  lemma NonBlankCons3(x: string, rest: seq<string>, b: seq<string>)
    ensures NonBlank([x] + rest + b) == Kept(x) + NonBlank(rest + b)
  {
    Lists.ConcatAssoc([x], rest, b);
    NonBlankCons(x, rest + b);
  }

  /** The line as the filter keeps it: itself when not blank, nothing otherwise. */
  function Kept(l: string): (r: seq<string>)
    ensures |r| <= 1
  {
    if Trim(l) != "" then [l] else []
  }

  /** One step of the filter, from the front: a line is kept exactly when it is not blank. */
  lemma NonBlankCons(x: string, rest: seq<string>)
    ensures NonBlank([x] + rest) == Kept(x) + NonBlank(rest)
  {
    assert ([x] + rest)[0] == x && ([x] + rest)[1..] == rest;
  }

  /** The values a paste writes, one per non-blank line. */
  function PasteValues(parse: string -> Option<real>, text: string): (r: seq<Option<real>>)
    ensures |r| == |NonBlank(SplitLines(text))|
  {
    ParseTrimmed(parse, NonBlank(SplitLines(text)))
  }

  /** `lines.map(l => parseFloat(l.trim()))`. */
  function ParseTrimmed(parse: string -> Option<real>, lines: seq<string>): (r: seq<Option<real>>)
    ensures |r| == |lines|
    ensures forall i :: 0 <= i < |r| ==> r[i] == ParseFloat(parse, Trim(lines[i]))
  {
    seq(|lines|, i requires 0 <= i < |lines| => ParseFloat(parse, Trim(lines[i])))
  }

  /** The runs after pasting `text` into the output cell of run `startId`. */
  function Pasted(parse: string -> Option<real>, runs: seq<Run>, startId: int, text: string): (r: seq<Run>)
    ensures |r| == |runs|
    ensures FindIndex(runs, startId).None? ==> r == runs
  {
    var values := PasteValues(parse, text);
    if |values| == 0 then runs
    else match FindIndex(runs, startId)
      case None => runs
      case Some(start) => Written(runs, start, values)
  }

  /** `handlePaste`. */
  method HandlePaste(parse: string -> Option<real>, runs: seq<Run>, startId: int, text: string) returns (newRuns: seq<Run>)
    ensures newRuns == Pasted(parse, runs, startId, text)
  {
    var lines := NonBlank(SplitLines(text));
    if |lines| == 0 {
      return runs;
    }
    var startIndex := FindIndex(runs, startId);
    if startIndex.None? {
      return runs;
    }
    var values := ParseTrimmed(parse, lines);
    newRuns := WriteValues(runs, startIndex.value, values);
  }

  /** A paste into an unknown run, or of nothing but blank lines, changes nothing. */
  lemma PasteNoOp(parse: string -> Option<real>, runs: seq<Run>, startId: int, text: string)
    requires FindIndex(runs, startId).None? || forall l :: l in SplitLines(text) ==> Trim(l) == ""
    ensures Pasted(parse, runs, startId, text) == runs
  {
    if FindIndex(runs, startId).Some? {
      AllBlank(SplitLines(text));
    }
  }

  lemma {:induction false} AllBlank(lines: seq<string>)
    requires forall l :: l in lines ==> Trim(l) == ""
    ensures NonBlank(lines) == []
  {
    if |lines| > 0 {
      assert lines[0] in lines;
      AllBlank(lines[1..]);
    }
  }

  /** A paste keeps every run's id and settings and clears no output. */
  lemma PasteKeepsRuns(parse: string -> Option<real>, runs: seq<Run>, startId: int, text: string)
    ensures |Pasted(parse, runs, startId, text)| == |runs|
    ensures forall j :: 0 <= j < |runs| ==>
      Pasted(parse, runs, startId, text)[j].id == runs[j].id &&
      Pasted(parse, runs, startId, text)[j].factors == runs[j].factors &&
      (runs[j].y.Some? ==> Pasted(parse, runs, startId, text)[j].y.Some?)
  {
    var values := PasteValues(parse, text);
    match FindIndex(runs, startId)
    case None =>
    case Some(start) =>
      if |values| > 0 {
        WrittenKeepsRuns(runs, start, values);
      }
  }

  /** The value on the `k`-th non-blank line lands in the `k`-th run from
      the start when it is a number and that run exists; a non-numeric line
      still uses up its run. */
  lemma PasteWindow(parse: string -> Option<real>, runs: seq<Run>, startId: int, text: string, start: nat, k: nat)
    requires FindIndex(runs, startId) == Some(start)
    requires k < |PasteValues(parse, text)| && start + k < |runs|
    ensures Pasted(parse, runs, startId, text)[start + k].y ==
      (if PasteValues(parse, text)[k].Some? then PasteValues(parse, text)[k] else runs[start + k].y)
  {
    var values := PasteValues(parse, text);
    assert Pasted(parse, runs, startId, text) == Written(runs, start, values);
    WrittenAt(runs, start, values, k);
  }

  /** The default optimizer entry of a factor: target at the midpoint of its
      first and last level, limits 10% either side, rounded to integers. */
  function DefaultInput(f: Factor): (r: OptimizerInput)
    ensures r.target == Mid(f)
    ensures r.lowerLimit.Some? <==> Mid(f).Some?
    ensures r.upperLimit.Some? <==> Mid(f).Some?
    ensures r.lowerLimit.Some? ==> r.lowerLimit.value == r.lowerLimit.value.Floor as real
    ensures r.upperLimit.Some? ==> r.upperLimit.value == r.upperLimit.value.Floor as real
  {
    match Mid(f)
    case None => OptimizerInput(None, None, None)
    case Some(mid) => OptimizerInput(Some(Round(mid * 0.9) as real), Some(Round(mid * 1.1) as real), Some(mid))
  }

  /** The default entries of the first `n` factors, a later factor overwriting an earlier one of the same name. */
  function Defaults(factors: seq<Factor>, n: nat): (m: map<string, OptimizerInput>)
    requires n <= |factors|
    ensures forall k :: k in m <==> exists j :: 0 <= j < n && factors[j].name == k
  {
    if n == 0 then map[]
    else Defaults(factors, n - 1)[factors[n - 1].name := DefaultInput(factors[n - 1])]
  }

  /** The optimizer-defaults effect: `None` leaves the inputs as they are.
      It fires only when some run has an output, and by then the same
      render's `calculateEffects` has sorted every factor's levels in place,
      so the defaults are taken from `sorted`, the factors as that call
      leaves them. */
  method InitialiseDefaults(formula: string, inputs: map<string, OptimizerInput>, runs: seq<Run>, factors: seq<Factor>)
    returns (initials: Option<map<string, OptimizerInput>>)
    ensures initials.Some? <==> ShouldInitialise(formula, |inputs|, runs)
    ensures initials.Some? ==> initials.value == Defaults(MainEffects.FactorsAfter(runs, factors), |factors|)
  {
    if !ShouldInitialise(formula, |inputs|, runs) {
      return None;
    }
    var m := FillDefaults(MainEffects.FactorsAfter(runs, factors));
    initials := Some(m);
  }

  /** The `forEach` that fills `initials`, one factor at a time. */
  method FillDefaults(factors: seq<Factor>) returns (m: map<string, OptimizerInput>)
    ensures m == Defaults(factors, |factors|)
  {
    m := map[];
    var i := 0;
    while i < |factors|
      invariant 0 <= i <= |factors|
      invariant m == Defaults(factors, i)
    {
      m := m[factors[i].name := DefaultInput(factors[i])];
      i := i + 1;
    }
  }

  /** Once `calculateEffects` has sorted a factor's levels in place (the
      factor becomes `f.(levels := SortAsc(f.levels))`, see
      `MainEffects.SortedEnds`), its first and last level are its lowest and
      highest, so the midpoint the defaults use is the centre of the
      factor's range. */
  lemma {:induction false} SortedMid(f: Factor)
    requires |f.levels| > 0
    ensures MainEffects.LowLevel(f).Some? && MainEffects.HighLevel(f).Some?
    ensures Mid(f.(levels := Sorting.SortAsc(f.levels))) ==
      Some((MainEffects.LowLevel(f).value + MainEffects.HighLevel(f).value) / 2.0)
  {
    var s := Sorting.SortAsc(f.levels);
    MidOfEnds(f.(levels := s), s[0], s[|s| - 1]);
  }

  lemma {:induction false} MidOfEnds(f: Factor, first: real, last: real)
    requires |f.levels| > 0 && f.levels[0] == first && f.levels[|f.levels| - 1] == last
    ensures Mid(f) == Some((first + last) / 2.0)
  {
  }

  /** A name holds the entry of the last factor that carries it. */
  lemma {:induction false} DefaultsLastWins(factors: seq<Factor>, n: nat, j: nat)
    requires j < n <= |factors|
    requires forall l :: j < l < n ==> factors[l].name != factors[j].name
    ensures Defaults(factors, n)[factors[j].name] == DefaultInput(factors[j])
  {
    if j < n - 1 {
      DefaultsLastWins(factors, n - 1, j);
    }
  }

  /** For a target of at least 5 the rounded limits bracket it, and for a
      target of at most -5 they bracket it the other way round; either
      way each limit is within half a unit of 90% or 110% of the target. */
  lemma DefaultsBracketTarget(f: Factor)
    requires |f.levels| > 0
    ensures var d, mid := DefaultInput(f), Mid(f).value;
      d.lowerLimit.Some? && d.upperLimit.Some? && d.target == Some(mid) &&
      Abs(d.lowerLimit.value - 0.9 * mid) <= 0.5 && Abs(d.upperLimit.value - 1.1 * mid) <= 0.5 &&
      (mid >= 5.0 ==> d.lowerLimit.value <= mid <= d.upperLimit.value) &&
      (mid <= -5.0 ==> d.upperLimit.value <= mid <= d.lowerLimit.value)
  {
  }

  /** `optimizerInputs[name]?.lowerLimit || 0` and its upper twin: a missing
      entry, a NaN and a zero all read as 0. */
  function Limit(inputs: map<string, OptimizerInput>, name: string, lower: bool): (r: real)
    ensures name !in inputs ==> r == 0.0
    ensures name in inputs ==> var o := if lower then inputs[name].lowerLimit else inputs[name].upperLimit;
      r == (if o.Some? then o.value else 0.0)
  {
    if name !in inputs then 0.0
    else
      var o := if lower then inputs[name].lowerLimit else inputs[name].upperLimit;
      if o.Some? then o.value else 0.0
  }

  /** The simulation input of a factor: a normal variable centred between its limits with the limits three standard deviations out. */
  function Variable(inputs: map<string, OptimizerInput>, f: Factor): (v: InputVariable)
    ensures v.id == f.id && v.name == f.name
    ensures v.mean - 3.0 * v.stdDev == Limit(inputs, f.name, true)
    ensures v.mean + 3.0 * v.stdDev == Limit(inputs, f.name, false)
  {
    var lower, upper := Limit(inputs, f.name, true), Limit(inputs, f.name, false);
    InputVariable(f.id, f.name, (lower + upper) / 2.0, (upper - lower) / 6.0)
  }

  /** The mean and standard deviation are the only pair that puts the limits at three standard deviations. */
  lemma VariableUnique(inputs: map<string, OptimizerInput>, f: Factor, mean: real, sd: real)
    requires mean - 3.0 * sd == Limit(inputs, f.name, true) && mean + 3.0 * sd == Limit(inputs, f.name, false)
    ensures Variable(inputs, f).mean == mean && Variable(inputs, f).stdDev == sd
  {
  }

  /** From the defaults, the variable's mean lies within half a unit of the
      factor's midpoint; a factor without levels gives a point mass at 0. */
  lemma DefaultVariable(f: Factor)
    ensures var v, inputs := Variable(map[f.name := DefaultInput(f)], f), map[f.name := DefaultInput(f)];
      if |f.levels| == 0 then v.mean == 0.0 && v.stdDev == 0.0
      else Abs(v.mean - Mid(f).value) <= 0.5
  {
    if |f.levels| > 0 {
      DefaultsBracketTarget(f);
    }
  }

  /** The inputs and configuration `runOptimizerSimulation` hands to the
      simulator: nothing without a formula, otherwise one variable per factor,
      the typed limits and 5000 iterations. */
  function OptimizerRun(parse: string -> Option<real>, formula: string, inputs: map<string, OptimizerInput>,
                        specs: YSpecs, factors: seq<Factor>): (r: Option<(seq<InputVariable>, SimulationConfig)>)
    ensures r.Some? <==> formula != ""
    ensures r.Some? ==> |r.value.0| == |factors|
    ensures r.Some? ==> forall i :: 0 <= i < |factors| ==> r.value.0[i] == Variable(inputs, factors[i])
    ensures r.Some? ==> r.value.1 == SimulationConfig(SpecLimit(parse, specs.lsl, true), SpecLimit(parse, specs.usl, false), formula, 5000)
  {
    if formula == "" then None
    else
      var vars := seq(|factors|, i requires 0 <= i < |factors| => Variable(inputs, factors[i]));
      Some((vars, SimulationConfig(SpecLimit(parse, specs.lsl, true), SpecLimit(parse, specs.usl, false), formula, 5000)))
  }
}
