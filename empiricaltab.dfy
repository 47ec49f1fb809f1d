/** The older empirical tab: the same run table as the output tab, but a
    paste keeps its blank interior lines, and the optimizer works with a
    target and a tolerance per factor instead of two limits. */
module EmpiricalTab {
  import opened Wrappers
  import opened Numbers
  import opened Doe
  import opened Text
  import opened RunTable
  import OutputTab
  import MainEffects

  /** Target and tolerance of one factor in the optimizer; `None` is NaN. */
  datatype ToleranceInput = ToleranceInput(target: Option<real>, tolerance: Option<real>)

  /** The lines of a paste: the whole text trimmed, split, and each line trimmed; nothing is dropped. */
  function PasteLines(text: string): (r: seq<string>)
    ensures |r| == |SplitLines(Trim(text))| > 0
    ensures forall i :: 0 <= i < |r| ==> r[i] == Trim(SplitLines(Trim(text))[i])
  {
    var lines := SplitLines(Trim(text));
    seq(|lines|, i requires 0 <= i < |lines| => Trim(lines[i]))
  }

  /** The values a paste writes, one per line, blank lines being NaN. */
  function PasteValues(parse: string -> Option<real>, text: string): (r: seq<Option<real>>)
    ensures |r| == |PasteLines(text)|
    ensures forall i :: 0 <= i < |r| && PasteLines(text)[i] == "" ==> r[i].None?
  {
    ParseAll(parse, PasteLines(text))
  }

  /** `lines.map(l => parseFloat(l))`. */
  function ParseAll(parse: string -> Option<real>, lines: seq<string>): (r: seq<Option<real>>)
    ensures |r| == |lines|
    ensures forall i :: 0 <= i < |r| ==> r[i] == ParseFloat(parse, lines[i])
  {
    seq(|lines|, i requires 0 <= i < |lines| => ParseFloat(parse, lines[i]))
  }

  /** The runs after pasting `text` into the output cell of run `startId`. */
  function Pasted(parse: string -> Option<real>, runs: seq<Run>, startId: int, text: string): (r: seq<Run>)
    ensures |r| == |runs|
    ensures FindIndex(runs, startId).None? ==> r == runs
  {
    var values := PasteValues(parse, text);
    if |values| == 0 then runs
    else match FindIndex(runs, startId)
      case None => runs
      case Some(start) => Written(runs, start, values)
  }

  /** `handlePaste`. */
  method HandlePaste(parse: string -> Option<real>, runs: seq<Run>, startId: int, text: string) returns (newRuns: seq<Run>)
    ensures newRuns == Pasted(parse, runs, startId, text)
  {
    var lines := PasteLines(text);
    if |lines| == 0 {
      return runs;
    }
    var startIndex := FindIndex(runs, startId);
    if startIndex.None? {
      return runs;
    }
    var values := ParseAll(parse, lines);
    newRuns := WriteValues(runs, startIndex.value, values);
  }

  /** An unknown start run makes a paste a no-op; otherwise the runs keep
      their ids and settings and no output is cleared. */
  lemma PasteKeepsRuns(parse: string -> Option<real>, runs: seq<Run>, startId: int, text: string)
    ensures FindIndex(runs, startId).None? ==> Pasted(parse, runs, startId, text) == runs
    ensures |Pasted(parse, runs, startId, text)| == |runs|
    ensures forall j :: 0 <= j < |runs| ==>
      Pasted(parse, runs, startId, text)[j].id == runs[j].id &&
      Pasted(parse, runs, startId, text)[j].factors == runs[j].factors &&
      (runs[j].y.Some? ==> Pasted(parse, runs, startId, text)[j].y.Some?)
  {
    match FindIndex(runs, startId)
    case None =>
    case Some(start) =>
      WrittenKeepsRuns(runs, start, PasteValues(parse, text));
  }

  /** Line `k` lands in the `k`-th run from the start; a blank or
      non-numeric line leaves that run as it was. */
  lemma PasteWindow(parse: string -> Option<real>, runs: seq<Run>, startId: int, text: string, start: nat, k: nat)
    requires FindIndex(runs, startId) == Some(start)
    requires k < |PasteLines(text)| && start + k < |runs|
    ensures Pasted(parse, runs, startId, text)[start + k].y ==
      (if PasteValues(parse, text)[k].Some? then PasteValues(parse, text)[k] else runs[start + k].y)
    ensures PasteLines(text)[k] == "" ==> Pasted(parse, runs, startId, text)[start + k] == runs[start + k]
  {
    var values := PasteValues(parse, text);
    assert Pasted(parse, runs, startId, text) == Written(runs, start, values);
    WrittenAt(runs, start, values, k);
  }

  /** The two tabs disagree on a paste with a blank line in the middle: on
      two numbers `a` and `b` separated by an empty line, pasted at the first
      of three runs without outputs, the output tab fills the first two runs
      and the empirical tab the first and the third. */
  lemma BlankLineExample(parse: string -> Option<real>, a: char, b: char, x: real, y: real)
    requires '0' <= a <= '9' && '0' <= b <= '9'
    requires parse([a]) == Some(x) && parse([b]) == Some(y)
    ensures var runs, text := [Run(0, map[], None), Run(1, map[], None), Run(2, map[], None)], [a, '\n', '\n', b];
      OutputTab.Pasted(parse, runs, 0, text) == [Run(0, map[], Some(x)), Run(1, map[], Some(y)), Run(2, map[], None)] &&
      Pasted(parse, runs, 0, text) == [Run(0, map[], Some(x)), Run(1, map[], None), Run(2, map[], Some(y))]
  {
    var runs := [Run(0, map[], None), Run(1, map[], None), Run(2, map[], None)];
    var text := [a, '\n', '\n', b];
    assert FindIndex(runs, 0) == Some(0);
    ExampleOutputValues(parse, a, b, x, y);
    ExampleEmpiricalValues(parse, a, b, x, y);
    ExampleWritten(runs, x, y);
    assert OutputTab.Pasted(parse, runs, 0, text) == Written(runs, 0, [Some(x), Some(y)]);
    assert Pasted(parse, runs, 0, text) == Written(runs, 0, [Some(x), None, Some(y)]);
  }

  lemma ExampleWritten(runs: seq<Run>, x: real, y: real)
    requires runs == [Run(0, map[], None), Run(1, map[], None), Run(2, map[], None)]
    ensures Written(runs, 0, [Some(x), Some(y)]) == [Run(0, map[], Some(x)), Run(1, map[], Some(y)), Run(2, map[], None)]
    ensures Written(runs, 0, [Some(x), None, Some(y)]) == [Run(0, map[], Some(x)), Run(1, map[], None), Run(2, map[], Some(y))]
  {
    var p, p' := Written(runs, 0, [Some(x), Some(y)]), [Run(0, map[], Some(x)), Run(1, map[], Some(y)), Run(2, map[], None)];
    forall i | 0 <= i < 3 ensures p[i] == p'[i] {}
    var q, q' := Written(runs, 0, [Some(x), None, Some(y)]), [Run(0, map[], Some(x)), Run(1, map[], None), Run(2, map[], Some(y))];
    forall i | 0 <= i < 3 ensures q[i] == q'[i] {}
  }

  lemma ExampleLines(a: char, b: char)
    requires '0' <= a <= '9' && '0' <= b <= '9'
    ensures SplitLines([a, '\n', '\n', b]) == [[a], "", [b]]
  {
    var s := [a, '\n', '\n', b];
    assert s[0..1] == [a] && s[1..2] == "\n";
    assert IndexOfFrom(s, "\n", 1) == Some(1);
    assert IndexOf(s, "\n") == Some(1);
    var t := s[2..];
    assert t == ['\n', b] && t[0..1] == "\n";
    assert IndexOf(t, "\n") == Some(0);
    var u := t[1..];
    assert u == [b] && u[0..1] == [b];
    assert IndexOf(u, "\n") == None;
    assert Split(u, "\n") == [[b]];
    assert t[..0] == "";
    assert Split(t, "\n") == [""] + Split(u, "\n");
    assert s[..1] == [a];
    assert Split(s, "\n") == [[a]] + Split(t, "\n");
    var l, l': seq<string> := SplitLines(s), [[a], "", [b]];
    assert DropCR([a]) == [a] && DropCR("") == "";
    forall i | 0 <= i < 3 ensures l[i] == l'[i] {}
  }

  lemma ExampleTrim(a: char, b: char)
    requires '0' <= a <= '9' && '0' <= b <= '9'
    ensures Trim([a, '\n', '\n', b]) == [a, '\n', '\n', b]
  {
    var s := [a, '\n', '\n', b];
    assert !IsWhitespace(s[0]) && !IsWhitespace(s[3]);
    assert TrimStart(s) == s;
  }

  lemma TrimDigit(c: char)
    requires '0' <= c <= '9'
    ensures Trim([c]) == [c]
  {
    assert !IsWhitespace(c);
    assert TrimStart([c]) == [c];
  }

  lemma ExampleOutputValues(parse: string -> Option<real>, a: char, b: char, x: real, y: real)
    requires '0' <= a <= '9' && '0' <= b <= '9'
    requires parse([a]) == Some(x) && parse([b]) == Some(y)
    ensures OutputTab.PasteValues(parse, [a, '\n', '\n', b]) == [Some(x), Some(y)]
  {
    ExampleLines(a, b);
    ExampleNonBlank(a, b);
    ExampleTrimmedValues(parse, a, b, x, y);
  }

  lemma ExampleNonBlank(a: char, b: char)
    requires '0' <= a <= '9' && '0' <= b <= '9'
    ensures OutputTab.NonBlank([[a], "", [b]]) == [[a], [b]]
  {
    TrimDigit(a);
    TrimDigit(b);
    var l1, l2, l3: seq<string> := [[a], "", [b]], ["", [b]], [[b]];
    assert l1[1..] == l2 && l2[1..] == l3 && l3[1..] == [];
    assert Trim(l2[0]) == "";
    NonBlankStep(l3);
    assert OutputTab.NonBlank(l3) == [[b]];
    NonBlankStep(l2);
    assert OutputTab.NonBlank(l2) == [[b]];
    NonBlankStep(l1);
    PairConcat([a], [b]);
  }

  lemma PairConcat(x: string, y: string)
    ensures [x] + [y] == [x, y]
  {
  }

  lemma NonBlankStep(lines: seq<string>)
    requires |lines| > 0
    ensures OutputTab.NonBlank(lines) == (if Trim(lines[0]) != "" then [lines[0]] else []) + OutputTab.NonBlank(lines[1..])
  {
  }

  lemma ExampleTrimmedValues(parse: string -> Option<real>, a: char, b: char, x: real, y: real)
    requires '0' <= a <= '9' && '0' <= b <= '9'
    requires parse([a]) == Some(x) && parse([b]) == Some(y)
    ensures OutputTab.ParseTrimmed(parse, [[a], [b]]) == [Some(x), Some(y)]
  {
    TrimDigit(a);
    TrimDigit(b);
    ParseDigit(parse, a, x);
    ParseDigit(parse, b, y);
    var v, v' := OutputTab.ParseTrimmed(parse, [[a], [b]]), [Some(x), Some(y)];
    forall i | 0 <= i < 2 ensures v[i] == v'[i] {}
  }

  lemma ExampleEmpiricalValues(parse: string -> Option<real>, a: char, b: char, x: real, y: real)
    requires '0' <= a <= '9' && '0' <= b <= '9'
    requires parse([a]) == Some(x) && parse([b]) == Some(y)
    ensures PasteValues(parse, [a, '\n', '\n', b]) == [Some(x), None, Some(y)]
  {
    ExamplePasteLines(a, b);
    ExampleLineValues(parse, a, b, x, y);
  }

  lemma ExampleLineValues(parse: string -> Option<real>, a: char, b: char, x: real, y: real)
    requires '0' <= a <= '9' && '0' <= b <= '9'
    requires parse([a]) == Some(x) && parse([b]) == Some(y)
    ensures ParseAll(parse, [[a], "", [b]]) == [Some(x), None, Some(y)]
  {
    ParseDigit(parse, a, x);
    ParseDigit(parse, b, y);
    var v, v' := ParseAll(parse, [[a], "", [b]]), [Some(x), None, Some(y)];
    forall i | 0 <= i < 3 ensures v[i] == v'[i] {}
  }

  lemma ParseDigit(parse: string -> Option<real>, c: char, v: real)
    requires '0' <= c <= '9' && parse([c]) == Some(v)
    ensures ParseFloat(parse, [c]) == Some(v)
  {
    TrimDigit(c);
  }

  lemma ExamplePasteLines(a: char, b: char)
    requires '0' <= a <= '9' && '0' <= b <= '9'
    ensures PasteLines([a, '\n', '\n', b]) == [[a], "", [b]]
  {
    var text := [a, '\n', '\n', b];
    ExampleTrim(a, b);
    ExampleLines(a, b);
    TrimDigit(a);
    TrimDigit(b);
    var l, l': seq<string> := PasteLines(text), [[a], "", [b]];
    forall i | 0 <= i < 3 ensures l[i] == l'[i] {}
  }

  /** The default entry of a factor: its midpoint as the target and a tenth of it as the tolerance. */
  function InitialInput(f: Factor): (r: ToleranceInput)
    ensures r.target == Mid(f)
    ensures r.tolerance.Some? <==> Mid(f).Some?
    ensures Mid(f).Some? ==> 10.0 * r.tolerance.value == Mid(f).value
  {
    match Mid(f)
    case None => ToleranceInput(None, None)
    case Some(mid) => ToleranceInput(Some(mid), Some(mid * 0.1))
  }

  /** The default entries of the first `n` factors, a later factor overwriting an earlier one of the same name. */
  function Initials(factors: seq<Factor>, n: nat): (m: map<string, ToleranceInput>)
    requires n <= |factors|
    ensures forall k :: k in m <==> exists j :: 0 <= j < n && factors[j].name == k
  {
    if n == 0 then map[]
    else Initials(factors, n - 1)[factors[n - 1].name := InitialInput(factors[n - 1])]
  }

  /** `initializeOptimizer`. */
  method InitializeOptimizer(factors: seq<Factor>) returns (initials: map<string, ToleranceInput>)
    ensures initials == Initials(factors, |factors|)
  {
    initials := map[];
    var i := 0;
    while i < |factors|
      invariant 0 <= i <= |factors|
      invariant initials == Initials(factors, i)
    {
      initials := initials[factors[i].name := InitialInput(factors[i])];
      i := i + 1;
    }
  }

  /** The effect that calls it: `None` leaves the inputs as they are. It
      fires only when some run has an output, after the same render's
      `calculateEffects` has sorted every factor's levels in place. */
  method InitialiseDefaults(formula: string, inputs: map<string, ToleranceInput>, runs: seq<Run>, factors: seq<Factor>)
    returns (initials: Option<map<string, ToleranceInput>>)
    ensures initials.Some? <==> ShouldInitialise(formula, |inputs|, runs)
    ensures initials.Some? ==> initials.value == Initials(MainEffects.FactorsAfter(runs, factors), |factors|)
  {
    if ShouldInitialise(formula, |inputs|, runs) {
      var m := InitializeOptimizer(MainEffects.FactorsAfter(runs, factors));
      initials := Some(m);
    } else {
      initials := None;
    }
  }

  /** A name holds the entry of the last factor that carries it. */
  lemma {:induction false} InitialsLastWins(factors: seq<Factor>, n: nat, j: nat)
    requires j < n <= |factors|
    requires forall l :: j < l < n ==> factors[l].name != factors[j].name
    ensures Initials(factors, n)[factors[j].name] == InitialInput(factors[j])
  {
    if j < n - 1 {
      InitialsLastWins(factors, n - 1, j);
    }
  }

  /** `optimizerInputs[f.name] || { target: 0, tolerance: 0 }`. */
  function Settings(inputs: map<string, ToleranceInput>, name: string): (r: ToleranceInput)
    ensures name in inputs ==> r == inputs[name]
    ensures name !in inputs ==> r.target == Some(0.0) && r.tolerance == Some(0.0)
  {
    if name in inputs then inputs[name] else ToleranceInput(Some(0.0), Some(0.0))
  }

  /** The simulation input of a factor: a normal variable at the target
      with three standard deviations making up the tolerance; `None` when
      the target or the tolerance is NaN. */
  function Variable(inputs: map<string, ToleranceInput>, f: Factor): (v: Option<InputVariable>)
    ensures v.Some? <==> Settings(inputs, f.name).target.Some? && Settings(inputs, f.name).tolerance.Some?
    ensures v.Some? ==> v.value.id == f.id && v.value.name == f.name
    ensures v.Some? ==> v.value.mean == Settings(inputs, f.name).target.value
    ensures v.Some? ==> 3.0 * v.value.stdDev == Settings(inputs, f.name).tolerance.value
  {
    var s := Settings(inputs, f.name);
    if s.target.None? || s.tolerance.None? then None
    else Some(InputVariable(f.id, f.name, s.target.value, s.tolerance.value / 3.0))
  }

  /** A factor without an entry becomes a point mass at 0. */
  lemma UnsetVariable(inputs: map<string, ToleranceInput>, f: Factor)
    requires f.name !in inputs
    ensures Variable(inputs, f) == Some(InputVariable(f.id, f.name, 0.0, 0.0))
  {
  }

  /** From its default entry a factor's variable sits at the midpoint with
      the 90% and 110% marks at three standard deviations, and the output
      tab's default limits are exactly those marks rounded. */
  lemma DefaultVariable(f: Factor)
    requires |f.levels| > 0
    ensures var v := Variable(map[f.name := InitialInput(f)], f);
      v.Some? && v.value.mean == Mid(f).value &&
      v.value.mean - 3.0 * v.value.stdDev == 0.9 * Mid(f).value &&
      v.value.mean + 3.0 * v.value.stdDev == 1.1 * Mid(f).value &&
      OutputTab.DefaultInput(f).lowerLimit == Some(Round(v.value.mean - 3.0 * v.value.stdDev) as real) &&
      OutputTab.DefaultInput(f).upperLimit == Some(Round(v.value.mean + 3.0 * v.value.stdDev) as real)
  {
  }

  /** What `runOptimizerSimulation` hands to the simulator: nothing without
      a formula, otherwise one variable per factor, the typed limits and 5000
      iterations. */
  function OptimizerRun(parse: string -> Option<real>, formula: string, inputs: map<string, ToleranceInput>,
                        specs: OutputTab.YSpecs, factors: seq<Factor>): (r: Option<(seq<Option<InputVariable>>, SimulationConfig)>)
    ensures r.Some? <==> formula != ""
    ensures r.Some? ==> |r.value.0| == |factors|
    ensures r.Some? ==> forall i :: 0 <= i < |factors| ==> r.value.0[i] == Variable(inputs, factors[i])
    ensures r.Some? ==> r.value.1 == SimulationConfig(SpecLimit(parse, specs.lsl, true), SpecLimit(parse, specs.usl, false), formula, 5000)
  {
    if formula == "" then None
    else
      var vars := seq(|factors|, i requires 0 <= i < |factors| => Variable(inputs, factors[i]));
      Some((vars, SimulationConfig(SpecLimit(parse, specs.lsl, true), SpecLimit(parse, specs.usl, false), formula, 5000)))
  }
}
