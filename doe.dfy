/** The records the design-of-experiments engine exchanges with its callers. */
module Doe {
  import opened Wrappers
  import opened Numbers
  import Lists

  /** An input factor and its experimental levels (2 to 4 when entered through the editor). */
  datatype Factor = Factor(id: string, name: string, levels: seq<real>)

  /** One row of the design matrix: a setting per factor name and the observed output, if any. */
  datatype Run = Run(id: int, factors: map<string, real>, y: Option<real>)

  /** Absolute effect size and signed slope of one factor. */
  datatype MainEffect = MainEffect(name: string, effect: real, slope: real)

  /** A normally distributed simulation input (the only distribution kind the source has). */
  datatype InputVariable = InputVariable(id: string, name: string, mean: real, stdDev: real)

  /** Specification limits (possibly infinite), transfer function text and iteration count. */
  datatype SimulationConfig = SimulationConfig(lsl: Ext, usl: Ext, formula: string, iterations: int)

  datatype HistogramBin = HistogramBin(binStart: real, binEnd: real, count: nat)

  /** No two factors share a name. */
  predicate DistinctNames(factors: seq<Factor>) {
    forall i, j :: 0 <= i < j < |factors| ==> factors[i].name != factors[j].name
  }

  /** `run.factors[name]`: `None` when the run has no setting under that name (`undefined`). */
  function Setting(r: Run, name: string): (v: Option<real>)
    ensures v.Some? <==> name in r.factors
    ensures v.Some? ==> v.value == r.factors[name]
  {
    if name in r.factors then Some(r.factors[name]) else None
  }

  /** `runs.filter(r => r.y !== null)`. */
  function ValidRuns(runs: seq<Run>): (r: seq<Run>)
    ensures |r| <= |runs|
    ensures forall i :: 0 <= i < |r| ==> r[i].y.Some?
    ensures forall x :: x in r <==> x in runs && x.y.Some?
  {
    if |runs| == 0 then []
    else
      var rest := ValidRuns(runs[..|runs| - 1]);
      assert runs == runs[..|runs| - 1] + [runs[|runs| - 1]];
      if runs[|runs| - 1].y.Some? then rest + [runs[|runs| - 1]] else rest
  }

  /** The filter keeps order and multiplicity: filtering a concatenation
      concatenates the filtered parts, and a single run is kept exactly when
      it has an output. */
  lemma {:induction false} ValidRunsConcat(a: seq<Run>, b: seq<Run>)
    ensures ValidRuns(a + b) == ValidRuns(a) + ValidRuns(b)
    ensures |b| == 1 ==> ValidRuns(b) == (if b[0].y.Some? then b else [])
  {
    if |b| == 0 {
      assert a + b == a;
    } else {
      var n := |b| - 1;
      ValidRunsConcat(a, b[..n]);
      assert b[..n] + [b[n]] == b;
      Lists.ConcatAssoc(a, b[..n], [b[n]]);
      ValidRunsSnoc(a + b[..n], b[n]);
      ValidRunsSnoc(b[..n], b[n]);
      Lists.ConcatAssoc(ValidRuns(a), ValidRuns(b[..n]), KeptRun(b[n]));
      if n == 0 {
        ValidRunsSnoc([], b[0]);
        assert [] + [b[0]] == b;
      }
    }
  }

  /** The run as the filter keeps it: itself when it has an output, nothing otherwise. */
  function KeptRun(x: Run): seq<Run>
  {
    if x.y.Some? then [x] else []
  }

  /** One step of the filter, from the back. */
  lemma ValidRunsSnoc(s: seq<Run>, x: Run)
    ensures ValidRuns(s + [x]) == ValidRuns(s) + KeptRun(x)
  {
    assert (s + [x])[..|s|] == s && (s + [x])[|s|] == x;
  }

  /** Filtering the valid runs again changes nothing. */
  lemma {:induction false} ValidRunsIdempotent(runs: seq<Run>)
    ensures ValidRuns(ValidRuns(runs)) == ValidRuns(runs)
  {
    if |runs| > 0 {
      var p := runs[..|runs| - 1];
      ValidRunsIdempotent(p);
      var rest := ValidRuns(p);
      if runs[|runs| - 1].y.Some? {
        assert (rest + [runs[|runs| - 1]])[..|rest|] == rest;
      }
    }
  }

  /** `reduce((s, r) => s + (r.y || 0), 0)`: the sum of the outputs, a missing one counting 0. */
  function SumY(runs: seq<Run>): real
  {
    if |runs| == 0 then 0.0
    else SumY(runs[..|runs| - 1]) + (match runs[|runs| - 1].y case Some(v) => v case None => 0.0)
  }

  /** The runs whose setting of `name` is `level` (`r.factors[name] === level`). */
  function RunsAt(runs: seq<Run>, name: string, level: Option<real>): (r: seq<Run>)
    ensures |r| <= |runs|
    ensures forall x :: x in r <==> x in runs && Setting(x, name) == level
  {
    if |runs| == 0 then []
    else
      var rest := RunsAt(runs[..|runs| - 1], name, level);
      assert runs == runs[..|runs| - 1] + [runs[|runs| - 1]];
      if Setting(runs[|runs| - 1], name) == level then rest + [runs[|runs| - 1]] else rest
  }

  /** The mean output of a non-empty list of runs. */
  function MeanY(runs: seq<Run>): real
    requires |runs| > 0
  {
    SumY(runs) / |runs| as real
  }

  /** If every run of a non-empty list has output `c`, their mean output is `c`. */
  lemma {:induction false} MeanYConstant(runs: seq<Run>, c: real)
    requires |runs| > 0
    requires forall x :: x in runs ==> x.y == Some(c)
    ensures MeanY(runs) == c
  {
    SumYConstant(runs, c);
  }

  lemma {:induction false} SumYConstant(runs: seq<Run>, c: real)
    requires forall x :: x in runs ==> x.y == Some(c)
    ensures SumY(runs) == |runs| as real * c
  {
    if |runs| > 0 {
      var p := runs[..|runs| - 1];
      assert forall x :: x in p ==> x in runs;
      SumYConstant(p, c);
    }
  }
}
