/** Editing the run table's outputs, shared by both output tabs: typing one
    output, writing a column of pasted values into consecutive runs, and
    reading the specification limits typed above the table.

    `parse` stands for the host's `parseFloat`: `None` is its NaN. Of its
    behaviour the model relies only on what `ParseFloat` writes out (blank
    text is NaN). */
module RunTable {
  import opened Wrappers
  import opened Numbers
  import opened Doe
  import opened Text

  /** `parseFloat(s)`: NaN for blank text, otherwise the host's reading. */
  function ParseFloat(parse: string -> Option<real>, s: string): (r: Option<real>)
    ensures Trim(s) == "" ==> r.None?
  {
    if Trim(s) == "" then None else parse(s)
  }

  /** `runs.findIndex(r => r.id === id)`: the first run with that id. */
  function FindIndex(runs: seq<Run>, id: int): (r: Option<nat>)
    ensures r.Some? ==> r.value < |runs| && runs[r.value].id == id
    ensures forall j :: 0 <= j < |runs| && (r.None? || j < r.value) ==> runs[j].id != id
  {
    if |runs| == 0 then None
    else if runs[0].id == id then Some(0)
    else match FindIndex(runs[1..], id)
      case None => None
      case Some(k) => Some(k + 1)
  }

  /** The outputs of `runs` after value `i` is written into run `start + i`:
      numeric values replace the output, NaN leaves the run alone, and values
      past the last run are dropped. */
  function Written(runs: seq<Run>, start: nat, values: seq<Option<real>>): (r: seq<Run>)
    ensures |r| == |runs|
  {
    seq(|runs|, j requires 0 <= j < |runs| =>
      if start <= j < start + |values| && values[j - start].Some? then runs[j].(y := values[j - start]) else runs[j])
  }

  /** The copy-then-overwrite loop of the two paste handlers. */
  method WriteValues(runs: seq<Run>, start: nat, values: seq<Option<real>>) returns (newRuns: seq<Run>)
    ensures newRuns == Written(runs, start, values)
  {
    newRuns := runs;
    var i := 0;
    while i < |values|
      invariant 0 <= i <= |values|
      invariant newRuns == Written(runs, start, values[..i])
    {
      var target := start + i;
      if target < |newRuns| && values[i].Some? {
        newRuns := newRuns[target := newRuns[target].(y := values[i])];
      }
      WrittenStep(runs, start, values, i);
      i := i + 1;
    }
    assert values[..i] == values;
  }

  lemma WrittenStep(runs: seq<Run>, start: nat, values: seq<Option<real>>, i: nat)
    requires i < |values|
    ensures var before, after := Written(runs, start, values[..i]), Written(runs, start, values[..i + 1]);
      if start + i < |runs| && values[i].Some? then after == before[start + i := runs[start + i].(y := values[i])]
      else after == before
  {
    var before, after := Written(runs, start, values[..i]), Written(runs, start, values[..i + 1]);
    assert forall j :: 0 <= j < i ==> values[..i][j] == values[..i + 1][j] == values[j];
  }

  /** Pasting keeps the table's shape: every run keeps its id and settings,
      and no output is ever cleared. */
  lemma WrittenKeepsRuns(runs: seq<Run>, start: nat, values: seq<Option<real>>)
    ensures forall j :: 0 <= j < |runs| ==>
      Written(runs, start, values)[j].id == runs[j].id &&
      Written(runs, start, values)[j].factors == runs[j].factors &&
      (runs[j].y.Some? ==> Written(runs, start, values)[j].y.Some?)
    ensures |ValidRuns(runs)| <= |ValidRuns(Written(runs, start, values))|
  {
    ValidRunsGrow(runs, Written(runs, start, values));
  }

  /** The run `k` places after the start holds value `k` when that is a number, and is unchanged otherwise. */
  lemma WrittenAt(runs: seq<Run>, start: nat, values: seq<Option<real>>, k: nat)
    requires k < |values| && start + k < |runs|
    ensures Written(runs, start, values)[start + k] == (if values[k].Some? then runs[start + k].(y := values[k]) else runs[start + k])
  {
    assert start + k - start == k;
  }

  /** Filling in outputs never shrinks the list of valid runs. */
  lemma {:induction false} ValidRunsGrow(a: seq<Run>, b: seq<Run>)
    requires |a| == |b|
    requires forall j :: 0 <= j < |a| ==> (a[j].y.Some? ==> b[j].y.Some?)
    ensures |ValidRuns(a)| <= |ValidRuns(b)|
  {
    if |a| > 0 {
      var n := |a| - 1;
      ValidRunsGrow(a[..n], b[..n]);
    }
  }

  /** Pasting the same column twice changes nothing more. */
  lemma WrittenIdempotent(runs: seq<Run>, start: nat, values: seq<Option<real>>)
    ensures Written(Written(runs, start, values), start, values) == Written(runs, start, values)
  {
  }

  /** Values reaching past the last run are discarded. */
  lemma WrittenDropsOverflow(runs: seq<Run>, start: nat, values: seq<Option<real>>)
    requires start <= |runs| < start + |values|
    ensures Written(runs, start, values) == Written(runs, start, values[..|runs| - start])
  {
  }

  /** `handleYChange`: the run with that id gets the typed output, `null`
      for empty or non-numeric text; every other run is unchanged. */
  function YChange(parse: string -> Option<real>, runs: seq<Run>, id: int, text: string): (r: seq<Run>)
    ensures |r| == |runs|
  {
    var v := if text == "" then None else ParseFloat(parse, text);
    seq(|runs|, j requires 0 <= j < |runs| => if runs[j].id == id then runs[j].(y := v) else runs[j])
  }

  /** Typing changes only the outputs of the runs with that id. */
  lemma YChangeOnlyThatRun(parse: string -> Option<real>, runs: seq<Run>, id: int, text: string)
    ensures forall j :: 0 <= j < |runs| ==>
      YChange(parse, runs, id, text)[j].id == runs[j].id &&
      YChange(parse, runs, id, text)[j].factors == runs[j].factors &&
      (runs[j].id != id ==> YChange(parse, runs, id, text)[j] == runs[j])
    ensures forall j :: 0 <= j < |runs| && runs[j].id == id ==>
      YChange(parse, runs, id, text)[j].y == (if text == "" then None else ParseFloat(parse, text))
  {
  }

  /** Clearing an entry takes that run out of the valid runs; typing the same entry again changes nothing. */
  lemma YChangeClears(parse: string -> Option<real>, runs: seq<Run>, id: int, text: string)
    ensures forall x :: x in ValidRuns(YChange(parse, runs, id, "")) ==> x.id != id
    ensures YChange(parse, YChange(parse, runs, id, text), id, text) == YChange(parse, runs, id, text)
  {
    var r := YChange(parse, runs, id, "");
    forall x | x in ValidRuns(r) ensures x.id != id {
      var j :| 0 <= j < |r| && r[j] == x;
    }
  }

  /** A specification limit typed as text: empty means no limit (−∞ for the
      lower, +∞ for the upper one); text that does not parse is NaN. */
  function SpecLimit(parse: string -> Option<real>, text: string, lower: bool): (r: Ext)
    ensures text == "" ==> r == (if lower then NegInf else PosInf)
    ensures text != "" ==> r != NegInf && r != PosInf
  {
    if text == "" then (if lower then NegInf else PosInf)
    else match ParseFloat(parse, text)
      case Some(v) => Fin(v)
      case None => NaN
  }

  /** `(f.levels[0] + f.levels[f.levels.length - 1]) / 2`, the default
      optimizer target of a factor: NaN when it has no levels. */
  function Mid(f: Factor): (r: Option<real>)
    ensures r.Some? <==> |f.levels| > 0
    ensures r.Some? ==> (f.levels[0] <= r.value <= f.levels[|f.levels| - 1] || f.levels[|f.levels| - 1] <= r.value <= f.levels[0])
  {
    if |f.levels| == 0 then None else Some((f.levels[0] + f.levels[|f.levels| - 1]) / 2.0)
  }

  /** Both tabs fill in optimizer defaults only once there is a formula and
      data and nothing has been entered yet. */
  predicate ShouldInitialise(formula: string, entered: nat, runs: seq<Run>)
  {
    formula != "" && entered == 0 && |ValidRuns(runs)| > 0
  }

  /** An absent or unparseable limit flags no output on its side. */
  lemma NoLimitNoDefect(parse: string -> Option<real>, text: string, y: real)
    requires text == "" || ParseFloat(parse, text).None?
    ensures !Less(Fin(y), SpecLimit(parse, text, true))
    ensures !Less(SpecLimit(parse, text, false), Fin(y))
  {
  }
}
