/** The interaction plot of two factors: the mean output of the runs at each
    of the four low/high corners of the pair, drawn as one line per level of
    the second factor across the low and high level of the first. A selection
    is written `"A * B"`; by default it is the first pair of the interaction
    list (that list is computed elsewhere and is an input here). */
module Interaction {
  import opened Wrappers
  import opened Doe
  import opened Text
  import opened MainEffects

  /** One point of the plot: `x` is a level of the first factor, `series`
      maps a line label (`"B=<level>"`) to the corner mean. */
  datatype PlotPoint = PlotPoint(x: Option<real>, series: map<string, real>)

  datatype PlotData = PlotData(
    factor1Name: string, factor2Name: string,
    low1: Option<real>, high1: Option<real>, low2: Option<real>, high2: Option<real>,
    data: seq<PlotPoint>)

  /** The first factor called `name` (`factors.find`). */
  function FindFactor(factors: seq<Factor>, name: string): (r: Option<Factor>)
    ensures r.Some? <==> exists i :: 0 <= i < |factors| && factors[i].name == name
    ensures r.Some? ==> r.value.name == name && r.value in factors
  {
    if |factors| == 0 then None
    else if factors[0].name == name then Some(factors[0])
    else
      var r := FindFactor(factors[1..], name);
      assert forall i :: 1 <= i < |factors| ==> factors[i] == factors[1..][i - 1];
      r
  }

  /** `selection.split(' * ')` destructured into two names; the second is
      `undefined` when there is no separator. */
  function SelectedNames(selection: string): (string, Option<string>)
  {
    var parts := Split(selection, " * ");
    (parts[0], if |parts| >= 2 then Some(parts[1]) else None)
  }

  /** The runs with an output at `level1` of `f1` and `level2` of `f2`. */
  function Cell(runs: seq<Run>, f1: Factor, level1: Option<real>, f2: Factor, level2: Option<real>): (r: seq<Run>)
    ensures forall x :: x in r <==>
      x in runs && x.y.Some? && Setting(x, f1.name) == level1 && Setting(x, f2.name) == level2
    ensures forall i :: 0 <= i < |r| ==> r[i].y.Some?
  {
    RunsAt(RunsAt(ValidRuns(runs), f1.name, level1), f2.name, level2)
  }

  /** A line label `${name}=${level}`; `show` is the host's number-to-text
      conversion and an undefined level reads `undefined`. */
  function Label(show: real -> string, name: string, level: Option<real>): string
  {
    name + "=" + (match level case Some(v) => show(v) case None => "undefined")
  }

  /** The corner means, if all four corners hold a run. */
  function PlotFor(show: real -> string, runs: seq<Run>, f1: Factor, f2: Factor): (r: Option<PlotData>)
    ensures r.Some? ==> r.value.factor1Name == f1.name && r.value.factor2Name == f2.name && |r.value.data| == 2
    ensures r.Some? ==> var kLow, kHigh := Label(show, f2.name, LowLevel(f2)), Label(show, f2.name, HighLevel(f2));
      kLow in r.value.data[0].series && kHigh in r.value.data[0].series &&
      kLow in r.value.data[1].series && kHigh in r.value.data[1].series
  {
    var low1, high1 := LowLevel(f1), HighLevel(f1);
    var low2, high2 := LowLevel(f2), HighLevel(f2);
    var ll, hl := Cell(runs, f1, low1, f2, low2), Cell(runs, f1, high1, f2, low2);
    var lh, hh := Cell(runs, f1, low1, f2, high2), Cell(runs, f1, high1, f2, high2);
    if |ll| == 0 || |hl| == 0 || |lh| == 0 || |hh| == 0 then None
    else
      var kLow, kHigh := Label(show, f2.name, low2), Label(show, f2.name, high2);
      Some(PlotData(f1.name, f2.name, low1, high1, low2, high2,
        [PlotPoint(low1, map[kLow := MeanY(ll)][kHigh := MeanY(lh)]),
         PlotPoint(high1, map[kLow := MeanY(hl)][kHigh := MeanY(hh)])]))
  }

  /** `selectedInteractionPlotData`: nothing without a selection or when a
      selected name matches no factor. */
  function InteractionPlot(show: real -> string, selection: string, runs: seq<Run>, factors: seq<Factor>): (r: Option<PlotData>)
    ensures r.Some? ==> selection != "" && r.value.factor1Name == SelectedNames(selection).0 &&
                        SelectedNames(selection).1 == Some(r.value.factor2Name)
  {
    if selection == "" then None
    else
      var (name1, name2) := SelectedNames(selection);
      var f1 := FindFactor(factors, name1);
      var f2 := if name2.Some? then FindFactor(factors, name2.value) else None;
      if f1.None? || f2.None? then None
      else PlotFor(show, runs, f1.value, f2.value)
  }

  /** The selection after the interaction list changes: its first pair, or the current selection if it is empty. */
  function DefaultSelection(pairs: seq<(string, string)>, current: string): (r: string)
    ensures |pairs| == 0 ==> r == current
    ensures |pairs| > 0 ==> var a, b := pairs[0].0, pairs[0].1;
      |r| == |a| + 3 + |b| && r[..|a|] == a && OccursAt(r, " * ", |a|) && r[|a| + 3..] == b
  {
    if |pairs| > 0 then pairs[0].0 + " * " + pairs[0].1 else current
  }

  /** A plot exists exactly when there is a selection, both names match a
      factor and all four corners hold a run with an output. */
  lemma PlotIff(show: real -> string, selection: string, runs: seq<Run>, factors: seq<Factor>)
    ensures InteractionPlot(show, selection, runs, factors).Some? <==>
      selection != "" &&
      var (name1, name2) := SelectedNames(selection);
      FindFactor(factors, name1).Some? && name2.Some? && FindFactor(factors, name2.value).Some? &&
      var f1, f2 := FindFactor(factors, name1).value, FindFactor(factors, name2.value).value;
      Occupied(runs, f1, LowLevel(f1), f2, LowLevel(f2)) && Occupied(runs, f1, HighLevel(f1), f2, LowLevel(f2)) &&
      Occupied(runs, f1, LowLevel(f1), f2, HighLevel(f2)) && Occupied(runs, f1, HighLevel(f1), f2, HighLevel(f2))
  {
    if selection != "" {
      var (name1, name2) := SelectedNames(selection);
      if FindFactor(factors, name1).Some? && name2.Some? && FindFactor(factors, name2.value).Some? {
        var f1, f2 := FindFactor(factors, name1).value, FindFactor(factors, name2.value).value;
        CellNonEmpty(runs, f1, LowLevel(f1), f2, LowLevel(f2));
        CellNonEmpty(runs, f1, HighLevel(f1), f2, LowLevel(f2));
        CellNonEmpty(runs, f1, LowLevel(f1), f2, HighLevel(f2));
        CellNonEmpty(runs, f1, HighLevel(f1), f2, HighLevel(f2));
      }
    }
  }

  /** Some run with an output sits at `l1` of `f1` and `l2` of `f2`. */
  predicate Occupied(runs: seq<Run>, f1: Factor, l1: Option<real>, f2: Factor, l2: Option<real>)
  {
    exists x :: x in runs && x.y.Some? && Setting(x, f1.name) == l1 && Setting(x, f2.name) == l2
  }

  lemma CellNonEmpty(runs: seq<Run>, f1: Factor, l1: Option<real>, f2: Factor, l2: Option<real>)
    ensures |Cell(runs, f1, l1, f2, l2)| > 0 <==> Occupied(runs, f1, l1, f2, l2)
  {
    var c := Cell(runs, f1, l1, f2, l2);
    if |c| > 0 {
      assert c[0] in c;
    }
  }

  /** The plot's points sit at the first factor's lowest and highest level,
      which are its least and greatest level. */
  lemma PlotLevels(show: real -> string, runs: seq<Run>, f1: Factor, f2: Factor)
    requires PlotFor(show, runs, f1, f2).Some?
    ensures var p := PlotFor(show, runs, f1, f2).value;
      |p.data| == 2 && p.data[0].x == p.low1 && p.data[1].x == p.high1 &&
      (|f1.levels| > 0 ==> p.low1 == Some(Lists.SeqMin(f1.levels)) && p.high1 == Some(Lists.SeqMax(f1.levels)))
  {
    PlotShape(show, runs, f1, f2);
    ReportedIff(runs, f1);
  }

  lemma PlotShape(show: real -> string, runs: seq<Run>, f1: Factor, f2: Factor)
    requires PlotFor(show, runs, f1, f2).Some?
    ensures var p := PlotFor(show, runs, f1, f2).value;
      |p.data| == 2 && p.data[0].x == p.low1 == LowLevel(f1) && p.data[1].x == p.high1 == HighLevel(f1)
  {
  }

  /** Without interaction between the two factors (the output is the sum of
      a part depending on each), the two lines are parallel: the change
      across the first factor is the same at both levels of the second. */
  lemma AdditiveMeansParallel(show: real -> string, runs: seq<Run>, f1: Factor, f2: Factor,
                              g1: real -> real, g2: real -> real)
    requires PlotFor(show, runs, f1, f2).Some?
    requires forall x :: x in runs && x.y.Some? && f1.name in x.factors && f2.name in x.factors ==>
               x.y.value == g1(x.factors[f1.name]) + g2(x.factors[f2.name])
    requires LowLevel(f1).Some? && LowLevel(f2).Some?
    ensures var low1, high1, low2, high2 := LowLevel(f1).value, HighLevel(f1).value, LowLevel(f2).value, HighLevel(f2).value;
      MeanY(Cell(runs, f1, Some(high1), f2, Some(low2))) - MeanY(Cell(runs, f1, Some(low1), f2, Some(low2))) ==
      MeanY(Cell(runs, f1, Some(high1), f2, Some(high2))) - MeanY(Cell(runs, f1, Some(low1), f2, Some(high2)))
  {
    var low1, high1, low2, high2 := LowLevel(f1).value, HighLevel(f1).value, LowLevel(f2).value, HighLevel(f2).value;
    CornerMean(runs, f1, low1, f2, low2, g1, g2);
    CornerMean(runs, f1, high1, f2, low2, g1, g2);
    CornerMean(runs, f1, low1, f2, high2, g1, g2);
    CornerMean(runs, f1, high1, f2, high2, g1, g2);
  }

  lemma CornerMean(runs: seq<Run>, f1: Factor, l1: real, f2: Factor, l2: real, g1: real -> real, g2: real -> real)
    requires |Cell(runs, f1, Some(l1), f2, Some(l2))| > 0
    requires forall x :: x in runs && x.y.Some? && f1.name in x.factors && f2.name in x.factors ==>
               x.y.value == g1(x.factors[f1.name]) + g2(x.factors[f2.name])
    ensures MeanY(Cell(runs, f1, Some(l1), f2, Some(l2))) == g1(l1) + g2(l2)
  {
    var c := Cell(runs, f1, Some(l1), f2, Some(l2));
    forall x | x in c ensures x.y == Some(g1(l1) + g2(l2)) {
      assert Setting(x, f1.name) == Some(l1) && Setting(x, f2.name) == Some(l2);
    }
    MeanYConstant(c, g1(l1) + g2(l2));
  }

  /** The default selection names the first pair, and reads back as that pair
      when the first name has no `*` and the second no `" * "`. */
  lemma DefaultSelectionRoundTrip(pairs: seq<(string, string)>, current: string)
    requires |pairs| > 0
    requires forall k :: 0 <= k < |pairs[0].0| ==> pairs[0].0[k] != '*'
    requires !Contains(pairs[0].1, " * ")
    ensures SelectedNames(DefaultSelection(pairs, current)) == (pairs[0].0, Some(pairs[0].1))
  {
    var a, b := pairs[0].0, pairs[0].1;
    var s := a + " * " + b;
    assert OccursAt(s, " * ", |a|);
    forall j: nat | j < |a| ensures !OccursAt(s, " * ", j) {
      if j + 1 < |a| {
        assert s[j + 1] == a[j + 1];
      } else {
        assert s[j + 1] == ' ';
      }
      assert j + 3 <= |s| ==> s[j..j + 3][1] == s[j + 1];
    }
    assert IndexOf(s, " * ") == Some(|a|);
    assert s[|a| + 3..] == b;
    assert IndexOf(b, " * ").None?;
    assert s[..|a|] == a;
    assert Split(b, " * ") == [b];
    assert Split(s, " * ") == [a] + Split(b, " * ");
  }
}
