/** Main-effect estimation (`calculateEffects`): for each factor, the
    difference between the mean output at its highest and at its lowest
    level, over the runs that have an output. */
module MainEffects {
  import opened Wrappers
  import opened Numbers
  import opened Doe
  import opened Lists
  import opened Sorting

  /** `s[0]`, `undefined` for an empty list. */
  function First(s: seq<real>): (r: Option<real>)
    ensures r.Some? <==> |s| > 0
    ensures r.Some? ==> r.value == s[0]
  {
    if |s| == 0 then None else Some(s[0])
  }

  /** `s[s.length - 1]`, `undefined` for an empty list. */
  function Last(s: seq<real>): (r: Option<real>)
    ensures r.Some? <==> |s| > 0
    ensures r.Some? ==> r.value == s[|s| - 1]
  {
    if |s| == 0 then None else Some(s[|s| - 1])
  }

  /** The divisor `maxLvl - minLvl || 1`: the level span, or 1 when it is 0
      or undefined (`NaN`). */
  function Span(lo: Option<real>, hi: Option<real>): (d: real)
    ensures d != 0.0
    ensures lo.Some? && hi.Some? && lo.value != hi.value ==> d == hi.value - lo.value
    ensures !(lo.Some? && hi.Some? && lo.value != hi.value) ==> d == 1.0
  {
    if lo.Some? && hi.Some? && hi.value - lo.value != 0.0 then hi.value - lo.value else 1.0
  }

  /** The lowest and highest level, read from the sorted levels. */
  function LowLevel(f: Factor): Option<real> { First(SortAsc(f.levels)) }
  function HighLevel(f: Factor): Option<real> { Last(SortAsc(f.levels)) }

  /** The entry for one factor, or `None` when no valid run sits at its
      lowest or at its highest level. */
  function FactorEffect(valid: seq<Run>, f: Factor): (r: Option<MainEffect>)
    ensures r.Some? ==> r.value.name == f.name && r.value.effect >= 0.0
  {
    EffectAt(valid, f.name, LowLevel(f), HighLevel(f))
  }

  /** The entry of factor `name` whose extreme levels are `lo` and `hi`. */
  function EffectAt(valid: seq<Run>, name: string, lo: Option<real>, hi: Option<real>): Option<MainEffect>
  {
    var minRuns := RunsAt(valid, name, lo);
    var maxRuns := RunsAt(valid, name, hi);
    if |minRuns| > 0 && |maxRuns| > 0 then
      var diff := MeanY(maxRuns) - MeanY(minRuns);
      Some(MainEffect(name, Abs(diff), diff / Span(lo, hi)))
    else None
  }

  /** Each factor's entry, in factor order. */
  function Entries(valid: seq<Run>, factors: seq<Factor>): (r: seq<Option<MainEffect>>)
    ensures |r| == |factors|
  {
    seq(|factors|, i requires 0 <= i < |factors| => FactorEffect(valid, factors[i]))
  }

  /** The present entries of `s`, in order. */
  function Somes(s: seq<Option<MainEffect>>): (r: seq<MainEffect>)
    ensures |r| <= |s|
  {
    if |s| == 0 then [] else Somes(s[..|s| - 1]) + Present(s[|s| - 1])
  }

  /** `[e]` for `Some(e)`, nothing for `None`. */
  function Present(o: Option<MainEffect>): (r: seq<MainEffect>)
    ensures o.Some? ==> r == [o.value]
    ensures o.None? ==> r == []
  {
    match o
    case Some(e) => [e]
    case None => []
  }

  /** The reported entries in factor order, before sorting. */
  function RawEffects(valid: seq<Run>, factors: seq<Factor>): (r: seq<MainEffect>)
    ensures |r| <= |factors|
  {
    Somes(Entries(valid, factors))
  }

  /** The specification of `calculateEffects`' result. */
  function Effects(runs: seq<Run>, factors: seq<Factor>): (r: seq<MainEffect>)
    ensures |r| <= |factors|
    ensures |ValidRuns(runs)| == 0 ==> r == []
  {
    var valid := ValidRuns(runs);
    if |valid| == 0 then []
    else
      var raw := RawEffects(valid, factors);
      var sorted := SortByEffect(raw);
      assert |sorted| == |multiset(sorted)| == |multiset(raw)| == |raw|;
      sorted
  }

  /** The factors after the call: every factor's `levels` sorted in place,
      which happens only when some run has an output. */
  function FactorsAfter(runs: seq<Run>, factors: seq<Factor>): (r: seq<Factor>)
    ensures |r| == |factors|
  {
    if |ValidRuns(runs)| == 0 then factors
    else seq(|factors|, i requires 0 <= i < |factors| => factors[i].(levels := SortAsc(factors[i].levels)))
  }

  /** The body of the `forEach` over the factors: sort the levels, then
      compare the mean outputs at the two extreme levels. */
  method FactorEntry(validRuns: seq<Run>, factor: Factor) returns (entry: Option<MainEffect>, levels: seq<real>)
    ensures entry == FactorEffect(validRuns, factor)
    ensures levels == SortAsc(factor.levels)
  {
    levels := SortAsc(factor.levels);
    var minLvl := First(levels);
    var maxLvl := Last(levels);
    assert FactorEffect(validRuns, factor) == EffectAt(validRuns, factor.name, minLvl, maxLvl);
    var minRuns := RunsAt(validRuns, factor.name, minLvl);
    var maxRuns := RunsAt(validRuns, factor.name, maxLvl);
    if |minRuns| > 0 && |maxRuns| > 0 {
      var avgMin := MeanY(minRuns);
      var avgMax := MeanY(maxRuns);
      var diff := avgMax - avgMin;
      var slope := diff / Span(minLvl, maxLvl);
      entry := Some(MainEffect(factor.name, Abs(diff), slope));
    } else {
      entry := None;
    }
  }

  /** `calculateEffects(runs, factors)`, returning the effects and the
      factor list as the in-place level sort leaves it. */
  method CalculateEffects(runs: seq<Run>, factors: seq<Factor>) returns (effects: seq<MainEffect>, factorsAfter: seq<Factor>)
    ensures effects == Effects(runs, factors)
    ensures factorsAfter == FactorsAfter(runs, factors)
  {
    var validRuns := ValidRuns(runs);
    factorsAfter := factors;
    if |validRuns| == 0 {
      return [], factorsAfter;
    }
    effects := [];
    var i := 0;
    SortedBelowZero(factors);
    while i < |factors|
      invariant 0 <= i <= |factors|
      invariant effects == Somes(Entries(validRuns, factors[..i]))
      invariant factorsAfter == SortedBelow(factors, i)
    {
      var entry, levels := FactorEntry(validRuns, factors[i]);
      SortedBelowStep(factors, i);
      factorsAfter := factorsAfter[i := factors[i].(levels := levels)];
      EntriesStep(validRuns, factors, i);
      effects := effects + Present(entry);
      i := i + 1;
    }
    assert factors[..i] == factors;
    SortedBelowAll(runs, factors);
    effects := SortByEffect(effects);
  }

  /** The factors with the levels of the first `n` sorted, as the loop of
      `calculateEffects` leaves them after `n` iterations. */
  function SortedBelow(factors: seq<Factor>, n: nat): (r: seq<Factor>)
    requires n <= |factors|
    ensures |r| == |factors|
  {
    seq(|factors|, k requires 0 <= k < |factors| => if k < n then factors[k].(levels := SortAsc(factors[k].levels)) else factors[k])
  }

  lemma SortedBelowZero(factors: seq<Factor>)
    ensures SortedBelow(factors, 0) == factors
  {
    var r := SortedBelow(factors, 0);
    forall k | 0 <= k < |factors| ensures r[k] == factors[k] {}
  }

  /** Sorting factor `n`'s levels extends the sorted prefix by one. */
  lemma SortedBelowStep(factors: seq<Factor>, n: nat)
    requires n < |factors|
    ensures SortedBelow(factors, n)[n := factors[n].(levels := SortAsc(factors[n].levels))] == SortedBelow(factors, n + 1)
  {
    var a := SortedBelow(factors, n)[n := factors[n].(levels := SortAsc(factors[n].levels))];
    var b := SortedBelow(factors, n + 1);
    forall k | 0 <= k < |factors| ensures a[k] == b[k] {}
  }

  lemma SortedBelowAll(runs: seq<Run>, factors: seq<Factor>)
    requires |ValidRuns(runs)| > 0
    ensures SortedBelow(factors, |factors|) == FactorsAfter(runs, factors)
  {
    var a := SortedBelow(factors, |factors|);
    var b := FactorsAfter(runs, factors);
    forall k | 0 <= k < |factors| ensures a[k] == b[k] {}
  }

  lemma EntriesStep(valid: seq<Run>, factors: seq<Factor>, i: nat)
    requires i < |factors|
    ensures Somes(Entries(valid, factors[..i + 1])) ==
      Somes(Entries(valid, factors[..i])) + Present(FactorEffect(valid, factors[i]))
  {
    var s := Entries(valid, factors[..i + 1]);
    assert s[..i] == Entries(valid, factors[..i]);
  }

  /** Every reported effect size is non-negative. */
  lemma RawEffectsNonNegative(valid: seq<Run>, factors: seq<Factor>)
    ensures forall e :: e in RawEffects(valid, factors) ==> e.effect >= 0.0
  {
    forall e | e in RawEffects(valid, factors) ensures e.effect >= 0.0 {
      RawEffectsMember(valid, factors, e);
    }
  }

  lemma {:induction false} SomesMember(s: seq<Option<MainEffect>>, e: MainEffect)
    ensures e in Somes(s) <==> Some(e) in s
  {
    if |s| > 0 {
      var n := |s| - 1;
      SomesMember(s[..n], e);
      assert s == s[..n] + [s[n]];
    }
  }

  /** Membership: an entry is in the raw list exactly when it is the entry
      of one of the factors. */
  lemma RawEffectsMember(valid: seq<Run>, factors: seq<Factor>, e: MainEffect)
    ensures e in RawEffects(valid, factors) <==>
            exists i :: 0 <= i < |factors| && FactorEffect(valid, factors[i]) == Some(e)
  {
    var s := Entries(valid, factors);
    SomesMember(s, e);
    assert forall i :: 0 <= i < |factors| ==> s[i] == FactorEffect(valid, factors[i]);
  }

  /** The result is sorted by decreasing effect, holds exactly the entries of
      the reported factors, none negative, and equal effects keep factor order. */
  lemma EffectsSorted(runs: seq<Run>, factors: seq<Factor>, v: real)
    requires |ValidRuns(runs)| > 0
    ensures Descending(Effects(runs, factors))
    ensures multiset(Effects(runs, factors)) == multiset(RawEffects(ValidRuns(runs), factors))
    ensures forall e :: e in Effects(runs, factors) ==> e.effect >= 0.0
    ensures WithEffect(Effects(runs, factors), v) == WithEffect(RawEffects(ValidRuns(runs), factors), v)
  {
    var raw := RawEffects(ValidRuns(runs), factors);
    RawEffectsNonNegative(ValidRuns(runs), factors);
    SortByEffectStable(raw, v);
    forall e | e in Effects(runs, factors) ensures e.effect >= 0.0 {
      assert e in multiset(raw);
    }
  }

  /** A factor is reported exactly when some run with an output sits at its
      lowest level and some run with an output sits at its highest level.
      For non-empty levels those are the least and greatest of the levels. */
  lemma ReportedIff(runs: seq<Run>, f: Factor)
    ensures FactorEffect(ValidRuns(runs), f).Some? <==>
      (exists r :: r in runs && r.y.Some? && Setting(r, f.name) == LowLevel(f)) &&
      (exists r :: r in runs && r.y.Some? && Setting(r, f.name) == HighLevel(f))
    ensures |f.levels| > 0 ==> LowLevel(f) == Some(SeqMin(f.levels)) && HighLevel(f) == Some(SeqMax(f.levels))
  {
    var valid := ValidRuns(runs);
    assert FactorEffect(valid, f).Some? <==>
      |RunsAt(valid, f.name, LowLevel(f))| > 0 && |RunsAt(valid, f.name, HighLevel(f))| > 0;
    SomeRunAt(runs, f.name, LowLevel(f));
    SomeRunAt(runs, f.name, HighLevel(f));
    if |f.levels| > 0 {
      SortAscEnds(f.levels);
    }
  }

  /** The runs with an output at a level are non-empty exactly when some
      run with an output sits at that level. */
  lemma SomeRunAt(runs: seq<Run>, name: string, level: Option<real>)
    ensures |RunsAt(ValidRuns(runs), name, level)| > 0 <==>
      exists r :: r in runs && r.y.Some? && Setting(r, name) == level
  {
    var at := RunsAt(ValidRuns(runs), name, level);
    if |at| > 0 { assert at[0] in at; }
  }

  /** Against a linear response: if every run with an output satisfies
      `y = c + b * x` for the setting `x` of factor `f`, whose lowest and
      highest levels `lo` and `hi` differ, then `f`'s slope is `b` and its effect is
      `|b|` times the level span. */
  lemma LinearResponse(runs: seq<Run>, f: Factor, c: real, b: real, lo: real, hi: real)
    requires LinearIn(runs, f.name, c, b)
    requires FactorEffect(ValidRuns(runs), f).Some?
    requires LowLevel(f) == Some(lo) && HighLevel(f) == Some(hi) && lo != hi
    ensures lo < hi
    ensures FactorEffect(ValidRuns(runs), f).value.slope == b
    ensures FactorEffect(ValidRuns(runs), f).value.effect == Abs(b) * (hi - lo)
  {
    EffectOfMeans(ValidRuns(runs), f);
    LevelsOrdered(f);
    MeanAtLevel(runs, f.name, lo, c, b);
    MeanAtLevel(runs, f.name, hi, c, b);
    SlopeFromMeans(ValidRuns(runs), f, c, b, lo, hi);
  }

  lemma SlopeFromMeans(valid: seq<Run>, f: Factor, c: real, b: real, lo: real, hi: real)
    requires FactorEffect(valid, f).Some?
    requires LowLevel(f) == Some(lo) && HighLevel(f) == Some(hi) && lo < hi
    requires |RunsAt(valid, f.name, LowLevel(f))| > 0 && |RunsAt(valid, f.name, HighLevel(f))| > 0
    requires MeanY(RunsAt(valid, f.name, LowLevel(f))) == Response(c, b, lo)
    requires MeanY(RunsAt(valid, f.name, HighLevel(f))) == Response(c, b, hi)
    ensures FactorEffect(valid, f).value.slope == b
    ensures FactorEffect(valid, f).value.effect == Abs(b) * (hi - lo)
  {
    EffectOfMeans(valid, f);
    SlopeOfMeans(MeanY(RunsAt(valid, f.name, LowLevel(f))), MeanY(RunsAt(valid, f.name, HighLevel(f))),
                 Span(LowLevel(f), HighLevel(f)), c, b, lo, hi);
  }

  /** The slope and the effect from the two mean outputs of a linear response. */
  lemma SlopeOfMeans(mLo: real, mHi: real, sp: real, c: real, b: real, lo: real, hi: real)
    requires lo < hi && sp == hi - lo
    requires mLo == Response(c, b, lo) && mHi == Response(c, b, hi)
    ensures (mHi - mLo) / sp == b
    ensures Abs(mHi - mLo) == Abs(b) * (hi - lo)
  {
    SpanOfLinear(c, b, lo, hi, mHi - mLo);
  }

  /** Distinct extreme levels are both defined, the lowest below the highest. */
  lemma LevelsOrdered(f: Factor)
    requires LowLevel(f) != HighLevel(f)
    ensures LowLevel(f).Some? && HighLevel(f).Some? && LowLevel(f).value < HighLevel(f).value
  {
    assert SortAsc(f.levels)[0] <= SortAsc(f.levels)[|f.levels| - 1];
  }

  /** A reported factor's entry, in terms of the two mean outputs: the
      per-factor arithmetic that `LinearResponse` and `SlopeFromMeans` build on. */
  lemma EffectOfMeans(valid: seq<Run>, f: Factor)
    requires FactorEffect(valid, f).Some?
    ensures |RunsAt(valid, f.name, LowLevel(f))| > 0 && |RunsAt(valid, f.name, HighLevel(f))| > 0
    ensures var diff := MeanY(RunsAt(valid, f.name, HighLevel(f))) - MeanY(RunsAt(valid, f.name, LowLevel(f)));
      FactorEffect(valid, f).value == MainEffect(f.name, Abs(diff), diff / Span(LowLevel(f), HighLevel(f)))
  {
  }

  /** A reported effect is the slope's size times the level span, which is
      positive because the lowest level is at most the highest. So the
      effect is 0 exactly when the slope is 0, which happens exactly when
      the mean outputs at the two extreme levels agree. */
  lemma EffectIsSlopeTimesSpan(valid: seq<Run>, f: Factor)
    requires FactorEffect(valid, f).Some?
    ensures Span(LowLevel(f), HighLevel(f)) > 0.0
    ensures var e := FactorEffect(valid, f).value;
      e.name == f.name && e.effect == SpanEffect(e.slope, Span(LowLevel(f), HighLevel(f)))
    ensures var e := FactorEffect(valid, f).value;
      (e.effect == 0.0 <==> e.slope == 0.0) &&
      (e.effect == 0.0 <==> MeanY(RunsAt(valid, f.name, HighLevel(f))) == MeanY(RunsAt(valid, f.name, LowLevel(f))))
  {
    SpanPositive(f);
    EffectAtSize(valid, f.name, LowLevel(f), HighLevel(f));
  }

  lemma EffectAtSize(valid: seq<Run>, name: string, lo: Option<real>, hi: Option<real>)
    requires EffectAt(valid, name, lo, hi).Some? && Span(lo, hi) > 0.0
    ensures var e := EffectAt(valid, name, lo, hi).value;
      e.name == name && e.effect == SpanEffect(e.slope, Span(lo, hi))
    ensures var e := EffectAt(valid, name, lo, hi).value;
      (e.effect == 0.0 <==> e.slope == 0.0) &&
      (e.effect == 0.0 <==> MeanY(RunsAt(valid, name, hi)) == MeanY(RunsAt(valid, name, lo)))
  {
    var diff := MeanY(RunsAt(valid, name, hi)) - MeanY(RunsAt(valid, name, lo));
    EffectArith(EffectAt(valid, name, lo, hi).value, diff, Span(lo, hi));
  }

  /** The level span is positive: the lowest level is at most the highest. */
  lemma SpanPositive(f: Factor)
    ensures Span(LowLevel(f), HighLevel(f)) > 0.0
  {
    if LowLevel(f) != HighLevel(f) {
      LevelsOrdered(f);
    }
  }

  /** The change in output a slope gives across a span, in size: `|slope| * span`. */
  function SpanEffect(slope: real, span: real): real
  {
    Abs(slope) * span
  }

  /** An entry `|diff|` with slope `diff / sp` for a positive `sp`. */
  lemma EffectArith(e: MainEffect, diff: real, sp: real)
    requires sp > 0.0 && e.effect == Abs(diff) && e.slope == diff / sp
    ensures e.effect == SpanEffect(e.slope, sp)
    ensures e.effect == 0.0 <==> e.slope == 0.0
    ensures e.effect == 0.0 <==> diff == 0.0
  {
    assert (diff / sp) * sp == diff;
  }

  /** Every run with an output has output `c + b * x`, `x` its setting of `name`. */
  predicate LinearIn(runs: seq<Run>, name: string, c: real, b: real) {
    forall r :: r in runs && r.y.Some? ==> name in r.factors && r.y.value == Response(c, b, r.factors[name])
  }

  /** The linear response `c + b * x`. */
  function Response(c: real, b: real, x: real): real {
    c + b * x
  }

  /** Under a linear response the mean output at one level is the response at that level. */
  lemma MeanAtLevel(runs: seq<Run>, name: string, level: real, c: real, b: real)
    requires LinearIn(runs, name, c, b)
    requires |RunsAt(ValidRuns(runs), name, Some(level))| > 0
    ensures MeanY(RunsAt(ValidRuns(runs), name, Some(level))) == Response(c, b, level)
  {
    var at := RunsAt(ValidRuns(runs), name, Some(level));
    forall x | x in at ensures x.y == Some(Response(c, b, level)) {
      LinearAt(runs, name, level, c, b, x);
    }
    MeanYConstant(at, Response(c, b, level));
  }

  lemma LinearAt(runs: seq<Run>, name: string, level: real, c: real, b: real, x: Run)
    requires LinearIn(runs, name, c, b)
    requires x in RunsAt(ValidRuns(runs), name, Some(level))
    ensures x.y == Some(Response(c, b, level))
  {
    assert x in ValidRuns(runs) && Setting(x, name) == Some(level);
    LinearPoint(runs, name, c, b, x);
  }

  lemma LinearPoint(runs: seq<Run>, name: string, c: real, b: real, x: Run)
    requires LinearIn(runs, name, c, b)
    requires x in runs && x.y.Some?
    ensures name in x.factors && x.y.value == Response(c, b, x.factors[name])
  {
  }

  lemma SpanOfLinear(c: real, b: real, lo: real, hi: real, diff: real)
    requires lo < hi && diff == Response(c, b, hi) - Response(c, b, lo)
    ensures diff / (hi - lo) == b
    ensures Abs(diff) == Abs(b) * (hi - lo)
  {
    assert diff == b * (hi - lo);
  }

  /** After the call a factor's first level is its lowest and its last
      level its highest, the least and greatest of its levels. */
  lemma SortedEnds(runs: seq<Run>, factors: seq<Factor>, i: nat)
    requires |ValidRuns(runs)| > 0 && i < |factors| && |factors[i].levels| > 0
    ensures var l := FactorsAfter(runs, factors)[i].levels;
      |l| == |factors[i].levels| && Some(l[0]) == LowLevel(factors[i]) && Some(l[|l| - 1]) == HighLevel(factors[i])
    ensures LowLevel(factors[i]) == Some(SeqMin(factors[i].levels))
    ensures HighLevel(factors[i]) == Some(SeqMax(factors[i].levels))
    ensures FactorsAfter(runs, factors)[i] == factors[i].(levels := SortAsc(factors[i].levels))
  {
    assert FactorsAfter(runs, factors)[i].levels == SortAsc(factors[i].levels);
    SortAscEnds(factors[i].levels);
  }

  /** After the call every factor keeps its id and name and has its levels
      in ascending order, as a permutation of the old ones. */
  lemma FactorsAfterSorted(runs: seq<Run>, factors: seq<Factor>, i: nat)
    requires |ValidRuns(runs)| > 0 && i < |factors|
    ensures FactorsAfter(runs, factors)[i].id == factors[i].id
    ensures FactorsAfter(runs, factors)[i].name == factors[i].name
    ensures Ascending(FactorsAfter(runs, factors)[i].levels)
    ensures multiset(FactorsAfter(runs, factors)[i].levels) == multiset(factors[i].levels)
  {
  }

  /** The in-place sort does not change what the next call computes. */
  lemma EffectsAfterSortUnchanged(runs: seq<Run>, factors: seq<Factor>)
    ensures Effects(runs, FactorsAfter(runs, factors)) == Effects(runs, factors)
  {
    var valid := ValidRuns(runs);
    if |valid| > 0 {
      RawEffectsSortInvariant(valid, factors);
    }
  }

  lemma RawEffectsSortInvariant(valid: seq<Run>, factors: seq<Factor>)
    ensures RawEffects(valid, seq(|factors|, i requires 0 <= i < |factors| => factors[i].(levels := SortAsc(factors[i].levels))))
         == RawEffects(valid, factors)
  {
    var sorted := seq(|factors|, i requires 0 <= i < |factors| => factors[i].(levels := SortAsc(factors[i].levels)));
    forall i | 0 <= i < |factors| ensures FactorEffect(valid, sorted[i]) == FactorEffect(valid, factors[i]) {
      SortAscIdempotent(factors[i].levels);
      SameExtremes(valid, sorted[i], factors[i]);
    }
    assert Entries(valid, sorted) == Entries(valid, factors);
  }

  /** Only the name and the sorted levels of a factor matter. */
  lemma SameExtremes(valid: seq<Run>, f: Factor, g: Factor)
    requires f.name == g.name && SortAsc(f.levels) == SortAsc(g.levels)
    ensures FactorEffect(valid, f) == FactorEffect(valid, g)
  {
    var lo, hi := LowLevel(f), HighLevel(f);
    assert lo == LowLevel(g) && hi == HighLevel(g);
    assert FactorEffect(valid, f) == EffectAt(valid, f.name, lo, hi);
  }

  /** An ascending permutation is unique, so sorting sorted levels changes nothing. */
  lemma SortAscIdempotent(s: seq<real>)
    ensures SortAsc(SortAsc(s)) == SortAsc(s)
  {
    AscendingUnique(SortAsc(SortAsc(s)), SortAsc(s));
  }

  lemma {:induction false} AscendingUnique(a: seq<real>, b: seq<real>)
    requires Ascending(a) && Ascending(b) && multiset(a) == multiset(b)
    ensures a == b
  {
    if |a| > 0 {
      HeadsEqual(a, b);
      TailsSameMultiset(a, b);
      AscendingUnique(a[1..], b[1..]);
      assert a == [a[0]] + a[1..] && b == [b[0]] + b[1..];
    } else {
      assert |b| == |multiset(b)| == 0;
    }
  }

  lemma HeadsEqual(a: seq<real>, b: seq<real>)
    requires Ascending(a) && Ascending(b) && multiset(a) == multiset(b) && |a| > 0
    ensures |b| > 0 && a[0] == b[0]
  {
    assert |b| == |multiset(b)| == |a|;
    assert a[0] in multiset(b) && b[0] in multiset(a);
    var i :| 0 <= i < |b| && b[i] == a[0];
    var j :| 0 <= j < |a| && a[j] == b[0];
    assert b[0] <= b[i] && a[0] <= a[j];
  }

  lemma TailsSameMultiset(a: seq<real>, b: seq<real>)
    requires |a| > 0 && |b| > 0 && a[0] == b[0] && multiset(a) == multiset(b)
    ensures multiset(a[1..]) == multiset(b[1..])
  {
    assert a == [a[0]] + a[1..] && b == [b[0]] + b[1..];
    assert multiset(a) == multiset{a[0]} + multiset(a[1..]);
    assert multiset(b) == multiset{b[0]} + multiset(b[1..]);
    assert multiset(a[1..]) == multiset(a) - multiset{a[0]};
    assert multiset(b[1..]) == multiset(b) - multiset{b[0]};
  }
}
