/** The two library sorts the engine relies on: the ascending numeric sort of
    a factor's levels, `levels.sort((a, b) => a - b)`, and the descending sort
    of main effects, `effects.sort((a, b) => b.effect - a.effect)`, which is
    stable (equal effects keep their order). Both are given as insertion sorts
    and characterised by their contracts. */
module Sorting {
  import opened Doe
  import opened Lists

  predicate Ascending(s: seq<real>) {
    forall i, j :: 0 <= i < j < |s| ==> s[i] <= s[j]
  }

  function InsertAsc(x: real, s: seq<real>): (r: seq<real>)
    requires Ascending(s)
    ensures Ascending(r)
    ensures multiset(r) == multiset(s) + multiset{x}
  {
    if |s| == 0 || x <= s[0] then
      ConsAscending(x, s);
      [x] + s
    else
      var t := InsertAsc(x, s[1..]);
      assert s == [s[0]] + s[1..];
      BoundedAbove(s[0], t, s[1..], x);
      ConsAscending(s[0], t);
      [s[0]] + t
  }

  /** Putting a value no greater than the head in front keeps a list ascending. */
  lemma ConsAscending(a: real, t: seq<real>)
    requires Ascending(t) && (|t| == 0 || a <= t[0])
    ensures Ascending([a] + t)
  {
    var r := [a] + t;
    forall i, j | 0 <= i < j < |r| ensures r[i] <= r[j] {
      if i == 0 {
        assert r[j] == t[j - 1] && t[0] <= t[j - 1];
      } else {
        assert r[i] == t[i - 1] && r[j] == t[j - 1];
      }
    }
  }

  /** A lower bound of `u` and of `x` bounds every element of a permutation of `u` plus `x`. */
  lemma BoundedAbove(a: real, t: seq<real>, u: seq<real>, x: real)
    requires forall k :: 0 <= k < |u| ==> a <= u[k]
    requires a <= x && multiset(t) == multiset(u) + multiset{x}
    ensures forall k :: 0 <= k < |t| ==> a <= t[k]
  {
    forall k | 0 <= k < |t| ensures a <= t[k] {
      assert t[k] in multiset(t);
      if t[k] != x {
        assert t[k] in multiset(u);
        assert t[k] in u;
        var j :| 0 <= j < |u| && u[j] == t[k];
      }
    }
  }

  /** The levels in ascending order; a permutation of the input. */
  function SortAsc(s: seq<real>): (r: seq<real>)
    ensures Ascending(r)
    ensures multiset(r) == multiset(s)
    ensures |r| == |s|
  {
    if |s| == 0 then []
    else
      assert s == [s[0]] + s[1..];
      var r := InsertAsc(s[0], SortAsc(s[1..]));
      assert |r| == |multiset(r)| == |multiset(s)| == |s|;
      r
  }

  /** After sorting, the first level is the least and the last the greatest. */
  lemma SortAscEnds(s: seq<real>)
    requires |s| > 0
    ensures SeqMin(s) == SortAsc(s)[0]
    ensures SeqMax(s) == SortAsc(s)[|s| - 1]
  {
    var r := SortAsc(s);
    AscendingEnds(r, s);
  }

  /** An ascending permutation of `s` starts with its least and ends with its greatest element. */
  lemma AscendingEnds(r: seq<real>, s: seq<real>)
    requires |s| > 0 && |r| == |s|
    requires Ascending(r) && multiset(r) == multiset(s)
    ensures SeqMin(s) == r[0] && SeqMax(s) == r[|r| - 1]
  {
    var lo, hi := SeqMin(s), SeqMax(s);
    assert r[0] in multiset(r) && r[|r| - 1] in multiset(r);
    assert r[0] in s && r[|r| - 1] in s;
    assert lo <= r[0] && r[|r| - 1] <= hi;
    assert lo in multiset(s) && hi in multiset(s);
    assert lo in r && hi in r;
    var i :| 0 <= i < |r| && r[i] == lo;
    var j :| 0 <= j < |r| && r[j] == hi;
    assert r[0] <= r[i] && r[j] <= r[|r| - 1];
  }

  predicate Descending(s: seq<MainEffect>) {
    forall i, j :: 0 <= i < j < |s| ==> s[i].effect >= s[j].effect
  }

  /** The entries of `s` whose effect is `v`, in order. */
  function WithEffect(s: seq<MainEffect>, v: real): seq<MainEffect>
  {
    if |s| == 0 then []
    else (if s[0].effect == v then [s[0]] else []) + WithEffect(s[1..], v)
  }

  /** Inserts `x` before the first entry whose effect is not above its own,
      so that it stays behind every entry with a greater effect. */
  function InsertDesc(x: MainEffect, s: seq<MainEffect>): (r: seq<MainEffect>)
    requires Descending(s)
    ensures Descending(r)
    ensures multiset(r) == multiset(s) + multiset{x}
  {
    if |s| == 0 || s[0].effect <= x.effect then
      ConsDescending(x, s);
      [x] + s
    else
      var t := InsertDesc(x, s[1..]);
      assert s == [s[0]] + s[1..];
      BoundedBelow(s[0], t, s[1..], x);
      ConsDescending(s[0], t);
      [s[0]] + t
  }

  /** Putting an entry with an effect no smaller than the head's in front keeps a list descending. */
  lemma ConsDescending(a: MainEffect, t: seq<MainEffect>)
    requires Descending(t) && (|t| == 0 || a.effect >= t[0].effect)
    ensures Descending([a] + t)
  {
    var r := [a] + t;
    forall i, j | 0 <= i < j < |r| ensures r[i].effect >= r[j].effect {
      if i == 0 {
        assert r[j] == t[j - 1] && t[0].effect >= t[j - 1].effect;
      } else {
        assert r[i] == t[i - 1] && r[j] == t[j - 1];
      }
    }
  }

  /** An upper bound on the effects of `u` and of `x` bounds every entry of a permutation of `u` plus `x`. */
  lemma BoundedBelow(a: MainEffect, t: seq<MainEffect>, u: seq<MainEffect>, x: MainEffect)
    requires forall k :: 0 <= k < |u| ==> a.effect >= u[k].effect
    requires a.effect >= x.effect && multiset(t) == multiset(u) + multiset{x}
    ensures forall k :: 0 <= k < |t| ==> a.effect >= t[k].effect
  {
    forall k | 0 <= k < |t| ensures a.effect >= t[k].effect {
      assert t[k] in multiset(t);
      if t[k] != x {
        assert t[k] in multiset(u);
        assert t[k] in u;
        var j :| 0 <= j < |u| && u[j] == t[k];
      }
    }
  }

  lemma {:induction false} InsertDescWithEffect(x: MainEffect, s: seq<MainEffect>, v: real)
    requires Descending(s)
    ensures WithEffect(InsertDesc(x, s), v) == (if x.effect == v then [x] else []) + WithEffect(s, v)
  {
    var xs: seq<MainEffect> := if x.effect == v then [x] else [];
    if |s| == 0 || s[0].effect <= x.effect {
      assert InsertDesc(x, s) == [x] + s;
      WithEffectCons(x, s, v);
    } else {
      var t := InsertDesc(x, s[1..]);
      var ws := WithEffect(s[1..], v);
      var hs: seq<MainEffect> := if s[0].effect == v then [s[0]] else [];
      assert InsertDesc(x, s) == [s[0]] + t;
      InsertDescWithEffect(x, s[1..], v);
      assert WithEffect(t, v) == xs + ws;
      WithEffectCons(s[0], t, v);
      assert WithEffect([s[0]] + t, v) == hs + (xs + ws);
      assert WithEffect(s, v) == hs + ws;
      SwapEmpty(hs, xs, ws);
    }
  }

  /** One of two lists being empty, their order in front of a third does not matter. */
  lemma SwapEmpty(a: seq<MainEffect>, b: seq<MainEffect>, c: seq<MainEffect>)
    requires a == [] || b == []
    ensures a + (b + c) == b + (a + c)
  {
    if a == [] {
      assert a + (b + c) == b + c == b + (a + c);
    } else {
      assert a + (b + c) == a + c == b + (a + c);
    }
  }

  lemma WithEffectCons(a: MainEffect, t: seq<MainEffect>, v: real)
    ensures WithEffect([a] + t, v) == (if a.effect == v then [a] else []) + WithEffect(t, v)
  {
    assert ([a] + t)[0] == a && ([a] + t)[1..] == t;
  }

  /** Effects by decreasing size; a stable sort of the input. */
  function SortByEffect(s: seq<MainEffect>): (r: seq<MainEffect>)
    ensures Descending(r)
    ensures multiset(r) == multiset(s)
  {
    if |s| == 0 then []
    else
      assert s == [s[0]] + s[1..];
      InsertDesc(s[0], SortByEffect(s[1..]))
  }

  /** Stability: for every effect size, the entries with that size appear in
      the output in the same order as in the input. */
  lemma {:induction false} SortByEffectStable(s: seq<MainEffect>, v: real)
    ensures WithEffect(SortByEffect(s), v) == WithEffect(s, v)
  {
    if |s| > 0 {
      SortByEffectStable(s[1..], v);
      InsertDescWithEffect(s[0], SortByEffect(s[1..]), v);
    }
  }
}
