/** Histogram of simulated outputs (`createHistogramData`): `bins`
    equal-width bins from the least to the greatest value, each value
    counted in the bin its offset from the least value falls in. */
module Histogram {
  import opened Wrappers
  import opened Doe
  import opened Lists

  /** `range / bins || 1`: the bin width, 1 when all values are equal. */
  function BinSize(lo: real, hi: real, bins: nat): (w: real)
    requires bins > 0 && lo <= hi
    ensures w > 0.0
    ensures lo < hi ==> w * bins as real == hi - lo
    ensures lo == hi ==> w == 1.0
  {
    if hi - lo == 0.0 then 1.0 else (hi - lo) / bins as real
  }

  /** `Math.floor((val - min) / binSize)`, then clamped to `[0, bins - 1]`. */
  function BinIndex(v: real, lo: real, w: real, bins: nat): (i: nat)
    requires bins > 0 && w > 0.0
    ensures i < bins
  {
    var k := ((v - lo) / w).Floor;
    if k >= bins then bins - 1 else if k < 0 then 0 else k
  }

  /** Per-bin counts after counting `data` in order. */
  function Counts(data: seq<real>, lo: real, w: real, bins: nat): (c: seq<nat>)
    requires bins > 0 && w > 0.0
    ensures |c| == bins
  {
    if |data| == 0 then seq(bins, _ => 0)
    else
      var c := Counts(data[..|data| - 1], lo, w, bins);
      var b := BinIndex(data[|data| - 1], lo, w, bins);
      c[b := c[b] + 1]
  }

  /** `min + i * binSize`. */
  function Edge(lo: real, w: real, i: nat): real {
    lo + i as real * w
  }

  function BinAt(lo: real, w: real, i: nat, count: nat): HistogramBin {
    HistogramBin(Edge(lo, w, i), Edge(lo, w, i + 1), count)
  }

  function Bins(lo: real, w: real, c: seq<nat>): (h: seq<HistogramBin>)
    ensures |h| == |c|
    ensures forall i :: 0 <= i < |c| ==> h[i] == BinAt(lo, w, i, c[i])
  {
    seq(|c|, i requires 0 <= i < |c| => BinAt(lo, w, i, c[i]))
  }

  /** The specification of `createHistogramData(data, bins)`. `None` is the
      `TypeError` the source raises for non-empty data and no bins, when it
      increments the count of a bin that was never created. */
  function Histogram(data: seq<real>, bins: nat): (r: Option<seq<HistogramBin>>)
    ensures r.None? <==> |data| > 0 && bins == 0
    ensures |data| == 0 ==> r == Some([])
    ensures |data| > 0 && r.Some? ==> |r.value| == bins
  {
    if |data| == 0 then Some([])
    else if bins == 0 then None
    else
      var lo := SeqMin(data);
      var hi := SeqMax(data);
      assert lo <= data[0] <= hi;
      var w := BinSize(lo, hi, bins);
      Some(Bins(lo, w, Counts(data, lo, w, bins)))
  }

  /** `createHistogramData(data, bins)`: create the bins, then count every value. */
  method CreateHistogramData(data: seq<real>, bins: nat) returns (r: Option<seq<HistogramBin>>)
    ensures r == Histogram(data, bins)
  {
    if |data| == 0 {
      return Some([]);
    }
    if bins == 0 {
      return None;
    }
    var lo := SeqMin(data);
    var hi := SeqMax(data);
    assert lo <= data[0] <= hi;
    var w := BinSize(lo, hi, bins);
    var histogram := new HistogramBin[bins](_ => HistogramBin(0.0, 0.0, 0));
    var i := 0;
    while i < bins
      invariant 0 <= i <= bins
      invariant forall b :: 0 <= b < i ==> histogram[b] == BinAt(lo, w, b, 0)
    {
      histogram[i] := BinAt(lo, w, i, 0);
      i := i + 1;
    }
    var k := 0;
    while k < |data|
      invariant 0 <= k <= |data|
      invariant forall b :: 0 <= b < bins ==> histogram[b] == BinAt(lo, w, b, Counts(data[..k], lo, w, bins)[b])
    {
      var binIndex := BinIndex(data[k], lo, w, bins);
      histogram[binIndex] := histogram[binIndex].(count := histogram[binIndex].count + 1);
      assert data[..k + 1][..k] == data[..k];
      k := k + 1;
    }
    assert data[..k] == data;
    assert histogram[..] == Bins(lo, w, Counts(data, lo, w, bins));
    r := Some(histogram[..]);
  }

  /** The bins run contiguously from the least value; with any spread the
      last one ends at the greatest value. */
  lemma HistogramShape(data: seq<real>, bins: nat)
    requires |data| > 0 && bins > 0
    ensures Histogram(data, bins).Some?
    ensures var h := Histogram(data, bins).value;
      && |h| == bins
      && h[0].binStart == SeqMin(data)
      && (forall i :: 0 <= i < bins - 1 ==> h[i].binEnd == h[i + 1].binStart)
      && (SeqMin(data) < SeqMax(data) ==> h[bins - 1].binEnd == SeqMax(data))
  {
    var lo := SeqMin(data);
    var hi := SeqMax(data);
    assert lo <= data[0] <= hi;
    var w := BinSize(lo, hi, bins);
    assert lo < hi ==> Edge(lo, w, bins) == hi;
  }

  function Total(c: seq<nat>): nat
  {
    if |c| == 0 then 0 else Total(c[..|c| - 1]) + c[|c| - 1]
  }

  lemma {:induction false} TotalIncrement(c: seq<nat>, b: nat)
    requires b < |c|
    ensures Total(c[b := c[b] + 1]) == Total(c) + 1
  {
    var n := |c| - 1;
    var d := c[b := c[b] + 1];
    if b < n {
      assert d[..n] == c[..n][b := c[b] + 1];
      TotalIncrement(c[..n], b);
    } else {
      assert d[..n] == c[..n];
    }
  }

  lemma {:induction false} TotalZeros(n: nat)
    ensures Total(seq(n, _ => 0)) == 0
  {
    if n > 0 {
      assert seq(n, _ => 0)[..n - 1] == seq(n - 1, _ => 0);
      TotalZeros(n - 1);
    }
  }

  lemma {:induction false} CountsTotal(data: seq<real>, lo: real, w: real, bins: nat)
    requires bins > 0 && w > 0.0
    ensures Total(Counts(data, lo, w, bins)) == |data|
  {
    if |data| == 0 {
      TotalZeros(bins);
    } else {
      CountsTotal(data[..|data| - 1], lo, w, bins);
      TotalIncrement(Counts(data[..|data| - 1], lo, w, bins), BinIndex(data[|data| - 1], lo, w, bins));
    }
  }

  /** The counts add up to the number of values; `HistogramBinCount` says
      which values each bin counts. */
  lemma HistogramTotal(data: seq<real>, bins: nat)
    requires |data| > 0 && bins > 0
    ensures Histogram(data, bins).Some?
    ensures var h := Histogram(data, bins).value;
      Total(seq(|h|, i requires 0 <= i < |h| => h[i].count)) == |data|
  {
    var lo := SeqMin(data);
    var hi := SeqMax(data);
    assert lo <= data[0] <= hi;
    var w := BinSize(lo, hi, bins);
    CountsTotal(data, lo, w, bins);
    var h := Histogram(data, bins).value;
    assert seq(|h|, i requires 0 <= i < |h| => h[i].count) == Counts(data, lo, w, bins);
  }

  /** The positions of the values whose bin index is `b`. */
  function InBin(data: seq<real>, lo: real, w: real, bins: nat, b: nat): set<nat>
    requires bins > 0 && w > 0.0
  {
    set j: nat | j < |data| && BinIndex(data[j], lo, w, bins) == b
  }

  lemma {:induction false} CountsInBin(data: seq<real>, lo: real, w: real, bins: nat, b: nat)
    requires bins > 0 && w > 0.0 && b < bins
    ensures Counts(data, lo, w, bins)[b] == |InBin(data, lo, w, bins, b)|
  {
    if |data| == 0 {
      assert InBin(data, lo, w, bins, b) == {};
    } else {
      var n := |data| - 1;
      var init := data[..n];
      CountsInBin(init, lo, w, bins, b);
      var s := InBin(init, lo, w, bins, b);
      assert n !in s;
      if BinIndex(data[n], lo, w, bins) == b {
        assert InBin(data, lo, w, bins, b) == s + {n};
      } else {
        assert InBin(data, lo, w, bins, b) == s;
      }
    }
  }

  /** Bin `b` counts exactly the values whose bin index is `b`: with the bin
      index a function of the value, each value is counted once, in its bin. */
  lemma HistogramBinCount(data: seq<real>, bins: nat, b: nat)
    requires |data| > 0 && b < bins
    ensures Histogram(data, bins).Some?
    ensures var lo := SeqMin(data);
      var w := BinSize(lo, SeqMax(data), bins);
      Histogram(data, bins).value[b].count == |set j: nat | j < |data| && BinIndex(data[j], lo, w, bins) == b|
  {
    var lo := SeqMin(data);
    var hi := SeqMax(data);
    assert lo <= data[0] <= hi;
    var w := BinSize(lo, hi, bins);
    CountsInBin(data, lo, w, bins, b);
  }

  /** With any spread, the greatest value falls in the last bin. */
  lemma GreatestInLastBin(lo: real, hi: real, bins: nat)
    requires bins > 0 && lo < hi
    ensures BinIndex(hi, lo, BinSize(lo, hi, bins), bins) == bins - 1
  {
    var w := BinSize(lo, hi, bins);
    assert (hi - lo) / w == bins as real;
  }

  lemma MulLe(a: real, b: real, w: real)
    requires a <= b && w > 0.0
    ensures a * w <= b * w
  {
  }

  /** The real arithmetic of locating one value in `[lo, hi]`. */
  lemma LocateInBin(v: real, lo: real, hi: real, bins: nat)
    requires bins > 0 && lo <= v <= hi
    ensures var w := BinSize(lo, hi, bins);
      var b := BinIndex(v, lo, w, bins);
      && Edge(lo, w, b) <= v <= Edge(lo, w, b + 1)
      && (v == Edge(lo, w, b + 1) ==> b == bins - 1 && v == hi)
  {
    var w := BinSize(lo, hi, bins);
    var q := (v - lo) / w;
    assert q >= 0.0 && q * w == v - lo;
    if q.Floor >= bins {
      LocateAtTop(v, lo, hi, bins, w, q);
    } else {
      LocateInside(v, lo, w, bins, q);
    }
  }

  /** A value whose offset reaches `bins` widths is the greatest, in the last bin. */
  lemma LocateAtTop(v: real, lo: real, hi: real, bins: nat, w: real, q: real)
    requires bins > 0 && lo <= v <= hi && w == BinSize(lo, hi, bins)
    requires q == (v - lo) / w && q * w == v - lo && q.Floor >= bins
    ensures BinIndex(v, lo, w, bins) == bins - 1 && v == hi
    ensures Edge(lo, w, bins) == hi && Edge(lo, w, bins - 1) <= hi
  {
    assert lo < hi;
    MulLe(bins as real, q, w);
    MulLe((bins - 1) as real, bins as real, w);
  }

  /** A value below the last edge lies in bin `floor(q)`, strictly below its upper edge. */
  lemma LocateInside(v: real, lo: real, w: real, bins: nat, q: real)
    requires bins > 0 && w > 0.0 && q == (v - lo) / w && q >= 0.0 && q * w == v - lo && q.Floor < bins
    ensures var b := BinIndex(v, lo, w, bins);
      Edge(lo, w, b) <= v < Edge(lo, w, b + 1)
  {
    var k := q.Floor;
    var b := BinIndex(v, lo, w, bins);
    assert b == k;
    Scaled(v, lo, w, q, k);
  }

  /** `v` lies `q` bin widths above `lo`, and `k <= q < k + 1`. */
  lemma Scaled(v: real, lo: real, w: real, q: real, k: nat)
    requires w > 0.0 && q * w == v - lo && k as real <= q < (k + 1) as real
    ensures Edge(lo, w, k) <= v < Edge(lo, w, k + 1)
  {
    MulLe(k as real, q, w);
    MulLt(q, (k + 1) as real, w);
  }

  lemma MulLt(a: real, b: real, w: real)
    requires a < b && w > 0.0
    ensures a * w < b * w
  {
  }

  /** Each value lies in the bin it is counted in; only the greatest value,
      in the last bin, sits on a bin's upper edge. */
  lemma ValueInItsBin(data: seq<real>, bins: nat, j: nat)
    requires bins > 0 && j < |data|
    ensures Histogram(data, bins).Some?
    ensures var lo := SeqMin(data);
      var w := BinSize(lo, SeqMax(data), bins);
      var b := BinIndex(data[j], lo, w, bins);
      var h := Histogram(data, bins).value;
      && h[b].binStart <= data[j] <= h[b].binEnd
      && (data[j] == h[b].binEnd ==> b == bins - 1 && data[j] == SeqMax(data))
  {
    HistogramBins(data, bins);
    var lo := SeqMin(data);
    var hi := SeqMax(data);
    assert lo <= data[j] <= hi;
    ValueInBins(data[j], lo, hi, bins, Counts(data, lo, BinSize(lo, hi, bins), bins));
  }

  /** The bin edges around one value in `[lo, hi]`, for any counts. */
  lemma ValueInBins(v: real, lo: real, hi: real, bins: nat, c: seq<nat>)
    requires bins > 0 && lo <= v <= hi && |c| == bins
    ensures var w := BinSize(lo, hi, bins);
      var b := BinIndex(v, lo, w, bins);
      var h := Bins(lo, w, c);
      && h[b].binStart <= v <= h[b].binEnd
      && (v == h[b].binEnd ==> b == bins - 1 && v == hi)
  {
    var w := BinSize(lo, hi, bins);
    var b := BinIndex(v, lo, w, bins);
    var h := Bins(lo, w, c);
    assert h[b].binStart == Edge(lo, w, b) && h[b].binEnd == Edge(lo, w, b + 1);
    LocateInBin(v, lo, hi, bins);
  }

  lemma HistogramBins(data: seq<real>, bins: nat)
    requires |data| > 0 && bins > 0
    ensures SeqMin(data) <= SeqMax(data)
    ensures var lo, hi := SeqMin(data), SeqMax(data);
      Histogram(data, bins) == Some(Bins(lo, BinSize(lo, hi, bins), Counts(data, lo, BinSize(lo, hi, bins), bins)))
  {
    assert SeqMin(data) <= data[0] <= SeqMax(data);
  }
}
