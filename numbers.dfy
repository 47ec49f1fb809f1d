/** Host-language numbers as reals. `Ext` adds the IEEE 754 values the
    capability statistics can take: the two infinities and NaN. Only the
    operations the simulator uses are defined, each with the IEEE outcome
    for the special values (signed zero is not distinguished). */
module Numbers {

  datatype Ext = NegInf | Fin(v: real) | PosInf | NaN

  function Abs(x: real): (r: real)
    ensures r >= 0.0 && (r == x || r == -x)
  {
    if x < 0.0 then -x else x
  }

  /** `Math.round`: halves round towards positive infinity. */
  function Round(x: real): (r: int)
    ensures x - 0.5 < r as real <= x + 0.5
  {
    (x + 0.5).Floor
  }

  /** IEEE `<`: false whenever either side is NaN. */
  predicate Less(a: Ext, b: Ext) {
    match (a, b)
    case (NaN, _) => false
    case (_, NaN) => false
    case (NegInf, NegInf) => false
    case (NegInf, _) => true
    case (Fin(x), Fin(y)) => x < y
    case (Fin(_), PosInf) => true
    case (Fin(_), NegInf) => false
    case (PosInf, _) => false
  }

  /** IEEE subtraction. */
  function Sub(a: Ext, b: Ext): (r: Ext)
    ensures a.Fin? && b.Fin? ==> r == Fin(a.v - b.v)
    ensures r.NaN? <==> a.NaN? || b.NaN? || (a.PosInf? && b.PosInf?) || (a.NegInf? && b.NegInf?)
  {
    match (a, b)
    case (NaN, _) => NaN
    case (_, NaN) => NaN
    case (Fin(x), Fin(y)) => Fin(x - y)
    case (PosInf, PosInf) => NaN
    case (NegInf, NegInf) => NaN
    case (PosInf, _) => PosInf
    case (NegInf, _) => NegInf
    case (Fin(_), PosInf) => NegInf
    case (Fin(_), NegInf) => PosInf
  }

  /** IEEE multiplication by a finite constant. */
  function Scale(k: real, a: Ext): (r: Ext)
    ensures a.Fin? ==> r == Fin(k * a.v)
    ensures a.NaN? ==> r.NaN?
  {
    match a
    case NaN => NaN
    case Fin(_) => Fin(k * a.v)
    case PosInf => if k > 0.0 then PosInf else if k < 0.0 then NegInf else NaN
    case NegInf => if k > 0.0 then NegInf else if k < 0.0 then PosInf else NaN
  }

  /** IEEE division; a zero divisor is taken as +0. */
  function Div(a: Ext, b: Ext): (r: Ext)
    ensures a.Fin? && b.Fin? && b.v != 0.0 ==> r == Fin(a.v / b.v)
    ensures a.NaN? || b.NaN? ==> r.NaN?
  {
    match (a, b)
    case (NaN, _) => NaN
    case (_, NaN) => NaN
    case (Fin(x), Fin(d)) =>
      if d != 0.0 then Fin(x / d)
      else if x > 0.0 then PosInf else if x < 0.0 then NegInf else NaN
    case (PosInf, Fin(d)) => if d < 0.0 then NegInf else PosInf
    case (NegInf, Fin(d)) => if d < 0.0 then PosInf else NegInf
    case (Fin(_), _) => Fin(0.0)
    case (_, _) => NaN
  }

  /** `Math.min` of two numbers: NaN if either is NaN, else the smaller. */
  function Min(a: Ext, b: Ext): (r: Ext)
    ensures r.NaN? <==> a.NaN? || b.NaN?
    ensures !r.NaN? ==> (r == a || r == b) && !Less(a, r) && !Less(b, r)
  {
    if a.NaN? || b.NaN? then NaN else if Less(b, a) then b else a
  }

  /** `Math.sqrt` lifted to `Ext`, given the real square root `sqrt`. */
  function Sqrt(sqrt: real -> real, a: Ext): (r: Ext)
    ensures a.Fin? ==> r == Fin(sqrt(a.v))
    ensures a.NaN? || a.NegInf? ==> r.NaN?
  {
    match a
    case Fin(x) => Fin(sqrt(x))
    case PosInf => PosInf
    case _ => NaN
  }
}

/** Sums, least and greatest elements of real lists. */
module Lists {
  /** Concatenation is associative. */
  lemma ConcatAssoc<T>(p: seq<T>, q: seq<T>, r: seq<T>)
    ensures p + (q + r) == (p + q) + r
  {
  }

  function Sum(s: seq<real>): real
  {
    if |s| == 0 then 0.0 else Sum(s[..|s| - 1]) + s[|s| - 1]
  }

  lemma {:induction false} SumAppend(s: seq<real>, x: real)
    ensures Sum(s + [x]) == Sum(s) + x
  {
    assert (s + [x])[..|s|] == s;
  }

  /** `Math.min(...s)` of a non-empty list. */
  function SeqMin(s: seq<real>): (r: real)
    requires |s| > 0
    ensures r in s
    ensures forall i :: 0 <= i < |s| ==> r <= s[i]
  {
    if |s| == 1 then s[0]
    else
      var m := SeqMin(s[..|s| - 1]);
      assert forall i :: 0 <= i < |s| - 1 ==> s[..|s| - 1][i] == s[i];
      if s[|s| - 1] < m then s[|s| - 1] else m
  }

  /** `Math.max(...s)` of a non-empty list. */
  function SeqMax(s: seq<real>): (r: real)
    requires |s| > 0
    ensures r in s
    ensures forall i :: 0 <= i < |s| ==> s[i] <= r
  {
    if |s| == 1 then s[0]
    else
      var m := SeqMax(s[..|s| - 1]);
      assert forall i :: 0 <= i < |s| - 1 ==> s[..|s| - 1][i] == s[i];
      if s[|s| - 1] > m then s[|s| - 1] else m
  }

  /** A sum is at least the length times a lower bound of the elements. */
  lemma {:induction false} SumAtLeast(s: seq<real>, lo: real)
    requires forall i :: 0 <= i < |s| ==> lo <= s[i]
    ensures |s| as real * lo <= Sum(s)
  {
    if |s| > 0 {
      var p := s[..|s| - 1];
      SumAtLeast(p, lo);
      var n := |p| as real;
      assert |s| as real * lo == n * lo + lo;
    }
  }

  /** A sum is at most the length times an upper bound of the elements. */
  lemma {:induction false} SumAtMost(s: seq<real>, hi: real)
    requires forall i :: 0 <= i < |s| ==> s[i] <= hi
    ensures Sum(s) <= |s| as real * hi
  {
    if |s| > 0 {
      var p := s[..|s| - 1];
      SumAtMost(p, hi);
      var n := |p| as real;
      assert |s| as real * hi == n * hi + hi;
    }
  }

  /** The sum of copies of one value. */
  lemma {:induction false} SumConstant(s: seq<real>, c: real)
    requires forall i :: 0 <= i < |s| ==> s[i] == c
    ensures Sum(s) == |s| as real * c
  {
    if |s| > 0 {
      SumConstant(s[..|s| - 1], c);
    }
  }
}
