/** Full-factorial design generation (`cartesian` and
    `generateFullFactorialDesign`): every combination of the factors' levels
    becomes one run, numbered from 1, with no output yet. */
module Design {
  import opened Wrappers
  import opened Doe

  /** `[arr + c | c in cs]`. */
  function PrependAll(arr: seq<real>, cs: seq<seq<real>>): (r: seq<seq<real>>)
    ensures |r| == |cs|
    ensures forall k :: 0 <= k < |cs| ==> r[k] == arr + cs[k]
  {
    seq(|cs|, k requires 0 <= k < |cs| => arr + cs[k])
  }

  /** The combinations that start with one of `levels` and continue with one
      of `tails`, the first position varying slowest. */
  function Expand(levels: seq<real>, tails: seq<seq<real>>): (r: seq<seq<real>>)
    ensures |r| == |levels| * |tails|
  {
    if |levels| == 0 then []
    else
      var n := |levels| - 1;
      assert |levels| * |tails| == n * |tails| + |tails|;
      Expand(levels[..n], tails) + PrependAll([levels[n]], tails)
  }

  /** The Cartesian product of the level lists, the last list varying fastest. */
  function Product(args: seq<seq<real>>): seq<seq<real>>
    decreases |args|
  {
    if |args| == 0 then [[]] else Expand(args[0], Product(args[1..]))
  }

  /** The product of the list lengths. */
  function Count(args: seq<seq<real>>): nat
    decreases |args|
  {
    if |args| == 0 then 1 else |args[0]| * Count(args[1..])
  }

  lemma {:induction false} ProductLength(args: seq<seq<real>>)
    decreases |args|
    ensures |Product(args)| == Count(args)
  {
    if |args| > 0 {
      ProductLength(args[1..]);
    }
  }

  lemma {:induction false} ExpandIndex(levels: seq<real>, tails: seq<seq<real>>, j: nat, k: nat)
    requires j < |levels| && k < |tails|
    ensures j * |tails| + k < |Expand(levels, tails)|
    ensures Expand(levels, tails)[j * |tails| + k] == [levels[j]] + tails[k]
  {
    var n := |levels| - 1;
    var m := |tails|;
    var front := Expand(levels[..n], tails);
    assert |front| == n * m;
    if j < n {
      assert j * m + k < (j + 1) * m <= n * m by {
        assert (j + 1) * m == j * m + m;
        MulLe(j + 1, n, m);
      }
      ExpandIndex(levels[..n], tails, j, k);
    } else {
      assert j * m + k == |front| + k;
    }
  }

  lemma MulLe(a: nat, b: nat, m: nat)
    requires a <= b
    ensures a * m <= b * m
  {
  }

  /** Enumeration order: with `M` the number of combinations of the factors
      after the first, run `j * M + k` pairs the first factor's `j`-th level
      with the `k`-th combination of the rest. So the first factor varies
      slowest and the last fastest. */
  lemma ProductIndex(args: seq<seq<real>>, j: nat, k: nat)
    requires |args| > 0 && j < |args[0]| && k < Count(args[1..])
    ensures |Product(args[1..])| == Count(args[1..])
    ensures j * Count(args[1..]) + k < |Product(args)|
    ensures Product(args)[j * Count(args[1..]) + k] == [args[0][j]] + Product(args[1..])[k]
  {
    ProductLength(args[1..]);
    ExpandIndex(args[0], Product(args[1..]), j, k);
  }

  lemma {:induction false} ExpandMember(levels: seq<real>, tails: seq<seq<real>>, c: seq<real>)
    ensures c in Expand(levels, tails) <==> |c| > 0 && c[0] in levels && c[1..] in tails
  {
    if |levels| > 0 {
      var n := |levels| - 1;
      ExpandMember(levels[..n], tails, c);
      assert levels == levels[..n] + [levels[n]];
      if |c| > 0 && c[1..] in tails && c[0] == levels[n] {
        assert c == [levels[n]] + c[1..];
        var k :| 0 <= k < |tails| && tails[k] == c[1..];
        assert PrependAll([levels[n]], tails)[k] == c;
      }
    }
  }

  /** Completeness and soundness: the product holds exactly the sequences
      that pick, at every position, one of that position's levels. */
  lemma {:induction false} ProductMember(args: seq<seq<real>>, c: seq<real>)
    decreases |args|
    ensures c in Product(args) <==> |c| == |args| && forall i :: 0 <= i < |args| ==> c[i] in args[i]
  {
    if |args| == 0 {
    } else {
      ExpandMember(args[0], Product(args[1..]), c);
      if |c| > 0 {
        ProductMember(args[1..], c[1..]);
        if |c| == |args| && forall i :: 0 <= i < |args| ==> c[i] in args[i] {
          assert forall i :: 0 <= i < |args| - 1 ==> c[1..][i] in args[1..][i] by {
            forall i | 0 <= i < |args| - 1 ensures c[1..][i] in args[1..][i] {
              assert c[1..][i] == c[i + 1];
            }
          }
        }
        if c in Product(args) {
          forall i | 0 <= i < |args| ensures c[i] in args[i] {
            if i > 0 { assert c[i] == c[1..][i - 1]; }
          }
        }
      }
    }
  }

  /** `cartesian`'s inner `helper(arr, i)`: for each level `x` of factor `i`,
      extend a copy of `arr` by `x`; at the last factor push it onto `r`,
      otherwise recurse. `r` is the array being filled. */
  method Helper(args: seq<seq<real>>, arr: seq<real>, i: nat, r0: seq<seq<real>>) returns (r: seq<seq<real>>)
    requires i < |args|
    decreases |args| - i
    ensures r == r0 + PrependAll(arr, Product(args[i..]))
  {
    r := r0;
    var tails := Product(args[i + 1..]);
    assert args[i..][1..] == args[i + 1..];
    assert Product(args[i..]) == Expand(args[i], tails);
    var j := 0;
    while j < |args[i]|
      invariant 0 <= j <= |args[i]|
      invariant r == r0 + PrependAll(arr, Expand(args[i][..j], tails))
    {
      var a := arr + [args[i][j]];
      ghost var before := r;
      if i == |args| - 1 {
        assert tails == [[]] by { assert args[i + 1..] == []; }
        assert PrependAll(a, tails) == [a] by { assert a + [] == a; }
        r := r + [a];
      } else {
        assert args[i + 1..] == args[i + 1..][..];
        r := Helper(args, a, i + 1, r);
      }
      HelperStep(r0, arr, args[i], j, tails, before, r);
      j := j + 1;
    }
    assert args[i][..j] == args[i];
  }

  lemma HelperStep(r0: seq<seq<real>>, arr: seq<real>, ls: seq<real>, j: nat, tails: seq<seq<real>>,
                   rOld: seq<seq<real>>, rNew: seq<seq<real>>)
    requires j < |ls|
    requires rOld == r0 + PrependAll(arr, Expand(ls[..j], tails))
    requires rNew == rOld + PrependAll(arr + [ls[j]], tails)
    ensures rNew == r0 + PrependAll(arr, Expand(ls[..j + 1], tails))
  {
    assert ls[..j + 1][..j] == ls[..j];
    assert Expand(ls[..j + 1], tails) == Expand(ls[..j], tails) + PrependAll([ls[j]], tails);
    PrependAllSplit(arr, Expand(ls[..j], tails), PrependAll([ls[j]], tails));
    PrependAllNest(arr, ls[j], tails);
  }

  lemma PrependAllSplit(arr: seq<real>, a: seq<seq<real>>, b: seq<seq<real>>)
    ensures PrependAll(arr, a + b) == PrependAll(arr, a) + PrependAll(arr, b)
  {
  }

  lemma PrependAllNest(arr: seq<real>, x: real, tails: seq<seq<real>>)
    ensures PrependAll(arr, PrependAll([x], tails)) == PrependAll(arr + [x], tails)
  {
    forall k | 0 <= k < |tails| ensures arr + ([x] + tails[k]) == (arr + [x]) + tails[k] {
    }
  }

  /** `cartesian(args)`; the source reads `args[0]`, so it is only called with at least one list. */
  method Cartesian(args: seq<seq<real>>) returns (r: seq<seq<real>>)
    requires |args| > 0
    ensures r == Product(args)
  {
    r := Helper(args, [], 0, []);
    assert args[0..] == args;
    assert forall k :: 0 <= k < |Product(args)| ==> [] + Product(args)[k] == Product(args)[k];
  }

  function LevelLists(factors: seq<Factor>): (r: seq<seq<real>>)
    ensures |r| == |factors|
    ensures forall i :: 0 <= i < |factors| ==> r[i] == factors[i].levels
  {
    seq(|factors|, i requires 0 <= i < |factors| => factors[i].levels)
  }

  /** `factorSettings[factor.name] = combo[fIndex]` for the first `n`
      factors in order; a repeated name keeps the later value. */
  function Settings(factors: seq<Factor>, combo: seq<real>, n: nat): (m: map<string, real>)
    requires n <= |factors| && n <= |combo|
    ensures m.Keys == set i | 0 <= i < n :: factors[i].name
  {
    if n == 0 then map[] else Settings(factors, combo, n - 1)[factors[n - 1].name := combo[n - 1]]
  }

  /** With distinct names, each factor's name maps to its own entry of the combination. */
  lemma {:induction false} SettingsLookup(factors: seq<Factor>, combo: seq<real>, n: nat, i: nat)
    requires n <= |factors| && n <= |combo| && i < n
    requires DistinctNames(factors)
    ensures factors[i].name in Settings(factors, combo, n)
    ensures Settings(factors, combo, n)[factors[i].name] == combo[i]
  {
    if i < n - 1 {
      SettingsLookup(factors, combo, n - 1, i);
    }
  }

  /** Every combination has one entry per list. */
  lemma ProductShapes(args: seq<seq<real>>)
    ensures forall k :: 0 <= k < |Product(args)| ==> |Product(args)[k]| == |args|
  {
    forall k | 0 <= k < |Product(args)| ensures |Product(args)[k]| == |args| {
      ProductMember(args, Product(args)[k]);
    }
  }

  /** Run `i + 1` sets the factors as combination `i` says. */
  function MakeRuns(factors: seq<Factor>, combos: seq<seq<real>>): (runs: seq<Run>)
    requires forall k :: 0 <= k < |combos| ==> |combos[k]| == |factors|
    ensures |runs| == |combos|
  {
    seq(|combos|, i requires 0 <= i < |combos| => Run(i + 1, Settings(factors, combos[i], |factors|), None))
  }

  /** The specification of `generateFullFactorialDesign`. */
  function FullFactorial(factors: seq<Factor>): seq<Run>
  {
    if |factors| == 0 then []
    else
      ProductShapes(LevelLists(factors));
      MakeRuns(factors, Product(LevelLists(factors)))
  }

  /** `generateFullFactorialDesign(factors)`. */
  method GenerateFullFactorialDesign(factors: seq<Factor>) returns (runs: seq<Run>)
    ensures runs == FullFactorial(factors)
    ensures |factors| == 0 ==> runs == []
    ensures |factors| > 0 ==> |runs| == Count(LevelLists(factors))
    ensures forall i :: 0 <= i < |runs| ==> runs[i].id == i + 1 && runs[i].y == None
  {
    if |factors| == 0 {
      return [];
    }
    var allLevels := LevelLists(factors);
    var combinations := Cartesian(allLevels);
    ProductLength(allLevels);
    ProductShapes(allLevels);
    runs := [];
    var index := 0;
    while index < |combinations|
      invariant 0 <= index <= |combinations|
      invariant |runs| == index
      invariant forall i :: 0 <= i < index ==> runs[i] == Run(i + 1, Settings(factors, combinations[i], |factors|), None)
    {
      var combo := combinations[index];
      assert |combo| == |factors|;
      var settings: map<string, real> := map[];
      var fIndex := 0;
      while fIndex < |factors|
        invariant 0 <= fIndex <= |factors|
        invariant settings == Settings(factors, combo, fIndex)
      {
        settings := settings[factors[fIndex].name := combo[fIndex]];
        fIndex := fIndex + 1;
      }
      runs := runs + [Run(index + 1, settings, None)];
      index := index + 1;
    }
    assert runs == MakeRuns(factors, combinations);
  }

  /** Every run holds, for each factor, one of that factor's own levels
      (names distinct, as the editor keeps them). */
  lemma RunsUseDeclaredLevels(factors: seq<Factor>, i: nat, j: nat)
    requires DistinctNames(factors)
    requires i < |FullFactorial(factors)| && j < |factors|
    ensures factors[j].name in FullFactorial(factors)[i].factors
    ensures FullFactorial(factors)[i].factors[factors[j].name] in factors[j].levels
  {
    var combos := Product(LevelLists(factors));
    ProductMember(LevelLists(factors), combos[i]);
    SettingsLookup(factors, combos[i], |factors|, j);
  }

  /** Every combination of levels is some run of the design. */
  lemma DesignComplete(factors: seq<Factor>, c: seq<real>)
    requires DistinctNames(factors) && |factors| > 0
    requires |c| == |factors| && forall j :: 0 <= j < |factors| ==> c[j] in factors[j].levels
    ensures exists i :: 0 <= i < |FullFactorial(factors)| &&
                        (forall j :: 0 <= j < |factors| ==> FullFactorial(factors)[i].factors[factors[j].name] == c[j])
  {
    var combos := Product(LevelLists(factors));
    ProductMember(LevelLists(factors), c);
    var i :| 0 <= i < |combos| && combos[i] == c;
    forall j | 0 <= j < |factors|
      ensures FullFactorial(factors)[i].factors[factors[j].name] == c[j]
    {
      SettingsLookup(factors, c, |factors|, j);
    }
  }

  lemma ExpandPair(a: real, b: real, tails: seq<seq<real>>)
    ensures Expand([a, b], tails) == PrependAll([a], tails) + PrependAll([b], tails)
  {
    assert [a, b][..1] == [a] && [a][..0] == [];
  }

  lemma ExampleProduct()
    ensures Product([[40.0, 60.0], [200.0, 250.0]]) == [[40.0, 200.0], [40.0, 250.0], [60.0, 200.0], [60.0, 250.0]]
  {
    var args: seq<seq<real>> := [[40.0, 60.0], [200.0, 250.0]];
    assert |args[1..][1..]| == 0;
    ExpandPair(200.0, 250.0, [[]]);
    assert Product(args[1..]) == [[200.0], [250.0]] by {
      assert [200.0] + [] == [200.0] && [250.0] + [] == [250.0];
    }
    ExpandPair(40.0, 60.0, [[200.0], [250.0]]);
    assert PrependAll([40.0], [[200.0], [250.0]]) == [[40.0, 200.0], [40.0, 250.0]] by {
      assert [40.0] + [200.0] == [40.0, 200.0] && [40.0] + [250.0] == [40.0, 250.0];
    }
    assert PrependAll([60.0], [[200.0], [250.0]]) == [[60.0, 200.0], [60.0, 250.0]] by {
      assert [60.0] + [200.0] == [60.0, 200.0] && [60.0] + [250.0] == [60.0, 250.0];
    }
  }

  lemma ExampleSettings(c: seq<real>)
    requires |c| == 2
    ensures Settings([Factor("1", "Pressure", [40.0, 60.0]), Factor("2", "Temp", [200.0, 250.0])], c, 2)
         == map["Pressure" := c[0], "Temp" := c[1]]
  {
  }

  /** The worked example: Pressure [40, 60] and Temp [200, 250] give four
      runs, Temp varying fastest. */
  lemma PressureTemperatureExample()
    ensures var runs := FullFactorial([Factor("1", "Pressure", [40.0, 60.0]), Factor("2", "Temp", [200.0, 250.0])]);
      runs == [
        Run(1, map["Pressure" := 40.0, "Temp" := 200.0], None),
        Run(2, map["Pressure" := 40.0, "Temp" := 250.0], None),
        Run(3, map["Pressure" := 60.0, "Temp" := 200.0], None),
        Run(4, map["Pressure" := 60.0, "Temp" := 250.0], None)]
  {
    var factors := [Factor("1", "Pressure", [40.0, 60.0]), Factor("2", "Temp", [200.0, 250.0])];
    assert LevelLists(factors) == [[40.0, 60.0], [200.0, 250.0]];
    ExampleProduct();
    var combos := [[40.0, 200.0], [40.0, 250.0], [60.0, 200.0], [60.0, 250.0]];
    assert FullFactorial(factors) == MakeRuns(factors, combos);
    ExampleSettings(combos[0]);
    ExampleSettings(combos[1]);
    ExampleSettings(combos[2]);
    ExampleSettings(combos[3]);
  }
}
