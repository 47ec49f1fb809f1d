/** The Monte Carlo propagation of error: each iteration draws every input
    variable from its normal distribution, evaluates the transfer function on
    the draws, records the output and counts it as a defect when it falls
    outside the specification limits; the outputs are then summarised into
    their mean, sample standard deviation, extremes and the capability
    indices Cp, Cpu, Cpl, Cpk, the sigma level and DPMO.

    The random source, the formula evaluator, `Math.sqrt` and the clock are
    parameters: `draw(i, j)` is the standard normal draw for variable `j` in
    iteration `i`, `evaluate(formula, inputs)` is the evaluator's output, or
    `None` when it throws. */
module Simulation {
  import opened Wrappers
  import opened Numbers
  import opened Lists
  import opened Doe

  datatype SimulationResult = SimulationResult(
    data: seq<real>, mean: Ext, stdDev: Ext, min: Ext, max: Ext,
    cp: Ext, cpk: Ext, cpu: Ext, cpl: Ext, sigmaLevel: Ext, dpmo: Ext,
    defects: nat, timestamp: int)

  /** `generateNormalRandom(v.mean, v.stdDev)` for the standard normal draw `z`. */
  function Sample(z: real, v: InputVariable): real
  {
    z * v.stdDev + v.mean
  }

  /** The inputs of iteration `i` after the first `n` variables were drawn:
      one entry per variable name, a later variable overwriting an earlier
      one of the same name. */
  function Inputs(vars: seq<InputVariable>, draw: (int, int) -> real, i: int, n: nat): (m: map<string, real>)
    requires n <= |vars|
    ensures forall k :: k in m <==> exists j :: 0 <= j < n && vars[j].name == k
  {
    if n == 0 then map[]
    else
      var prev := Inputs(vars, draw, i, n - 1);
      prev[vars[n - 1].name := Sample(draw(i, n - 1), vars[n - 1])]
  }

  /** A name is bound to the draw of the last variable that carries it. */
  lemma {:induction false} InputsLastWins(vars: seq<InputVariable>, draw: (int, int) -> real, i: int, n: nat, j: nat)
    requires j < n <= |vars|
    requires forall l :: j < l < n ==> vars[l].name != vars[j].name
    ensures Inputs(vars, draw, i, n)[vars[j].name] == Sample(draw(i, j), vars[j])
  {
    if j < n - 1 {
      InputsLastWins(vars, draw, i, n - 1, j);
    }
  }

  /** The evaluator's outcome in iteration `i`. */
  function Eval(vars: seq<InputVariable>, config: SimulationConfig, draw: (int, int) -> real,
                evaluate: (string, map<string, real>) -> Option<real>, i: int): Option<real>
  {
    evaluate(config.formula, Inputs(vars, draw, i, |vars|))
  }

  /** The outputs of the first `n` iterations, or `None` once the evaluator throws. */
  function Outputs(vars: seq<InputVariable>, config: SimulationConfig, draw: (int, int) -> real,
                   evaluate: (string, map<string, real>) -> Option<real>, n: nat): Option<seq<real>>
  {
    if n == 0 then Some([])
    else
      match Outputs(vars, config, draw, evaluate, n - 1)
      case None => None
      case Some(data) =>
        match Eval(vars, config, draw, evaluate, n - 1)
        case None => None
        case Some(y) => Some(data + [y])
  }

  /** The loop runs `config.iterations` times, or not at all when that is not positive. */
  function Iterations(config: SimulationConfig): (n: nat)
    ensures n as int == if config.iterations > 0 then config.iterations else 0
  {
    if config.iterations > 0 then config.iterations else 0
  }

  /** `y < lsl || y > usl`, with the limits as given (either may be infinite). */
  predicate Defective(y: real, config: SimulationConfig)
    ensures config.lsl.Fin? && config.usl.Fin? ==>
      (Defective(y, config) <==> y < config.lsl.v || config.usl.v < y)
    ensures config.lsl == NegInf && config.usl.Fin? ==> (Defective(y, config) <==> config.usl.v < y)
    ensures config.lsl.Fin? && config.usl == PosInf ==> (Defective(y, config) <==> y < config.lsl.v)
  {
    Less(Fin(y), config.lsl) || Less(config.usl, Fin(y))
  }

  function CountDefects(data: seq<real>, config: SimulationConfig): (d: nat)
    ensures d <= |data|
  {
    if |data| == 0 then 0
    else CountDefects(data[..|data| - 1], config) + (if Defective(data[|data| - 1], config) then 1 else 0)
  }

  function Square(x: real): (r: real)
    ensures r >= 0.0
  {
    x * x
  }

  /** `data.reduce((a, b) => a + Math.pow(b - mean, 2), 0)`. */
  function SumSquares(data: seq<real>, mean: real): (r: real)
    ensures r >= 0.0
  {
    if |data| == 0 then 0.0
    else SumSquares(data[..|data| - 1], mean) + Square(data[|data| - 1] - mean)
  }

  /** The mean: `0 / 0`, NaN, for no data. */
  function Mean(data: seq<real>): Ext
  {
    if |data| == 0 then NaN else Fin(Sum(data) / |data| as real)
  }

  /** The sample variance, with the n - 1 denominator. For no data the sum of
      squares is 0 and the division by -1 gives 0; for one value it is 0 / 0. */
  function Variance(data: seq<real>): (r: Ext)
    ensures |data| >= 2 ==> r.Fin? && r.v >= 0.0
  {
    if |data| == 0 then Fin(0.0)
    else Div(Fin(SumSquares(data, Sum(data) / |data| as real)), Fin(|data| as real - 1.0))
  }

  /** `Math.min(...data)`: +Infinity for no data. */
  function Minimum(data: seq<real>): Ext
  {
    if |data| == 0 then PosInf else Fin(SeqMin(data))
  }

  /** `Math.max(...data)`: -Infinity for no data. */
  function Maximum(data: seq<real>): Ext
  {
    if |data| == 0 then NegInf else Fin(SeqMax(data))
  }

  /** `(defects / iterations) * 1_000_000`. */
  function Dpmo(defects: nat, iterations: int): (r: Ext)
    ensures iterations > 0 ==> r.Fin? && r.v >= 0.0
    ensures iterations == 0 && defects == 0 ==> r.NaN?
  {
    Scale(1000000.0, Div(Fin(defects as real), Fin(iterations as real)))
  }

  /** The summary of the recorded outputs. */
  function Aggregate(data: seq<real>, defects: nat, config: SimulationConfig, sqrt: real -> real, now: int): (r: SimulationResult)
    ensures r.data == data && r.defects == defects && r.timestamp == now
    ensures |data| > 0 <==> r.mean.Fin?
  {
    var mean := Mean(data);
    var stdDev := Sqrt(sqrt, Variance(data));
    var cpu := Div(Sub(config.usl, mean), Scale(3.0, stdDev));
    var cpl := Div(Sub(mean, config.lsl), Scale(3.0, stdDev));
    var cpk := Min(cpu, cpl);
    SimulationResult(
      data, mean, stdDev, Minimum(data), Maximum(data),
      Div(Sub(config.usl, config.lsl), Scale(6.0, stdDev)),
      cpk, cpu, cpl, Scale(3.0, cpk), Dpmo(defects, config.iterations),
      defects, now)
  }

  /** `runSimulation`: `None` when the evaluator throws in some iteration. */
  function Simulate(vars: seq<InputVariable>, config: SimulationConfig, draw: (int, int) -> real,
                    evaluate: (string, map<string, real>) -> Option<real>, sqrt: real -> real, now: int): (r: Option<SimulationResult>)
    ensures Iterations(config) == 0 ==> r.Some? && r.value.data == [] && r.value.defects == 0
    ensures r.Some? ==> r.value.timestamp == now && r.value.defects == CountDefects(r.value.data, config)
  {
    match Outputs(vars, config, draw, evaluate, Iterations(config))
    case None => None
    case Some(data) => Some(Aggregate(data, CountDefects(data, config), config, sqrt, now))
  }

  /** `variables.forEach(v => { iterationInputs[v.name] = generateNormalRandom(v.mean, v.stdDev) })`. */
  method DrawInputs(vars: seq<InputVariable>, draw: (int, int) -> real, i: int) returns (inputs: map<string, real>)
    ensures inputs == Inputs(vars, draw, i, |vars|)
  {
    inputs := map[];
    var j := 0;
    while j < |vars|
      invariant 0 <= j <= |vars|
      invariant inputs == Inputs(vars, draw, i, j)
    {
      inputs := inputs[vars[j].name := Sample(draw(i, j), vars[j])];
      j := j + 1;
    }
  }

  lemma OutputsStep(vars: seq<InputVariable>, config: SimulationConfig, draw: (int, int) -> real,
                    evaluate: (string, map<string, real>) -> Option<real>, i: nat, data: seq<real>, y: real)
    requires Outputs(vars, config, draw, evaluate, i) == Some(data)
    requires Eval(vars, config, draw, evaluate, i) == Some(y)
    ensures Outputs(vars, config, draw, evaluate, i + 1) == Some(data + [y])
  {
  }

  /** The simulation loop. */
  method RunSimulation(vars: seq<InputVariable>, config: SimulationConfig, draw: (int, int) -> real,
                       evaluate: (string, map<string, real>) -> Option<real>, sqrt: real -> real, now: int)
    returns (result: Option<SimulationResult>)
    ensures result == Simulate(vars, config, draw, evaluate, sqrt, now)
  {
    var data: seq<real> := [];
    var defects: nat := 0;
    var i := 0;
    while i < config.iterations
      invariant 0 <= i <= Iterations(config)
      invariant Outputs(vars, config, draw, evaluate, i) == Some(data)
      invariant defects == CountDefects(data, config)
    {
      var inputs := DrawInputs(vars, draw, i);
      var y := evaluate(config.formula, inputs);
      if y.None? {
        assert Eval(vars, config, draw, evaluate, i).None?;
        OutputsCharacterised(vars, config, draw, evaluate, Iterations(config));
        SimulateOutcome(vars, config, draw, evaluate, sqrt, now);
        return None;
      }
      OutputsStep(vars, config, draw, evaluate, i, data, y.value);
      assert (data + [y.value])[..|data|] == data;
      data := data + [y.value];
      if Defective(y.value, config) {
        defects := defects + 1;
      }
      i := i + 1;
    }
    assert i == Iterations(config);
    SimulateOutcome(vars, config, draw, evaluate, sqrt, now);
    result := Some(Aggregate(data, defects, config, sqrt, now));
  }

  lemma SimulateOutcome(vars: seq<InputVariable>, config: SimulationConfig, draw: (int, int) -> real,
                        evaluate: (string, map<string, real>) -> Option<real>, sqrt: real -> real, now: int)
    ensures Outputs(vars, config, draw, evaluate, Iterations(config)).None? ==>
            Simulate(vars, config, draw, evaluate, sqrt, now) == None
    ensures Outputs(vars, config, draw, evaluate, Iterations(config)).Some? ==>
            var data := Outputs(vars, config, draw, evaluate, Iterations(config)).value;
            Simulate(vars, config, draw, evaluate, sqrt, now) == Some(Aggregate(data, CountDefects(data, config), config, sqrt, now))
  {
  }

  /** The simulation fails exactly when the evaluator throws in one of the
      iterations; otherwise output `i` is the evaluator's value in iteration `i`. */
  lemma {:induction false} OutputsCharacterised(vars: seq<InputVariable>, config: SimulationConfig, draw: (int, int) -> real,
                                                evaluate: (string, map<string, real>) -> Option<real>, n: nat)
    ensures Outputs(vars, config, draw, evaluate, n).None? <==>
            exists i :: 0 <= i < n && Eval(vars, config, draw, evaluate, i).None?
    ensures Outputs(vars, config, draw, evaluate, n).Some? ==>
            |Outputs(vars, config, draw, evaluate, n).value| == n &&
            forall i :: 0 <= i < n ==> Eval(vars, config, draw, evaluate, i) == Some(Outputs(vars, config, draw, evaluate, n).value[i])
  {
    if n > 0 {
      OutputsCharacterised(vars, config, draw, evaluate, n - 1);
    }
  }

  /** A completed simulation records one output per iteration, at most that many defects. */
  lemma SimulateShape(vars: seq<InputVariable>, config: SimulationConfig, draw: (int, int) -> real,
                      evaluate: (string, map<string, real>) -> Option<real>, sqrt: real -> real, now: int)
    ensures Simulate(vars, config, draw, evaluate, sqrt, now).None? <==>
            exists i :: 0 <= i < Iterations(config) && Eval(vars, config, draw, evaluate, i).None?
    ensures Simulate(vars, config, draw, evaluate, sqrt, now).Some? ==>
            var r := Simulate(vars, config, draw, evaluate, sqrt, now).value;
            |r.data| == Iterations(config) && r.defects <= |r.data| && r.timestamp == now &&
            forall i :: 0 <= i < |r.data| ==> Eval(vars, config, draw, evaluate, i) == Some(r.data[i])
  {
    OutputsCharacterised(vars, config, draw, evaluate, Iterations(config));
  }

  /** No defect is counted exactly when every output lies within the limits. */
  lemma {:induction false} NoDefectsIff(data: seq<real>, config: SimulationConfig)
    ensures CountDefects(data, config) == 0 <==> forall i :: 0 <= i < |data| ==> !Defective(data[i], config)
  {
    if |data| > 0 {
      var p := data[..|data| - 1];
      NoDefectsIff(p, config);
      assert forall i :: 0 <= i < |p| ==> p[i] == data[i];
    }
  }

  /** Every output is counted exactly when every output lies outside the limits. */
  lemma {:induction false} AllDefectsIff(data: seq<real>, config: SimulationConfig)
    ensures CountDefects(data, config) == |data| <==> forall i :: 0 <= i < |data| ==> Defective(data[i], config)
  {
    if |data| > 0 {
      var p := data[..|data| - 1];
      AllDefectsIff(p, config);
      assert forall i :: 0 <= i < |p| ==> p[i] == data[i];
    }
  }

  /** With no limits (lsl = -Infinity, usl = +Infinity) nothing is a defect. */
  lemma UnboundedNoDefects(data: seq<real>, config: SimulationConfig)
    requires config.lsl == NegInf && config.usl == PosInf
    ensures CountDefects(data, config) == 0
  {
    NoDefectsIff(data, config);
  }

  /** For a positive iteration count, DPMO is the defect rate scaled to a
      million, between 0 and 1,000,000, and 0 exactly when there is no defect. */
  lemma DpmoBounds(defects: nat, iterations: int)
    requires 0 < iterations && defects <= iterations
    ensures Dpmo(defects, iterations).Fin?
    ensures 0.0 <= Dpmo(defects, iterations).v <= 1000000.0
    ensures Dpmo(defects, iterations).v == 0.0 <==> defects == 0
  {
    var q := defects as real / iterations as real;
    assert q * iterations as real == defects as real;
    assert 0.0 <= q <= 1.0;
  }

  /** With no iterations the statistics are the host's values for no data:
      NaN mean, +Infinity minimum, -Infinity maximum, NaN DPMO. */
  lemma NoIterations(vars: seq<InputVariable>, config: SimulationConfig, draw: (int, int) -> real,
                     evaluate: (string, map<string, real>) -> Option<real>, sqrt: real -> real, now: int)
    requires config.iterations == 0
    ensures Simulate(vars, config, draw, evaluate, sqrt, now).Some?
    ensures var r := Simulate(vars, config, draw, evaluate, sqrt, now).value;
            r.data == [] && r.defects == 0 && r.mean.NaN? && r.min == PosInf && r.max == NegInf &&
            r.dpmo.NaN? && r.cpu.NaN? && r.cpl.NaN? && r.cpk.NaN? && r.sigmaLevel.NaN?
  {
  }

  /** A single output leaves the sample variance at 0 / 0: the standard
      deviation and every capability index are NaN, whatever the limits. */
  lemma SingleOutputNaN(data: seq<real>, defects: nat, config: SimulationConfig, sqrt: real -> real, now: int)
    requires |data| == 1
    ensures var r := Aggregate(data, defects, config, sqrt, now);
            r.stdDev.NaN? && r.cp.NaN? && r.cpu.NaN? && r.cpl.NaN? && r.cpk.NaN? && r.sigmaLevel.NaN?
  {
    assert data[..0] == [];
    assert Sum(data) == data[0];
    assert SumSquares(data, Sum(data) / 1.0) == Square(0.0);
  }

  /** For two outputs the n - 1 denominator makes the variance half the squared difference. */
  lemma TwoOutputsVariance(a: real, b: real)
    ensures Variance([a, b]) == Fin(Square(a - b) / 2.0)
  {
    var data := [a, b];
    assert data[..1] == [a] && [a][..0] == [];
    assert Sum([a]) == a;
    assert Sum(data) == a + b;
    var m := (a + b) / 2.0;
    assert Sum(data) / 2.0 == m;
    assert SumSquares([a], m) == Square(a - m);
    assert SumSquares(data, m) == Square(a - m) + Square(b - m);
    assert Square(a - m) + Square(b - m) == Square(a - b) / 2.0;
  }

  /** The mean of some outputs lies between their minimum and their maximum. */
  lemma MeanBetweenExtremes(data: seq<real>)
    requires |data| > 0
    ensures Mean(data).Fin? && Minimum(data).Fin? && Maximum(data).Fin?
    ensures Minimum(data).v <= Mean(data).v <= Maximum(data).v
  {
    var n := |data| as real;
    SumAtLeast(data, SeqMin(data));
    SumAtMost(data, SeqMax(data));
    DivBetween(Sum(data), n, SeqMin(data), SeqMax(data));
  }

  lemma DivBetween(s: real, n: real, lo: real, hi: real)
    requires n > 0.0 && n * lo <= s <= n * hi
    ensures lo <= s / n <= hi
  {
    var q := s / n;
    assert q * n == s;
    assert (q - lo) * n == s - lo * n;
    assert (hi - q) * n == hi * n - s;
  }

  /** Cpk never exceeds Cp, reaches it exactly when the process is centred
      between finite limits, and the sigma level is three times Cpk. */
  lemma CpkAtMostCp(data: seq<real>, defects: nat, config: SimulationConfig, sqrt: real -> real, now: int)
    requires config.lsl.Fin? && config.usl.Fin?
    requires |data| > 0
    requires Sqrt(sqrt, Variance(data)).Fin? && Sqrt(sqrt, Variance(data)).v > 0.0
    ensures var r := Aggregate(data, defects, config, sqrt, now);
            r.cp.Fin? && r.cpk.Fin? && r.sigmaLevel.Fin? && r.mean.Fin? &&
            r.cpk.v <= r.cp.v &&
            (r.cpk.v == r.cp.v <==> r.mean.v == (config.lsl.v + config.usl.v) / 2.0) &&
            r.sigmaLevel.v == 3.0 * r.cpk.v
  {
    var s := Sqrt(sqrt, Variance(data)).v;
    var m := Sum(data) / |data| as real;
    var l, u := config.lsl.v, config.usl.v;
    CapabilityArith(l, u, m, s);
  }

  lemma CapabilityArith(l: real, u: real, m: real, s: real)
    requires s > 0.0
    ensures var cpu, cpl, cp := (u - m) / (3.0 * s), (m - l) / (3.0 * s), (u - l) / (6.0 * s);
            cpu + cpl == 2.0 * cp && (cpu == cpl <==> m == (l + u) / 2.0)
  {
    var t := 3.0 * s;
    var cpu, cpl, cp := (u - m) / t, (m - l) / t, (u - l) / (6.0 * s);
    assert cpu * t == u - m;
    assert cpl * t == m - l;
    assert cp * (2.0 * t) == u - l;
    assert (cpu + cpl) * t == (2.0 * cp) * t;
    if cpu == cpl {
      assert u - m == m - l;
    }
  }

  /** With no limits and a positive spread every capability index is +Infinity. */
  lemma UnboundedCapability(data: seq<real>, defects: nat, config: SimulationConfig, sqrt: real -> real, now: int)
    requires config.lsl == NegInf && config.usl == PosInf
    requires |data| > 0
    requires Sqrt(sqrt, Variance(data)).Fin? && Sqrt(sqrt, Variance(data)).v > 0.0
    ensures var r := Aggregate(data, defects, config, sqrt, now);
            r.cp == PosInf && r.cpu == PosInf && r.cpl == PosInf && r.cpk == PosInf && r.sigmaLevel == PosInf
  {
  }

  /** The outputs of `n` iterations that all evaluate to `c`. */
  lemma {:induction false} ConstantOutputs(vars: seq<InputVariable>, config: SimulationConfig, draw: (int, int) -> real,
                                           evaluate: (string, map<string, real>) -> Option<real>, n: nat, c: real)
    requires forall i :: 0 <= i < n ==> Eval(vars, config, draw, evaluate, i) == Some(c)
    ensures Outputs(vars, config, draw, evaluate, n).Some?
    ensures |Outputs(vars, config, draw, evaluate, n).value| == n
    ensures forall i :: 0 <= i < n ==> Outputs(vars, config, draw, evaluate, n).value[i] == c
  {
    if n > 0 {
      ConstantOutputs(vars, config, draw, evaluate, n - 1, c);
    }
  }

  lemma {:induction false} SumSquaresConstant(data: seq<real>, c: real)
    requires forall i :: 0 <= i < |data| ==> data[i] == c
    ensures SumSquares(data, c) == 0.0
  {
    if |data| > 0 {
      SumSquaresConstant(data[..|data| - 1], c);
    }
  }

  /** A zero-spread variable draws its mean whatever the random source gives. */
  lemma {:induction false} ZeroSpreadInputs(vars: seq<InputVariable>, draw: (int, int) -> real, i: int, n: nat)
    requires n <= |vars|
    requires forall j :: 0 <= j < |vars| ==> vars[j].stdDev == 0.0
    ensures Inputs(vars, draw, i, n) == Inputs(vars, (_, _) => 0.0, 0, n)
  {
    if n > 0 {
      ZeroSpreadInputs(vars, draw, i, n - 1);
      assert Sample(draw(i, n - 1), vars[n - 1]) == vars[n - 1].mean;
    }
  }

  /** A degenerate scenario: transfer function `x`, limits 5 and 15, one
      variable `x` with mean 10 and no spread, 100 iterations. Every output is
      10, nothing is a defect and DPMO is 0; with `sqrt(0) = 0` the zero
      standard deviation drives Cp and Cpk to +Infinity. */
  lemma DegenerateScenario(draw: (int, int) -> real, evaluate: (string, map<string, real>) -> Option<real>, sqrt: real -> real, now: int)
    requires forall m: map<string, real> :: "x" in m ==> evaluate("x", m) == Some(m["x"])
    requires sqrt(0.0) == 0.0
    ensures var r := Simulate(DegenerateVars(), DegenerateConfig(), draw, evaluate, sqrt, now);
            r.Some? && |r.value.data| == 100 && (forall i :: 0 <= i < 100 ==> r.value.data[i] == 10.0) &&
            r.value.defects == 0 && r.value.dpmo == Fin(0.0) && r.value.mean == Fin(10.0) &&
            r.value.stdDev == Fin(0.0) && r.value.cp == PosInf && r.value.cpk == PosInf
  {
    var data := DegenerateOutputs(draw, evaluate);
    DegenerateStats(data, DegenerateConfig(), sqrt, now);
  }

  /** The scenario with spread: the same formula, limits and iteration count,
      with `x` drawn at mean 10 and standard deviation 5. The simulation
      completes with 100 outputs, and once some iteration's draw lies more
      than one standard deviation from the mean, its output falls outside
      [5, 15]: there is at least one defect and DPMO is positive. */
  lemma SpreadScenario(draw: (int, int) -> real, evaluate: (string, map<string, real>) -> Option<real>,
                       sqrt: real -> real, now: int, i: nat)
    requires forall m: map<string, real> :: "x" in m ==> evaluate("x", m) == Some(m["x"])
    requires i < 100 && (draw(i, 0) < -1.0 || draw(i, 0) > 1.0)
    ensures var r := Simulate(SpreadVars(), DegenerateConfig(), draw, evaluate, sqrt, now);
            r.Some? && |r.value.data| == 100 && r.value.defects >= 1 &&
            r.value.dpmo.Fin? && r.value.dpmo.v > 0.0
  {
    var vars, config := SpreadVars(), DegenerateConfig();
    forall j | 0 <= j < 100
      ensures Eval(vars, config, draw, evaluate, j) == Some(Sample(draw(j, 0), vars[0]))
    {
      var m := Inputs(vars, draw, j, 1);
      assert m == map[]["x" := Sample(draw(j, 0), vars[0])];
    }
    OutputsCharacterised(vars, config, draw, evaluate, 100);
    var data := Outputs(vars, config, draw, evaluate, 100).value;
    assert Eval(vars, config, draw, evaluate, i) == Some(data[i]);
    assert Defective(data[i], config);
    NoDefectsIff(data, config);
    DpmoBounds(CountDefects(data, config), 100);
  }

  function SpreadVars(): seq<InputVariable>
  {
    [InputVariable("1", "x", 10.0, 5.0)]
  }

  function DegenerateVars(): seq<InputVariable>
  {
    [InputVariable("1", "x", 10.0, 0.0)]
  }

  function DegenerateConfig(): SimulationConfig
  {
    SimulationConfig(Fin(5.0), Fin(15.0), "x", 100)
  }

  lemma DegenerateOutputs(draw: (int, int) -> real, evaluate: (string, map<string, real>) -> Option<real>) returns (data: seq<real>)
    requires forall m: map<string, real> :: "x" in m ==> evaluate("x", m) == Some(m["x"])
    ensures Outputs(DegenerateVars(), DegenerateConfig(), draw, evaluate, 100) == Some(data)
    ensures |data| == 100 && forall i :: 0 <= i < 100 ==> data[i] == 10.0
  {
    var vars, config := DegenerateVars(), DegenerateConfig();
    forall i | 0 <= i < 100
      ensures Eval(vars, config, draw, evaluate, i) == Some(10.0)
    {
      var m := Inputs(vars, draw, i, 1);
      assert m == map[]["x" := Sample(draw(i, 0), vars[0])];
      assert m["x"] == 10.0;
    }
    ConstantOutputs(vars, config, draw, evaluate, 100, 10.0);
    data := Outputs(vars, config, draw, evaluate, 100).value;
  }

  lemma DegenerateStats(data: seq<real>, config: SimulationConfig, sqrt: real -> real, now: int)
    requires config == DegenerateConfig()
    requires sqrt(0.0) == 0.0
    requires |data| == 100 && forall i :: 0 <= i < 100 ==> data[i] == 10.0
    ensures var r := Aggregate(data, CountDefects(data, config), config, sqrt, now);
            r.defects == 0 && r.dpmo == Fin(0.0) && r.mean == Fin(10.0) &&
            r.stdDev == Fin(0.0) && r.cp == PosInf && r.cpk == PosInf
  {
    NoDefectsIff(data, config);
    ConstantMoments(data, 10.0);
    DegenerateAggregate(data, CountDefects(data, config), config, sqrt, now);
  }

  lemma DegenerateAggregate(data: seq<real>, defects: nat, config: SimulationConfig, sqrt: real -> real, now: int)
    requires config == DegenerateConfig() && defects == 0
    requires Mean(data) == Fin(10.0) && Sqrt(sqrt, Variance(data)) == Fin(0.0)
    ensures var r := Aggregate(data, defects, config, sqrt, now);
            r.defects == 0 && r.dpmo == Fin(0.0) && r.mean == Fin(10.0) &&
            r.stdDev == Fin(0.0) && r.cp == PosInf && r.cpk == PosInf
  {
    assert Dpmo(0, 100) == Fin(0.0);
    ZeroSpreadIndices(Mean(data), Sqrt(sqrt, Variance(data)), config.lsl, config.usl);
  }

  /** With no spread and the mean strictly inside the limits, every index is +Infinity. */
  lemma ZeroSpreadIndices(mean: Ext, sd: Ext, lsl: Ext, usl: Ext)
    requires sd == Fin(0.0) && mean == Fin(10.0) && lsl == Fin(5.0) && usl == Fin(15.0)
    ensures Div(Sub(usl, lsl), Scale(6.0, sd)) == PosInf
    ensures Min(Div(Sub(usl, mean), Scale(3.0, sd)), Div(Sub(mean, lsl), Scale(3.0, sd))) == PosInf
  {
    assert Scale(3.0, sd) == Fin(0.0) && Scale(6.0, sd) == Fin(0.0);
  }

  /** Constant outputs: their mean is the constant and, from two on, their variance is 0. */
  lemma ConstantMoments(data: seq<real>, c: real)
    requires |data| >= 2 && forall i :: 0 <= i < |data| ==> data[i] == c
    ensures Mean(data) == Fin(c) && Variance(data) == Fin(0.0)
  {
    var n := |data| as real;
    SumConstant(data, c);
    assert Sum(data) / n == c;
    SumSquaresConstant(data, c);
  }
}
