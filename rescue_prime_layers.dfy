/** The native (value-level) counterpart of the in-circuit round function:
    each layer it applies, the order in which it applies them, and the
    constant sets each iteration reads.  The gadget's contracts are stated
    against these definitions. */
module RescuePrimeLayers {
  import opened Field
  import opened HashParameters
  import opened SboxGadget

  function Min(a: nat, b: nat): nat { if a < b then a else b }

  /** Sum over j < n of row[j] * vals[j], accumulated left to right. */
  function DotPrefix(row: seq<Fr>, vals: seq<Fr>, n: nat): Fr
    requires n <= |row| && n <= |vals|
  {
    if n == 0 then 0 else Add(DotPrefix(row, vals, n - 1), Mul(row[n - 1], vals[n - 1]))
  }

  /** The weighted sum of vals by row, over the pairs a `zip` yields. */
  function Dot(row: seq<Fr>, vals: seq<Fr>): Fr
  {
    DotPrefix(row, vals, Min(|row|, |vals|))
  }

  /** The native affine layer: output i is sum over j of M[i][j] * vals[j]. */
  function NativeMatVec(matrix: seq<seq<Fr>>, vals: seq<Fr>): (r: seq<Fr>)
    ensures |r| == |matrix|
  {
    seq(|matrix|, i requires 0 <= i < |matrix| => Dot(matrix[i], vals))
  }

  /** Pairwise addition of the constants, over the pairs a `zip` yields;
      elements past the end of the constants are left alone. */
  function NativeAddConstants(vals: seq<Fr>, constants: seq<Fr>): (r: seq<Fr>)
    ensures |r| == |vals|
  {
    seq(|vals|, i requires 0 <= i < |vals| => if i < |constants| then Add(vals[i], constants[i]) else vals[i])
  }

  function Identity(n: nat): seq<seq<Fr>>
  {
    seq(n, i => seq(n, j => if i == j then 1 else 0))
  }

  lemma {:induction false} DotPrefixUnit(n: nat, i: nat, vals: seq<Fr>, k: nat)
    requires i < n == |vals| && k <= n
    ensures DotPrefix(Identity(n)[i], vals, k) == if i < k then vals[i] else 0
  {
    if k > 0 {
      DotPrefixUnit(n, i, vals, k - 1);
      var e := Identity(n)[i];
      if k - 1 == i {
        MulOne(vals[i]);
        AddZero(vals[i]);
      } else {
        MulZero(vals[k - 1]);
        AddZero(DotPrefix(e, vals, k - 1));
      }
    }
  }

  /** The identity matrix leaves every vector of its size unchanged. */
  lemma NativeMatVecIdentity(vals: seq<Fr>)
    ensures NativeMatVec(Identity(|vals|), vals) == vals
  {
    var n := |vals|;
    forall i | 0 <= i < n ensures NativeMatVec(Identity(n), vals)[i] == vals[i] {
      DotPrefixUnit(n, i, vals, n);
    }
  }

  // ---- the schedule of layers -------------------------------------------

  /** One layer of the round function.  An S-box layer records the power it
      applies and the custom gate it is handed; a constants layer records
      which `constants_of_round` set it adds. */
  datatype Layer = SboxLayer(power: Sbox, customGate: CustomGate) | MdsLayer | ConstantsLayer(round: nat)

  /** The six layers of loop iteration `round`, in order. */
  function IterationLayers(p: HashParams, round: nat): seq<Layer>
  {
    [SboxLayer(p.alpha, p.customGate), MdsLayer, ConstantsLayer(round),
     SboxLayer(p.alphaInv, p.customGate), MdsLayer, ConstantsLayer(round + 1)]
  }

  /** The layers of iterations 0, 1, ..., n - 1, in order. */
  function Schedule(p: HashParams, n: nat): (r: seq<Layer>)
    ensures |r| == 6 * n
  {
    if n == 0 then [] else Schedule(p, n - 1) + IterationLayers(p, n - 1)
  }

  /** Every constants layer names a set the parameters hold. */
  predicate ConstantsAvailable(p: HashParams, layers: seq<Layer>)
  {
    forall k :: 0 <= k < |layers| && layers[k].ConstantsLayer? ==> layers[k].round < |p.roundConstants|
  }

  function ApplyLayer(p: HashParams, vals: seq<Fr>, layer: Layer): seq<Fr>
    requires layer.ConstantsLayer? ==> layer.round < |p.roundConstants|
  {
    match layer
    case SboxLayer(power, _) => SboxValues(power, vals)
    case MdsLayer => NativeMatVec(p.mdsMatrix, vals)
    case ConstantsLayer(k) => NativeAddConstants(vals, ConstantsOfRound(p, k))
  }

  /** The layers applied one after another, first layer first. */
  function RunLayers(p: HashParams, layers: seq<Layer>, vals: seq<Fr>): seq<Fr>
    requires ConstantsAvailable(p, layers)
  {
    if |layers| == 0 then vals
    else
      var last := |layers| - 1;
      assert layers[last].ConstantsLayer? ==> layers[last].round < |p.roundConstants|;
      ApplyLayer(p, RunLayers(p, layers[..last], vals), layers[last])
  }

  /** The value the in-circuit round function must compute from state
      values vals: number_of_full_rounds() - 1 iterations of the schedule. */
  function NativeRoundFunction(p: HashParams, vals: seq<Fr>): seq<Fr>
    requires 1 <= p.numberOfFullRounds
    requires p.numberOfFullRounds == 1 || p.numberOfFullRounds <= |p.roundConstants|
  {
    ScheduleConstantsBound(p, p.numberOfFullRounds - 1);
    RunLayers(p, Schedule(p, p.numberOfFullRounds - 1), vals)
  }

  // ---- what the schedule promises --------------------------------------

  /** Iteration r occupies positions 6r .. 6r+5 of the schedule. */
  lemma {:induction false} ScheduleIteration(p: HashParams, n: nat, r: nat)
    requires r < n
    ensures Schedule(p, n)[6 * r .. 6 * r + 6] == IterationLayers(p, r)
  {
    if r < n - 1 {
      ScheduleIteration(p, n - 1, r);
      assert Schedule(p, n)[..6 * (n - 1)] == Schedule(p, n - 1);
    }
  }

  /** The schedule of m iterations is the start of the schedule of n >= m. */
  lemma {:induction false} SchedulePrefix(p: HashParams, m: nat, n: nat)
    requires m <= n
    ensures Schedule(p, m) == Schedule(p, n)[..6 * m]
  {
    if m < n {
      SchedulePrefix(p, m, n - 1);
      assert Schedule(p, n)[..6 * (n - 1)] == Schedule(p, n - 1);
    }
  }

  /** Over n iterations the constant sets read are 0 .. n: the last layer
      reads set n and no layer reads a higher one. */
  lemma {:induction false} ScheduleConstantsBound(p: HashParams, n: nat)
    ensures forall k :: 0 <= k < |Schedule(p, n)| && Schedule(p, n)[k].ConstantsLayer?
              ==> Schedule(p, n)[k].round <= n
    ensures n > 0 ==> Schedule(p, n)[6 * n - 1] == ConstantsLayer(n)
    ensures n < |p.roundConstants| ==> ConstantsAvailable(p, Schedule(p, n))
  {
    if n > 0 {
      ScheduleConstantsBound(p, n - 1);
      var s := Schedule(p, n);
      assert s == Schedule(p, n - 1) + IterationLayers(p, n - 1);
      assert forall k :: 0 <= k < 6 * (n - 1) ==> s[k] == Schedule(p, n - 1)[k];
    }
  }

  /** Adjacent iterations share a constant set: the last layer of
      iteration r and the third layer of iteration r + 1 both add set r + 1. */
  lemma AdjacentIterationsShareConstants(p: HashParams, n: nat, r: nat)
    requires r + 1 < n
    ensures Schedule(p, n)[6 * r + 5] == Schedule(p, n)[6 * (r + 1) + 2] == ConstantsLayer(r + 1)
  {
    ScheduleIteration(p, n, r);
    ScheduleIteration(p, n, r + 1);
    assert Schedule(p, n)[6 * r + 5] == Schedule(p, n)[6 * r .. 6 * r + 6][5];
    assert Schedule(p, n)[6 * (r + 1) + 2] == Schedule(p, n)[6 * (r + 1) .. 6 * (r + 1) + 6][2];
  }

  /** Running a + b runs a, then b on the result. */
  lemma {:induction false} RunLayersAppend(p: HashParams, a: seq<Layer>, b: seq<Layer>, vals: seq<Fr>)
    requires ConstantsAvailable(p, a) && ConstantsAvailable(p, b)
    ensures ConstantsAvailable(p, a + b)
    ensures RunLayers(p, a + b, vals) == RunLayers(p, b, RunLayers(p, a, vals))
  {
    if |b| == 0 {
      assert a + b == a;
    } else {
      var last := |b| - 1;
      RunLayersAppend(p, a, b[..last], vals);
      assert (a + b)[..|a + b| - 1] == a + b[..last];
      assert (a + b)[|a + b| - 1] == b[last];
    }
  }

  /** Loop iteration `round` written as one formula over native values:
      c' + M * (S^-1 (c + M * S(vals))), with c = constant set `round` and
      c' = constant set `round + 1`. */
  function NativeIteration(p: HashParams, round: nat, vals: seq<Fr>): seq<Fr>
    requires round + 1 < |p.roundConstants|
  {
    var afterForward := NativeAddConstants(NativeMatVec(p.mdsMatrix, SboxValues(p.alpha, vals)), ConstantsOfRound(p, round));
    NativeAddConstants(NativeMatVec(p.mdsMatrix, SboxValues(p.alphaInv, afterForward)), ConstantsOfRound(p, round + 1))
  }

  /** The schedule of n + 1 iterations is that of n followed by iteration
      n, as one formula. */
  lemma RunScheduleStep(p: HashParams, n: nat, vals: seq<Fr>)
    requires n + 1 < |p.roundConstants|
    ensures ConstantsAvailable(p, Schedule(p, n)) && ConstantsAvailable(p, Schedule(p, n + 1))
    ensures RunLayers(p, Schedule(p, n + 1), vals) == NativeIteration(p, n, RunLayers(p, Schedule(p, n), vals))
  {
    ScheduleConstantsBound(p, n);
    ScheduleConstantsBound(p, n + 1);
    RunIterationLayers(p, Schedule(p, n), n, vals);
  }

  /** Running the six layers of iteration `round` after any layers t. */
  lemma RunIterationLayers(p: HashParams, t: seq<Layer>, round: nat, vals: seq<Fr>)
    requires ConstantsAvailable(p, t) && round + 1 < |p.roundConstants|
    ensures ConstantsAvailable(p, t + IterationLayers(p, round))
    ensures RunLayers(p, t + IterationLayers(p, round), vals) == NativeIteration(p, round, RunLayers(p, t, vals))
  {
    var l0, l1, l2 := SboxLayer(p.alpha, p.customGate), MdsLayer, ConstantsLayer(round);
    var l3, l4, l5 := SboxLayer(p.alphaInv, p.customGate), MdsLayer, ConstantsLayer(round + 1);
    var x0 := RunLayers(p, t, vals);
    RunLayersSnoc(p, t, l0, vals);
    var t1 := t + [l0];
    var x1 := SboxValues(p.alpha, x0);
    RunLayersSnoc(p, t1, l1, vals);
    var t2 := t1 + [l1];
    var x2 := NativeMatVec(p.mdsMatrix, x1);
    RunLayersSnoc(p, t2, l2, vals);
    var t3 := t2 + [l2];
    var x3 := NativeAddConstants(x2, ConstantsOfRound(p, round));
    RunLayersSnoc(p, t3, l3, vals);
    var t4 := t3 + [l3];
    var x4 := SboxValues(p.alphaInv, x3);
    RunLayersSnoc(p, t4, l4, vals);
    var t5 := t4 + [l4];
    var x5 := NativeMatVec(p.mdsMatrix, x4);
    RunLayersSnoc(p, t5, l5, vals);
    assert RunLayers(p, t5 + [l5], vals) == NativeAddConstants(x5, ConstantsOfRound(p, round + 1));
    assert t5 + [l5] == t + IterationLayers(p, round);
  }

  /** Running one more layer applies it to the values so far. */
  lemma RunLayersSnoc(p: HashParams, layers: seq<Layer>, layer: Layer, vals: seq<Fr>)
    requires ConstantsAvailable(p, layers)
    requires layer.ConstantsLayer? ==> layer.round < |p.roundConstants|
    ensures ConstantsAvailable(p, layers + [layer])
    ensures RunLayers(p, layers + [layer], vals) == ApplyLayer(p, RunLayers(p, layers, vals), layer)
  {
    assert (layers + [layer])[..|layers|] == layers;
  }
}
