/** The in-circuit Rescue-Prime round function over a state of linear
    combinations: the affine layer `matrix_vector_product`, the
    round-constant additions, and `gadget_rescue_prime_round_function`,
    which interleaves them with the S-box gadget. */
module RescuePrimeCircuit {
  import opened Field
  import opened Results
  import opened LinearCombinations
  import opened ConstraintSystems
  import opened HashParameters
  import opened SboxGadget
  import opened RescuePrimeLayers

  // ---- the affine layer over linear combinations ------------------------

  /** Zero, then add v[j] scaled by row[j] for j = 0 .. n - 1. */
  function RowPrefix(row: seq<Fr>, v: seq<LinearCombination>, n: nat): LinearCombination
    requires n <= |row| && n <= |v|
  {
    if n == 0 then Zero() else AddAssignScaled(RowPrefix(row, v, n - 1), v[n - 1], row[n - 1])
  }

  /** The combination one matrix row makes of the snapshot v. */
  function Row(row: seq<Fr>, v: seq<LinearCombination>): LinearCombination
  {
    RowPrefix(row, v, Min(|row|, |v|))
  }

  /** The vector `matrix_vector_product` leaves: row i of the matrix
      applied to the snapshot v. */
  function MatVec(matrix: seq<seq<Fr>>, v: seq<LinearCombination>): (r: seq<LinearCombination>)
    ensures |r| == |matrix|
  {
    seq(|matrix|, i requires 0 <= i < |matrix| => Row(matrix[i], v))
  }

  predicate IsSquare(matrix: seq<seq<Fr>>, dim: nat)
  {
    |matrix| == dim && forall i :: 0 <= i < dim ==> |matrix[i]| == dim
  }

  /** `matrix_vector_product(matrix, vector)`: overwrites every entry with
      its matrix row applied to a snapshot taken before the first write.
      It takes no constraint system and never fails. */
  method MatrixVectorProduct(matrix: seq<seq<Fr>>, vector: array<LinearCombination>)
    returns (r: Result<(), SynthesisError>)
    requires IsSquare(matrix, vector.Length)
    modifies vector
    ensures r == Ok(())
    ensures vector[..] == MatVec(matrix, old(vector[..]))
  {
    var cloned := vector[..];
    for idx := 0 to vector.Length
      invariant forall i :: 0 <= i < idx ==> vector[i] == Row(matrix[i], cloned)
    {
      vector[idx] := Zero();
      for j := 0 to Min(|matrix[idx]|, |cloned|)
        invariant vector[idx] == RowPrefix(matrix[idx], cloned, j)
        invariant forall i :: 0 <= i < idx ==> vector[i] == Row(matrix[i], cloned)
      {
        vector[idx] := AddAssignScaled(vector[idx], cloned[j], matrix[idx][j]);
      }
    }
    return Ok(());
  }

  /** Output entry i evaluates, under any assignment, to
      sum over j of matrix[i][j] * (value of the old entry j). */
  lemma {:induction false} RowPrefixValue(row: seq<Fr>, v: seq<LinearCombination>, n: nat, w: seq<Fr>)
    requires n <= |row| && n <= |v|
    ensures Eval(RowPrefix(row, v, n), w) == DotPrefix(row, Values(v, w), n)
  {
    if n > 0 {
      RowPrefixValue(row, v, n - 1, w);
      EvalAddAssignScaled(RowPrefix(row, v, n - 1), v[n - 1], row[n - 1], w);
      MulComm(Eval(v[n - 1], w), row[n - 1]);
    }
  }

  /** The affine layer over combinations computes the native affine layer
      over their values, under any assignment. */
  lemma MatVecValues(matrix: seq<seq<Fr>>, v: seq<LinearCombination>, w: seq<Fr>)
    ensures Values(MatVec(matrix, v), w) == NativeMatVec(matrix, Values(v, w))
  {
    forall i | 0 <= i < |matrix|
      ensures Values(MatVec(matrix, v), w)[i] == NativeMatVec(matrix, Values(v, w))[i]
    {
      RowPrefixValue(matrix[i], v, Min(|matrix[i]|, |v|), w);
    }
  }

  /** Multiplying by the identity matrix leaves every entry's value
      unchanged, though the combinations themselves are rebuilt. */
  lemma MatVecIdentityValues(v: seq<LinearCombination>, w: seq<Fr>)
    ensures Values(MatVec(Identity(|v|), v), w) == Values(v, w)
  {
    MatVecValues(Identity(|v|), v, w);
    NativeMatVecIdentity(Values(v, w));
  }

  /** The terms a row collects: the snapshot's terms scaled by the row, in
      order, and nothing else. */
  function ScaledTerms(row: seq<Fr>, v: seq<LinearCombination>, n: nat): seq<Term>
    requires n <= |row| && n <= |v|
  {
    if n == 0 then [] else ScaledTerms(row, v, n - 1) + ScaleTerms(v[n - 1].terms, row[n - 1])
  }

  function Constants(v: seq<LinearCombination>): (r: seq<Fr>)
    ensures |r| == |v|
  {
    seq(|v|, j requires 0 <= j < |v| => v[j].constant)
  }

  /** Each output row is built from the zero combination: its terms are
      exactly the scaled terms of the snapshot and its constant is the
      weighted sum of the snapshot's constants. */
  lemma {:induction false} RowStructure(row: seq<Fr>, v: seq<LinearCombination>, n: nat)
    requires n <= |row| && n <= |v|
    ensures RowPrefix(row, v, n)
         == LinearCombination(ScaledTerms(row, v, n), DotPrefix(row, Constants(v), n))
  {
    if n > 0 {
      RowStructure(row, v, n - 1);
      MulComm(v[n - 1].constant, row[n - 1]);
    }
  }

  lemma {:induction false} RowPrefixWellFormed(row: seq<Fr>, v: seq<LinearCombination>, n: nat, m: nat)
    requires n <= |row| && n <= |v|
    requires WellFormedVector(v, m)
    ensures WellFormed(RowPrefix(row, v, n), m)
  {
    if n > 0 {
      RowPrefixWellFormed(row, v, n - 1, m);
      WellFormedAddAssignScaled(RowPrefix(row, v, n - 1), v[n - 1], row[n - 1], m);
    }
  }

  /** The affine layer introduces no variable its input did not mention. */
  lemma MatVecWellFormed(matrix: seq<seq<Fr>>, v: seq<LinearCombination>, m: nat)
    requires WellFormedVector(v, m)
    ensures WellFormedVector(MatVec(matrix, v), m)
  {
    forall i | 0 <= i < |matrix| ensures WellFormed(MatVec(matrix, v)[i], m) {
      RowPrefixWellFormed(matrix[i], v, Min(|matrix[i]|, |v|), m);
    }
  }

  // ---- round constants --------------------------------------------------

  /** The state after `s.add_assign_constant(c)` for each pair zipped from
      the state and the constants. */
  function AddConstants(v: seq<LinearCombination>, constants: seq<Fr>): (r: seq<LinearCombination>)
    ensures |r| == |v|
  {
    seq(|v|, i requires 0 <= i < |v| => if i < |constants| then AddAssignConstant(v[i], constants[i]) else v[i])
  }

  /** `for (s, c) in state.iter_mut().zip(constants) { s.add_assign_constant(c) }`. */
  method AddRoundConstants(state: array<LinearCombination>, constants: seq<Fr>)
    modifies state
    ensures state[..] == AddConstants(old(state[..]), constants)
  {
    ghost var s0 := state[..];
    for i := 0 to Min(state.Length, |constants|)
      invariant forall k :: 0 <= k < i ==> state[k] == AddAssignConstant(s0[k], constants[k])
      invariant forall k :: i <= k < state.Length ==> state[k] == s0[k]
    {
      state[i] := AddAssignConstant(state[i], constants[i]);
    }
  }

  /** Adding constants to the combinations adds them to the values. */
  lemma AddConstantsValues(v: seq<LinearCombination>, constants: seq<Fr>, w: seq<Fr>)
    ensures Values(AddConstants(v, constants), w) == NativeAddConstants(Values(v, w), constants)
  {
    forall i | 0 <= i < |v| && i < |constants|
      ensures Values(AddConstants(v, constants), w)[i] == NativeAddConstants(Values(v, w), constants)[i]
    {
      EvalAddAssignConstant(v[i], constants[i], w);
    }
  }

  lemma AddConstantsWellFormed(v: seq<LinearCombination>, constants: seq<Fr>, m: nat)
    requires WellFormedVector(v, m)
    ensures WellFormedVector(AddConstants(v, constants), m)
  {
  }

  // ---- the round function -----------------------------------------------

  /** The variables k iterations allocate: 2 * width each, one per state
      element in each of the two S-box layers. */
  function Allocations(width: nat, k: nat): nat
  {
    if k == 0 then 0 else Allocations(width, k - 1) + 2 * width
  }

  lemma {:induction false} AllocationsProduct(width: nat, k: nat)
    ensures Allocations(width, k) == 2 * width * k
  {
    if k > 0 {
      AllocationsProduct(width, k - 1);
      assert 2 * width * k == 2 * width * (k - 1) + 2 * width;
    }
  }

  lemma {:induction false} AllocationsMonotone(width: nat, a: nat, b: nat)
    requires a <= b
    ensures Allocations(width, a) <= Allocations(width, b)
  {
    if a < b {
      AllocationsMonotone(width, a, b - 1);
    }
  }

  /** The layers of one half of an iteration. */
  function HalfLayers(p: HashParams, power: Sbox, k: nat): seq<Layer>
  {
    [SboxLayer(power, p.customGate), MdsLayer, ConstantsLayer(k)]
  }

  lemma HalfStep(p: HashParams, trace: seq<Layer>, power: Sbox, k: nat, v0: seq<Fr>)
    requires ConstantsAvailable(p, trace) && k < |p.roundConstants|
    ensures ConstantsAvailable(p, trace + HalfLayers(p, power, k))
    ensures RunLayers(p, trace + HalfLayers(p, power, k), v0)
         == ApplyLayer(p, ApplyLayer(p, ApplyLayer(p, RunLayers(p, trace, v0),
              SboxLayer(power, p.customGate)), MdsLayer), ConstantsLayer(k))
  {
    var l0, l1, l2 := SboxLayer(power, p.customGate), MdsLayer, ConstantsLayer(k);
    RunLayersSnoc(p, trace, l0, v0);
    RunLayersSnoc(p, trace + [l0], l1, v0);
    RunLayersSnoc(p, trace + [l0, l1], l2, v0);
    assert trace + [l0] + [l1] == trace + [l0, l1];
    assert trace + [l0, l1] + [l2] == trace + HalfLayers(p, power, k);
  }

  /** What a failure in iteration `round` leaves, given what `Iteration`
      promises on failure: the layers run so far are a proper prefix of the
      schedule ending in an S-box layer, the layers before that S-box are
      the trace without its last layer, and the system could not hold all
      the iterations' variables. */
  lemma FailedIteration(p: HashParams, width: nat, round: nat, n: nat, trace: seq<Layer>,
                        layers: seq<Layer>, freeBefore: nat, free0: nat)
    requires round < n && trace == Schedule(p, round)
    requires || (layers == IterationLayers(p, round)[..1] && freeBefore < width)
             || (layers == IterationLayers(p, round)[..4] && freeBefore < 2 * width)
    requires freeBefore + Allocations(width, round) == free0
    ensures 0 < |trace + layers| < 6 * n
    ensures trace + layers == Schedule(p, n)[..|trace + layers|]
    ensures (trace + layers)[|trace + layers| - 1].SboxLayer?
    ensures (trace + layers)[..|trace + layers| - 1] == trace + layers[..|layers| - 1]
    ensures free0 < 2 * width * n
  {
    var j := |layers|;
    SchedulePrefix(p, round + 1, n);
    assert Schedule(p, round + 1) == trace + IterationLayers(p, round);
    assert (trace + IterationLayers(p, round))[..6 * round + j] == trace + layers;
    AllocationsMonotone(width, round + 1, n);
    AllocationsProduct(width, n);
  }

  /** The three steps the loop body writes out twice: the S-box with the
      given power, the MDS layer, then constant set k. */
  method HalfRound(cs: ConstraintSystem, params: HashParams, state: array<LinearCombination>, power: Sbox, k: nat)
    returns (r: Result<(), SynthesisError>)
    requires Shaped(params, state.Length) && k < |params.roundConstants|
    requires WellFormedVector(state[..], |cs.assignment|)
    modifies cs, state
    ensures r.Ok? <==> state.Length <= old(cs.free)
    ensures Extends(cs.assignment, old(cs.assignment))
    ensures r.Err? ==> forall i :: old(cs.free) <= i < state.Length ==> state[i] == old(state[i])
    ensures r.Ok? ==> && Extends(cs.assignment, old(cs.assignment))
                      && cs.free == old(cs.free) - state.Length
                      && WellFormedVector(state[..], |cs.assignment|)
                      && Values(state[..], cs.assignment)
                         == ApplyLayer(params, ApplyLayer(params, ApplyLayer(params,
                              Values(old(state[..]), old(cs.assignment)),
                              SboxLayer(power, params.customGate)), MdsLayer), ConstantsLayer(k))
  {
    // apply sbox
    r := SboxGadget.Sbox(cs, power, state, params.customGate);
    if r.Err? {
      return;
    }

    // mul by mds
    ghost var s1, w1 := state[..], cs.assignment;
    var _ := MatrixVectorProduct(params.mdsMatrix, state);
    MatVecValues(params.mdsMatrix, s1, w1);
    MatVecWellFormed(params.mdsMatrix, s1, |w1|);

    // round constants
    ghost var s2 := state[..];
    var constants := ConstantsOfRound(params, k);
    AddRoundConstants(state, constants);
    AddConstantsValues(s2, constants, w1);
    AddConstantsWellFormed(s2, constants, |w1|);
  }

  /** What an early return from a failing S-box leaves behind: `entered` is
      the state that S-box was given, whose values are the layers `before`
      run on v0, and the gadget rewrote at most the elements below freeAt, so
      every element from freeAt on is still the one it was given.  No layer
      ran after the S-box. */
  predicate StoppedAt(p: HashParams, before: seq<Layer>, s: seq<LinearCombination>,
                      entered: seq<LinearCombination>, freeAt: nat, w: seq<Fr>, v0: seq<Fr>)
  {
    && |entered| == |s| && freeAt < |s|
    && (forall i :: freeAt <= i < |s| ==> s[i] == entered[i])
    && ConstantsAvailable(p, before)
    && Values(entered, w) == RunLayers(p, before, v0)
  }

  /** The part of an iteration before its first S-box is empty; the part
      before its second S-box is the first half. */
  lemma IterationHalves(p: HashParams, trace: seq<Layer>, round: nat)
    ensures trace + IterationLayers(p, round)[..1][..0] == trace
    ensures trace + IterationLayers(p, round)[..4][..3] == trace + HalfLayers(p, p.alpha, round)
  {
    assert IterationLayers(p, round)[..4][..3] == HalfLayers(p, p.alpha, round);
  }

  /** Values of combinations over allocated variables survive a witness
      that only grew. */
  lemma ValuesStable(s: seq<LinearCombination>, w: seq<Fr>, w': seq<Fr>)
    requires WellFormedVector(s, |w|) && Extends(w', w)
    ensures Values(s, w') == Values(s, w)
  {
    assert w' == w + w'[|w|..];
    ValuesExtend(s, w, w'[|w|..]);
  }

  /** One pass of the loop body: both halves of iteration `round`.  On
      failure `layers` is the part of the iteration that ran, up to and
      including the failing S-box; `entered` is the state that S-box was
      handed and `freeAt` the room the system had then.  The state returned
      still holds `entered` from index `freeAt` on, so no layer ran after
      the failing S-box. */
  method Iteration(cs: ConstraintSystem, params: HashParams, state: array<LinearCombination>, round: nat,
                   ghost trace: seq<Layer>, ghost v0: seq<Fr>)
    returns (r: Result<(), SynthesisError>, ghost layers: seq<Layer>,
             ghost entered: seq<LinearCombination>, ghost freeAt: nat)
    requires Shaped(params, state.Length) && round + 1 < |params.roundConstants|
    requires WellFormedVector(state[..], |cs.assignment|)
    requires ConstantsAvailable(params, trace)
    requires Values(state[..], cs.assignment) == RunLayers(params, trace, v0)
    modifies cs, state
    ensures r.Ok? <==> 2 * state.Length <= old(cs.free)
    ensures Extends(cs.assignment, old(cs.assignment))
    ensures r.Ok? ==> && layers == IterationLayers(params, round)
                      && cs.free == old(cs.free) - 2 * state.Length
                      && WellFormedVector(state[..], |cs.assignment|)
                      && ConstantsAvailable(params, trace + layers)
                      && Values(state[..], cs.assignment) == RunLayers(params, trace + layers, v0)
    ensures r.Err? ==> || (layers == IterationLayers(params, round)[..1] && old(cs.free) < state.Length
                           && freeAt == old(cs.free) && entered == old(state[..]))
                       || (layers == IterationLayers(params, round)[..4] && old(cs.free) < 2 * state.Length
                           && freeAt == old(cs.free) - state.Length)
    ensures r.Err? ==> StoppedAt(params, trace + layers[..|layers| - 1], state[..], entered, freeAt, cs.assignment, v0)
  {
    entered, freeAt := [], 0;
    ghost var w0, s0 := cs.assignment, state[..];
    r := HalfRound(cs, params, state, params.alpha, round);
    if r.Err? {
      layers, entered, freeAt := IterationLayers(params, round)[..1], s0, old(cs.free);
      IterationHalves(params, trace, round);
      ValuesStable(s0, w0, cs.assignment);
      return;
    }
    HalfStep(params, trace, params.alpha, round, v0);
    ghost var mid := trace + HalfLayers(params, params.alpha, round);

    ghost var w1, s1, free1 := cs.assignment, state[..], cs.free;
    r := HalfRound(cs, params, state, params.alphaInv, round + 1);
    if r.Err? {
      layers, entered, freeAt := IterationLayers(params, round)[..4], s1, free1;
      IterationHalves(params, trace, round);
      ValuesStable(s1, w1, cs.assignment);
      return;
    }
    HalfStep(params, mid, params.alphaInv, round + 1, v0);
    layers := IterationLayers(params, round);
    assert mid + HalfLayers(params, params.alphaInv, round + 1) == trace + layers;
  }

  /** `gadget_rescue_prime_round_function(cs, params, state)`: for round in
      0 .. number_of_full_rounds() - 1 it applies the forward S-box, the
      MDS layer, constant set `round`, the inverse S-box, the MDS layer and
      constant set `round + 1`.  On success the state's values are the
      native round function of the old values; it fails exactly when the
      system cannot hold the 2 * WIDTH variables per iteration the S-boxes
      allocate, and then stops right after the failing S-box.  The ghost
      `trace` lists the layers applied, in order. */
  method RoundFunction(cs: ConstraintSystem, params: HashParams, state: array<LinearCombination>)
    returns (r: Result<(), SynthesisError>, ghost trace: seq<Layer>,
             ghost entered: seq<LinearCombination>, ghost freeAt: nat)
    requires Fits(params, state.Length)
    requires 1 <= params.numberOfFullRounds
    requires WellFormedVector(state[..], |cs.assignment|)
    modifies cs, state
    ensures r.Ok? <==> 2 * state.Length * (params.numberOfFullRounds - 1) <= old(cs.free)
    ensures r.Ok? ==> trace == Schedule(params, params.numberOfFullRounds - 1)
    ensures r.Err? ==> && 0 < |trace| < 6 * (params.numberOfFullRounds - 1)
                       && trace == Schedule(params, params.numberOfFullRounds - 1)[..|trace|]
                       && trace[|trace| - 1].SboxLayer?
    ensures r.Err? ==> StoppedAt(params, trace[..|trace| - 1], state[..], entered, freeAt, cs.assignment,
                                 Values(old(state[..]), old(cs.assignment)))
    ensures r.Ok? ==> && Extends(cs.assignment, old(cs.assignment))
                      && WellFormedVector(state[..], |cs.assignment|)
                      && Values(state[..], cs.assignment)
                         == NativeRoundFunction(params, Values(old(state[..]), old(cs.assignment)))
  {
    ghost var w0, v0 := cs.assignment, Values(state[..], cs.assignment);
    var n := params.numberOfFullRounds - 1;
    ghost var width := state.Length;
    trace, entered, freeAt := [], [], 0;
    for round := 0 to n
      invariant trace == Schedule(params, round)
      invariant Extends(cs.assignment, w0)
      invariant cs.free + Allocations(width, round) == old(cs.free)
      invariant WellFormedVector(state[..], |cs.assignment|)
      invariant ConstantsAvailable(params, trace)
      invariant Values(state[..], cs.assignment) == RunLayers(params, trace, v0)
    {
      ghost var layers, freeBefore := [], cs.free;
      r, layers, entered, freeAt := Iteration(cs, params, state, round, trace, v0);
      if r.Err? {
        FailedIteration(params, width, round, n, trace, layers, freeBefore, old(cs.free));
        trace := trace + layers;
        return;
      }
      trace := trace + layers;
    }
    ScheduleConstantsBound(params, n);
    AllocationsProduct(width, n);
    r := Ok(());
  }
}
