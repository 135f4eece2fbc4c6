/** The S-box gadget the round function calls.  Its source is not part of
    this model; this is a stand-in.  Each element is replaced by a freshly
    allocated variable whose witness value is the element's value raised
    to the S-box exponent, and the gadget fails as soon as an allocation
    fails.  One variable per element, and failure only from running out of
    room, are assumptions of this stand-in, not of the real gadget. */
module SboxGadget {
  import opened Field
  import opened Results
  import opened LinearCombinations
  import opened ConstraintSystems
  import opened HashParameters

  /** The native S-box layer: every value raised to the S-box exponent. */
  function SboxValues(power: Sbox, vals: seq<Fr>): (r: seq<Fr>)
    ensures |r| == |vals|
  {
    seq(|vals|, i requires 0 <= i < |vals| => Pow(vals[i], Exponent(power)))
  }

  /** `sbox(cs, power, state, None, custom_gate)`: the S-box over the whole
      state.  On success the new elements evaluate, under the extended
      witness, to the S-box of the old elements' values; it fails exactly
      when the system has no room for one variable per element. */
  method Sbox(cs: ConstraintSystem, power: Sbox, state: array<LinearCombination>, customGate: CustomGate)
    returns (r: Result<(), SynthesisError>)
    requires WellFormedVector(state[..], |cs.assignment|)
    modifies cs, state
    ensures r.Ok? <==> state.Length <= old(cs.free)
    ensures Extends(cs.assignment, old(cs.assignment))
    ensures r.Err? ==> forall i :: old(cs.free) <= i < state.Length ==> state[i] == old(state[i])
    ensures r.Ok? ==> && Extends(cs.assignment, old(cs.assignment))
                      && |cs.assignment| == |old(cs.assignment)| + state.Length
                      && cs.free == old(cs.free) - state.Length
                      && WellFormedVector(state[..], |cs.assignment|)
                      && Values(state[..], cs.assignment)
                         == SboxValues(power, Values(old(state[..]), old(cs.assignment)))
  {
    ghost var w0, s0 := cs.assignment, state[..];
    ghost var v0 := Values(s0, w0);
    var i := 0;
    while i < state.Length
      invariant 0 <= i <= state.Length
      invariant SboxProgress(power, s0, w0, v0, state[..], cs.assignment, i)
      invariant cs.free == old(cs.free) - i
    {
      SboxProgressValue(power, s0, w0, state[..], cs.assignment, i);
      var v := Eval(state[i], cs.assignment);
      var y := Pow(v, Exponent(power));
      ghost var s, w := state[..], cs.assignment;
      var alloc := cs.Alloc(y);
      if alloc.Err? {
        return Err(SynthesisError);
      }
      state[i] := FromVariable(alloc.value);
      assert state[..] == s[i := FromVariable(|w0| + i)];
      SboxProgressStep(power, s0, w0, v0, s, w, i, y);
      i := i + 1;
    }
    FreshVariablesValues(state[..], w0, cs.assignment, power, v0);
    return Ok(());
  }

  /** After i steps of the gadget's loop, starting from state s0 and
      witness w0 with values v0: the first i elements are the fresh
      variables |w0|, |w0| + 1, ..., each holding the S-box of its old
      value, and the remaining elements are untouched. */
  ghost predicate SboxProgress(power: Sbox, s0: seq<LinearCombination>, w0: seq<Fr>, v0: seq<Fr>,
                               s: seq<LinearCombination>, w: seq<Fr>, i: nat)
  {
    && |s| == |s0| == |v0| && i <= |s|
    && |w| == |w0| + i && Extends(w, w0)
    && (forall k :: 0 <= k < i ==> s[k] == FromVariable(|w0| + k))
    && (forall k :: 0 <= k < i ==> w[|w0| + k] == Pow(v0[k], Exponent(power)))
    && (forall k :: i <= k < |s| ==> s[k] == s0[k])
  }

  /** The element the loop reads next still has its old value. */
  lemma SboxProgressValue(power: Sbox, s0: seq<LinearCombination>, w0: seq<Fr>,
                          s: seq<LinearCombination>, w: seq<Fr>, i: nat)
    requires WellFormedVector(s0, |w0|)
    requires SboxProgress(power, s0, w0, Values(s0, w0), s, w, i) && i < |s|
    ensures Eval(s[i], w) == Values(s0, w0)[i]
  {
    assert w == w0 + w[|w0|..];
    EvalExtend(s0[i], w0, w[|w0|..]);
  }

  /** One loop step keeps the progress predicate. */
  lemma SboxProgressStep(power: Sbox, s0: seq<LinearCombination>, w0: seq<Fr>, v0: seq<Fr>,
                         s: seq<LinearCombination>, w: seq<Fr>, i: nat, y: Fr)
    requires SboxProgress(power, s0, w0, v0, s, w, i) && i < |s|
    requires y == Pow(v0[i], Exponent(power))
    ensures SboxProgress(power, s0, w0, v0, s[i := FromVariable(|w0| + i)], w + [y], i + 1)
  {
    var s', w' := s[i := FromVariable(|w0| + i)], w + [y];
    assert w'[..|w0|] == w[..|w0|];
    forall k | 0 <= k < i + 1 ensures s'[k] == FromVariable(|w0| + k) {
    }
    forall k | 0 <= k < i + 1 ensures w'[|w0| + k] == Pow(v0[k], Exponent(power)) {
      if k < i {
        assert w'[|w0| + k] == w[|w0| + k];
      }
    }
    forall k | i + 1 <= k < |s'| ensures s'[k] == s0[k] {
    }
  }

  /** The state the gadget leaves: element k is the k-th fresh variable,
      whose witness value is the S-box of the k-th old value. */
  lemma FreshVariablesValues(s: seq<LinearCombination>, w0: seq<Fr>, w: seq<Fr>, power: Sbox, v0: seq<Fr>)
    requires |w| == |w0| + |s| && |v0| == |s|
    requires forall k :: 0 <= k < |s| ==> s[k] == FromVariable(|w0| + k)
    requires forall k :: 0 <= k < |s| ==> w[|w0| + k] == Pow(v0[k], Exponent(power))
    ensures WellFormedVector(s, |w|)
    ensures Values(s, w) == SboxValues(power, v0)
  {
    forall k | 0 <= k < |s|
      ensures WellFormed(s[k], |w|) && Values(s, w)[k] == SboxValues(power, v0)[k]
    {
      assert |w0| + k < |w|;
    }
  }
}
