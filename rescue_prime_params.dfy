/** `RescuePrimeParams` and its constructor: two assertions, then a record
    built from copies of the arguments.  A failed assertion (a panic) is
    modelled as an error value naming the assertion that failed. */
module RescuePrimeParameters {
  import opened Field
  import opened Results

  datatype RescuePrimeParams = RescuePrimeParams(
    t: nat,                    // state size
    d: nat,                    // S-box degree
    dInv: nat,                 // inverse S-box exponent (four u64 limbs in the source)
    rounds: nat,
    mds: seq<seq<Fr>>,
    roundConstants: seq<seq<Fr>>)

  /** Which assertion of `new` failed. */
  datatype ParamsError = UnsupportedDegree | MdsRowCount

  /** The S-box degrees `new` accepts. */
  predicate SupportedDegree(d: nat)
  {
    d == 3 || d == 5
  }

  /** `RescuePrimeParams::new(t, d, d_inv, rounds, mds, round_constants)`.
      It succeeds exactly when the degree is 3 or 5 and the matrix has t
      rows, and then holds each argument unchanged; the degree is checked
      first.  Nothing else is checked: not the rows' lengths, nor the
      number or length of the constant sets. */
  function New(t: nat, d: nat, dInv: nat, rounds: nat, mds: seq<seq<Fr>>, roundConstants: seq<seq<Fr>>)
    : (r: Result<RescuePrimeParams, ParamsError>)
    ensures r.Ok? <==> SupportedDegree(d) && |mds| == t
    ensures !SupportedDegree(d) ==> r == Err(UnsupportedDegree)
    ensures SupportedDegree(d) && |mds| != t ==> r == Err(MdsRowCount)
    ensures r.Ok? ==> && r.value.t == t && r.value.d == d && r.value.dInv == dInv
                      && r.value.rounds == rounds && r.value.mds == mds
                      && r.value.roundConstants == roundConstants
  {
    if !SupportedDegree(d) then Err(UnsupportedDegree)
    else if |mds| != t then Err(MdsRowCount)
    else Ok(RescuePrimeParams(t, d, dInv, rounds, mds, roundConstants))
  }

  /** Every record `new` can return is rebuilt by `new` from its own
      fields, and those are exactly the records with a supported degree
      and t matrix rows. */
  lemma NewRoundTrip(p: RescuePrimeParams)
    ensures New(p.t, p.d, p.dInv, p.rounds, p.mds, p.roundConstants) == Ok(p)
        <==> SupportedDegree(p.d) && |p.mds| == p.t
  {
  }

  /** `new` accepts a matrix whose rows have the wrong length, and constant
      sets whose number and length bear no relation to t or rounds. */
  lemma NewChecksNothingElse()
    ensures New(2, 5, 1, 3, [[1], [1, 2, 3]], [[7]]).Ok?
    ensures New(3, 3, 1, 0, [[], [], []], []).Ok?
  {
  }
}
