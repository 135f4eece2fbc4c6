/** The accessors of the `HashParams` trait that the in-circuit round
    function calls, on one record of parameter data. */
module HashParameters {
  import opened Field

  /** What an S-box layer raises each element to: `Alpha(d)` is x^d, and
      `AlphaInverse(e, d)` is x^e where e inverts d as an exponent. */
  datatype Sbox = Alpha(degree: nat) | AlphaInverse(exponent: nat, degree: nat)

  /** The exponent the S-box applies to each value. */
  function Exponent(s: Sbox): nat
  {
    match s
    case Alpha(d) => d
    case AlphaInverse(e, _) => e
  }

  /** Which custom gate, if any, the S-box gadget may use; it changes only
      the gates the gadget emits, never the values it computes. */
  datatype CustomGate = NoCustomGate | QuinticWidth4 | QuinticWidth3

  datatype HashParams = HashParams(
    numberOfFullRounds: nat,
    alpha: Sbox,
    alphaInv: Sbox,
    mdsMatrix: seq<seq<Fr>>,
    roundConstants: seq<seq<Fr>>,
    customGate: CustomGate)

  /** The shape the trait's types fix for a state of `width` elements:
      `[[Fr; WIDTH]; WIDTH]` for the matrix, `[Fr; WIDTH]` per constant set. */
  predicate Shaped(p: HashParams, width: nat)
  {
    && |p.mdsMatrix| == width
    && (forall i :: 0 <= i < width ==> |p.mdsMatrix[i]| == width)
    && (forall k :: 0 <= k < |p.roundConstants| ==> |p.roundConstants[k]| == width)
  }

  /** The shape, plus enough constant sets for every round index the round
      function passes to `constants_of_round`: sets 0 to R - 1 for R
      full rounds, and none at all when R = 1, since the loop then never
      runs. */
  predicate Fits(p: HashParams, width: nat)
  {
    && Shaped(p, width)
    && (p.numberOfFullRounds <= 1 || p.numberOfFullRounds <= |p.roundConstants|)
  }

  /** `constants_of_round(round)`. */
  function ConstantsOfRound(p: HashParams, round: nat): seq<Fr>
    requires round < |p.roundConstants|
  {
    p.roundConstants[round]
  }
}
