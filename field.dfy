/** Arithmetic of the scalar field Fr of the engine: integers modulo the
    prime P.  Every element is kept in its reduced form 0 <= x < P.  No
    field inverse is needed anywhere in the model.

    The integer product under the reduction is written as repeated
    addition (`Prod`), and `ProdIsProduct` shows it is x * n.  Every ring
    law below is then proved by induction over linear arithmetic. */
module Field {

  /** The scalar-field modulus of BN254 (Bn256). */
  const P: int := 21888242871839275222246405745257275088548364400416034343698204186575808495617

  type Fr = x: int | 0 <= x < P

  function Add(a: Fr, b: Fr): Fr { (a + b) % P }

  function Mul(a: Fr, b: Fr): Fr { Prod(a, b) % P }

  /** v raised to the e-th power in the field. */
  function Pow(v: Fr, e: nat): Fr
  {
    if e == 0 then 1 else Mul(v, Pow(v, e - 1))
  }

  // ---- the integer product ----------------------------------------------

  /** x added to itself n times: the integer product x * n (see
      `ProdIsProduct`).  It is a proof device that keeps the ring laws in
      linear arithmetic, so `Mul` is not meant to be executed. */
  function Prod(x: int, n: nat): int
  {
    if n == 0 then 0 else Prod(x, n - 1) + x
  }

  lemma {:induction false} ProdIsProduct(x: int, n: nat)
    ensures Prod(x, n) == x * n
  {
    if n > 0 {
      ProdIsProduct(x, n - 1);
      assert x * n == x * (n - 1) + x;
    }
  }

  lemma {:induction false} ProdNonNegative(x: nat, n: nat)
    ensures Prod(x, n) >= 0
  {
    if n > 0 {
      ProdNonNegative(x, n - 1);
    }
  }

  lemma {:induction false} ProdOfZero(n: nat)
    ensures Prod(0, n) == 0
  {
    if n > 0 {
      ProdOfZero(n - 1);
    }
  }

  lemma {:induction false} ProdOfOne(n: nat)
    ensures Prod(1, n) == n
  {
    if n > 0 {
      ProdOfOne(n - 1);
    }
  }

  /** (x + y) * n == x * n + y * n */
  lemma {:induction false} ProdAddLeft(x: int, y: int, n: nat)
    ensures Prod(x + y, n) == Prod(x, n) + Prod(y, n)
  {
    if n > 0 {
      ProdAddLeft(x, y, n - 1);
    }
  }

  /** x * (m + n) == x * m + x * n */
  lemma {:induction false} ProdAddRight(x: int, m: nat, n: nat)
    ensures Prod(x, m + n) == Prod(x, m) + Prod(x, n)
  {
    if n > 0 {
      ProdAddRight(x, m, n - 1);
    }
  }

  lemma {:induction false} ProdComm(a: nat, b: nat)
    ensures Prod(a, b) == Prod(b, a)
  {
    if b > 0 {
      ProdComm(a, b - 1);
      ProdAddLeft(b - 1, 1, a);
      ProdOfOne(a);
    } else {
      ProdOfZero(a);
    }
  }

  lemma {:induction false} ProdAssoc(a: nat, b: nat, c: nat)
    ensures Prod(b, c) >= 0 && Prod(a, b) >= 0
    ensures Prod(Prod(a, b), c) == Prod(a, Prod(b, c))
  {
    ProdNonNegative(a, b);
    ProdNonNegative(b, c);
    if c > 0 {
      ProdAssoc(a, b, c - 1);
      ProdNonNegative(b, c - 1);
      ProdAddRight(a, Prod(b, c - 1), b);
    }
  }

  // ---- reduction lemmas ------------------------------------------------

  lemma ModAddReduce(x: int, y: int)
    ensures (x + y) % P == (x % P + y) % P
  {
    var q := x / P;
    assert x + y == q * P + (x % P + y);
  }

  lemma ModSumReduce(x: int, y: int)
    ensures (x + y) % P == (x % P + y % P) % P
  {
    ModAddReduce(x, y);
    ModAddReduce(y, x % P);
  }

  /** Reducing the multiplicand first does not change the product mod P. */
  lemma {:induction false} ProdModReduce(x: int, n: nat)
    ensures Prod(x, n) % P == Prod(x % P, n) % P
  {
    if n > 0 {
      ProdModReduce(x, n - 1);
      ModSumReduce(Prod(x, n - 1), x);
      ModSumReduce(Prod(x % P, n - 1), x % P);
    }
  }

  // ---- ring laws on Fr ---------------------------------------------------

  lemma AddAssoc(a: Fr, b: Fr, c: Fr)
    ensures Add(Add(a, b), c) == Add(a, Add(b, c))
  {
    ModAddReduce(a + b, c);
    ModAddReduce(b + c, a);
  }

  lemma AddZero(a: Fr)
    ensures Add(a, 0) == a && Add(0, a) == a
  {
  }

  lemma MulOne(a: Fr)
    ensures Mul(1, a) == a && Mul(a, 1) == a
  {
    ProdOfOne(a);
    assert Prod(a, 1) == Prod(a, 0) + a;
  }

  lemma MulZero(a: Fr)
    ensures Mul(0, a) == 0 && Mul(a, 0) == 0
  {
    ProdOfZero(a);
  }

  lemma MulComm(a: Fr, b: Fr)
    ensures Mul(a, b) == Mul(b, a)
  {
    ProdComm(a, b);
  }

  lemma MulAssoc(a: Fr, b: Fr, c: Fr)
    ensures Mul(Mul(a, b), c) == Mul(a, Mul(b, c))
  {
    ProdAssoc(a, b, c);
    var ab, bc := Prod(a, b), Prod(b, c);
    ProdModReduce(ab, c);
    ProdComm(a, bc % P);
    ProdModReduce(bc, a);
    ProdComm(a, bc);
  }

  lemma Distrib(a: Fr, b: Fr, c: Fr)
    ensures Mul(Add(b, c), a) == Add(Mul(b, a), Mul(c, a))
  {
    ProdModReduce(b + c, a);
    ProdAddLeft(b, c, a);
    ModSumReduce(Prod(b, a), Prod(c, a));
  }
}
