/** The in-circuit value type: a linear combination of circuit variables,
    sum of coeff * x_var over its terms plus a constant.  It is kept, as in
    the constraint-system library, as a list of (coefficient, variable)
    terms and a constant; the library's three primitives (`zero`,
    `add_assign_scaled`, `add_assign_constant`) are given here together with
    their meaning under an assignment of values to variables. */
module LinearCombinations {
  import opened Field

  /** A circuit variable, identified by its allocation index. */
  type Var = nat

  datatype Term = Term(coeff: Fr, variable: Var)

  datatype LinearCombination = LinearCombination(terms: seq<Term>, constant: Fr)

  /** The value the assignment gives to variable v (0 for an unallocated id). */
  function ValueOf(assignment: seq<Fr>, v: Var): Fr
  {
    if v < |assignment| then assignment[v] else 0
  }

  function SumTerms(ts: seq<Term>, assignment: seq<Fr>): Fr
  {
    if |ts| == 0 then 0
    else Add(Mul(ts[0].coeff, ValueOf(assignment, ts[0].variable)), SumTerms(ts[1..], assignment))
  }

  /** The value of lc when each variable takes its assignment value. */
  function Eval(lc: LinearCombination, assignment: seq<Fr>): Fr
  {
    Add(SumTerms(lc.terms, assignment), lc.constant)
  }

  /** Values(v, w)[i] is the value of v[i] under w. */
  function Values(v: seq<LinearCombination>, assignment: seq<Fr>): (r: seq<Fr>)
    ensures |r| == |v|
  {
    seq(|v|, i requires 0 <= i < |v| => Eval(v[i], assignment))
  }

  /** lc mentions only variables below n, i.e. already allocated ones. */
  predicate WellFormed(lc: LinearCombination, n: nat)
  {
    forall k :: 0 <= k < |lc.terms| ==> lc.terms[k].variable < n
  }

  predicate WellFormedVector(v: seq<LinearCombination>, n: nat)
  {
    forall i :: 0 <= i < |v| ==> WellFormed(v[i], n)
  }

  /** w extends w0: it holds every variable of w0, with the same value. */
  predicate Extends(w: seq<Fr>, w0: seq<Fr>)
  {
    |w0| <= |w| && w[..|w0|] == w0
  }

  // ---- the library's primitives -----------------------------------------

  /** `LinearCombination::zero()`: no terms and a zero constant. */
  function Zero(): (r: LinearCombination)
    ensures forall w :: Eval(r, w) == 0
    ensures forall n :: WellFormed(r, n)
  {
    LinearCombination([], 0)
  }

  /** The combination of one variable with coefficient 1. */
  function FromVariable(v: Var): (r: LinearCombination)
    ensures forall w :: v < |w| ==> Eval(r, w) == w[v]
    ensures WellFormed(r, v + 1)
  {
    var r := LinearCombination([Term(1, v)], 0);
    assert forall w :: v < |w| ==> Eval(r, w) == w[v] by {
      forall w | v < |w| ensures Eval(r, w) == w[v] {
        assert r.terms[1..] == [];
        MulOne(w[v]);
        AddZero(w[v]);
        assert SumTerms(r.terms, w) == Add(Mul(1, w[v]), SumTerms([], w));
      }
    }
    r
  }

  function ScaleTerms(ts: seq<Term>, factor: Fr): (r: seq<Term>)
    ensures |r| == |ts|
  {
    seq(|ts|, k requires 0 <= k < |ts| => Term(Mul(ts[k].coeff, factor), ts[k].variable))
  }

  /** `self.add_assign_scaled(other, factor)`: self + factor * other. */
  function AddAssignScaled(self: LinearCombination, other: LinearCombination, factor: Fr): LinearCombination
  {
    LinearCombination(self.terms + ScaleTerms(other.terms, factor),
                      Add(self.constant, Mul(other.constant, factor)))
  }

  /** `self.add_assign_constant(c)`: self + c. */
  function AddAssignConstant(self: LinearCombination, c: Fr): LinearCombination
  {
    LinearCombination(self.terms, Add(self.constant, c))
  }

  // ---- their semantics --------------------------------------------------

  lemma {:induction false} SumTermsAppend(xs: seq<Term>, ys: seq<Term>, w: seq<Fr>)
    ensures SumTerms(xs + ys, w) == Add(SumTerms(xs, w), SumTerms(ys, w))
  {
    if |xs| == 0 {
      assert xs + ys == ys;
      AddZero(SumTerms(ys, w));
    } else {
      assert (xs + ys)[1..] == xs[1..] + ys;
      SumTermsAppend(xs[1..], ys, w);
      AddAssoc(Mul(xs[0].coeff, ValueOf(w, xs[0].variable)), SumTerms(xs[1..], w), SumTerms(ys, w));
    }
  }

  lemma {:induction false} SumTermsScale(ts: seq<Term>, factor: Fr, w: seq<Fr>)
    ensures SumTerms(ScaleTerms(ts, factor), w) == Mul(SumTerms(ts, w), factor)
  {
    var s := ScaleTerms(ts, factor);
    if |ts| == 0 {
      MulZero(factor);
    } else {
      assert s[1..] == ScaleTerms(ts[1..], factor);
      SumTermsScale(ts[1..], factor, w);
      var c, x := ts[0].coeff, ValueOf(w, ts[0].variable);
      calc {
        SumTerms(s, w);
        Add(Mul(Mul(c, factor), x), Mul(SumTerms(ts[1..], w), factor));
        { MulAssoc(c, factor, x); MulComm(factor, x); MulAssoc(c, x, factor); }
        Add(Mul(Mul(c, x), factor), Mul(SumTerms(ts[1..], w), factor));
        { Distrib(factor, Mul(c, x), SumTerms(ts[1..], w)); }
        Mul(SumTerms(ts, w), factor);
      }
    }
  }

  /** Adding a scaled combination adds the scaled value, under every
      assignment. */
  lemma EvalAddAssignScaled(self: LinearCombination, other: LinearCombination, factor: Fr, w: seq<Fr>)
    ensures Eval(AddAssignScaled(self, other, factor), w)
         == Add(Eval(self, w), Mul(Eval(other, w), factor))
  {
    var sa, sb := SumTerms(self.terms, w), SumTerms(other.terms, w);
    var ca, cb := self.constant, other.constant;
    SumTermsAppend(self.terms, ScaleTerms(other.terms, factor), w);
    SumTermsScale(other.terms, factor, w);
    var fb, fc := Mul(sb, factor), Mul(cb, factor);
    calc {
      Eval(AddAssignScaled(self, other, factor), w);
      Add(Add(sa, fb), Add(ca, fc));
      { AddAssoc(sa, fb, Add(ca, fc)); AddAssoc(fb, ca, fc); }
      Add(sa, Add(Add(fb, ca), fc));
      { assert Add(fb, ca) == Add(ca, fb); AddAssoc(ca, fb, fc); }
      Add(sa, Add(ca, Add(fb, fc)));
      { AddAssoc(sa, ca, Add(fb, fc)); }
      Add(Add(sa, ca), Add(fb, fc));
      { Distrib(factor, sb, cb); }
      Add(Eval(self, w), Mul(Eval(other, w), factor));
    }
  }

  /** Adding a constant adds it to the value, under every assignment. */
  lemma EvalAddAssignConstant(self: LinearCombination, c: Fr, w: seq<Fr>)
    ensures Eval(AddAssignConstant(self, c), w) == Add(Eval(self, w), c)
  {
    AddAssoc(SumTerms(self.terms, w), self.constant, c);
  }

  lemma {:induction false} SumTermsExtend(ts: seq<Term>, w: seq<Fr>, ext: seq<Fr>)
    requires forall k :: 0 <= k < |ts| ==> ts[k].variable < |w|
    ensures SumTerms(ts, w + ext) == SumTerms(ts, w)
  {
    if |ts| > 0 {
      SumTermsExtend(ts[1..], w, ext);
    }
  }

  /** A combination over allocated variables keeps its value when more
      variables are allocated later. */
  lemma EvalExtend(lc: LinearCombination, w: seq<Fr>, ext: seq<Fr>)
    requires WellFormed(lc, |w|)
    ensures Eval(lc, w + ext) == Eval(lc, w)
  {
    SumTermsExtend(lc.terms, w, ext);
  }

  lemma ValuesExtend(v: seq<LinearCombination>, w: seq<Fr>, ext: seq<Fr>)
    requires WellFormedVector(v, |w|)
    ensures Values(v, w + ext) == Values(v, w)
  {
    forall i | 0 <= i < |v| ensures Values(v, w + ext)[i] == Values(v, w)[i] {
      EvalExtend(v[i], w, ext);
    }
  }

  lemma WellFormedAddAssignScaled(self: LinearCombination, other: LinearCombination, factor: Fr, n: nat)
    requires WellFormed(self, n) && WellFormed(other, n)
    ensures WellFormed(AddAssignScaled(self, other, factor), n)
  {
  }
}
