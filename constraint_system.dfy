/** The part of the constraint system the round function relies on: it
    allocates witness variables, and allocation can fail.  Gates, their
    wiring and the proof system behind them are not modelled; running out
    of room for variables stands for every `SynthesisError` the backend
    can raise. */
module ConstraintSystems {
  import opened Field
  import opened Results
  import opened LinearCombinations

  class ConstraintSystem {
    /** The witness: values of the variables allocated so far, indexed by
        variable id. */
    var assignment: seq<Fr>
    /** How many more variables the system can allocate. */
    var free: nat

    constructor (capacity: nat)
      ensures assignment == [] && free == capacity
    {
      assignment := [];
      free := capacity;
    }

    /** Allocates a fresh variable holding value; fails when the system is
        full, leaving it unchanged. */
    method Alloc(value: Fr) returns (r: Result<Var, SynthesisError>)
      modifies this
      ensures old(free) > 0 ==>
        r == Ok(|old(assignment)|) && assignment == old(assignment) + [value] && free == old(free) - 1
      ensures old(free) == 0 ==> r.Err? && assignment == old(assignment) && free == 0
    {
      if free == 0 {
        return Err(SynthesisError);
      }
      r := Ok(|assignment|);
      assignment := assignment + [value];
      free := free - 1;
    }
  }
}
