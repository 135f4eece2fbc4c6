# Rescue-Prime round function in a constraint system, and its parameters

This project models two parts of a Rust library for the Rescue-Prime
permutation, which is used inside zero-knowledge proof systems. It proves
properties of both.

* **The in-circuit round function** (`rescue/src/circuit/rescue_prime.rs`).
  The permutation state is an array of `WIDTH` linear combinations of
  circuit variables. `matrix_vector_product` rewrites that array in place as
  the MDS matrix times a snapshot of it. `gadget_rescue_prime_round_function`
  runs `number_of_full_rounds() - 1` loop iterations. Each iteration applies,
  in this order: the forward S-box, the MDS layer, constant set `round`, the
  inverse S-box, the MDS layer, and constant set `round + 1`. The S-box
  gadget may fail, and the error is passed straight back to the caller.
* **`RescuePrimeParams::new`** (`rescue/src/rescue_prime_params.rs`). It
  asserts two things, then stores copies of its arguments.

The model is in these files:

| file | module | what |
|---|---|---|
| `field.dfy` | `Field` | the scalar field as integers mod P (P is the BN254 scalar-field prime); ring laws |
| `results.dfy` | `Results` | `Result` and the abstract `SynthesisError` |
| `linear_combination.dfy` | `LinearCombinations` | linear combinations; `zero`, `add_assign_scaled`, `add_assign_constant`; evaluation under an assignment |
| `constraint_system.dfy` | `ConstraintSystems` | a constraint system that allocates witness variables until its capacity runs out |
| `hash_params.dfy` | `HashParameters` | the `HashParams` accessors the round function reads |
| `sbox.dfy` | `SboxGadget` | the S-box gadget, described by the values it computes |
| `rescue_prime_layers.dfy` | `RescuePrimeLayers` | the native layers, the layer schedule of the loop, and lemmas about both |
| `rescue_prime_circuit.dfy` | `RescuePrimeCircuit` | `matrix_vector_product`, the constant additions and the round function |
| `rescue_prime_params.dfy` | `RescuePrimeParameters` | `RescuePrimeParams` and `new` |

Design choices:

* **Field.** Fr is the integers mod P. The integer product under the
  reduction is written as repeated addition (`Field.Prod`), and
  `Field.ProdIsProduct` proves it equals `x * n`. Every ring law (`MulAssoc`,
  `MulComm`, `Distrib`, ...) is then proved by induction over linear
  arithmetic.
* **Linear combination.** A list of (coefficient, variable) terms plus a
  constant, following the backend library. Its value under a witness is the
  sum of coefficient × value over the terms, plus the constant.
* **Constraint system.** Only its witness is modelled, as a sequence of
  values indexed by variable id, together with a budget of free variables.
  Allocation fails once the budget is used up. This is the only way a
  `SynthesisError` arises in the model.
* **S-box gadget.** Its source is not part of this model, so `SboxGadget.Sbox`
  is a stand-in with a body of its own. For each element it allocates a
  variable whose witness is the element's value raised to the S-box
  exponent, and puts that variable in the element's place. One variable per
  element, and failure only once the budget is used up, are assumptions of
  this modelled allocator, not promises of the source.
* **Native-value equivalence.** Every in-circuit step is proved to compute,
  under the witness, the matching native layer on plain field values.
  Chaining these steps gives the round function's postcondition: its
  output values equal `NativeRoundFunction` of its input values.

Where the Rescue-Prime specification and the code differ, the model follows
the code:

* The Rescue-Prime specification uses one constant vector per half-round, so
  round `r` adds constant sets `2r` and `2r + 1`.
* The code runs `number_of_full_rounds() - 1` iterations, and iteration `r`
  uses sets `r` and `r + 1`, so adjacent iterations share a set.

The native permutation that the code must agree with is not part of this
model, so this difference is not reported as a defect.

## Model

| member | source | states |
|---|---|---|
| `LinearCombinations.Zero` | rescue/src/circuit/rescue_prime.rs:18 | the zero combination has value 0 under every assignment and mentions no variable |
| `LinearCombinations.EvalAddAssignScaled` | rescue/src/circuit/rescue_prime.rs:20 | after `add_assign_scaled(lc, factor)` the value is the old value plus factor × value of lc, under every assignment |
| `LinearCombinations.EvalAddAssignConstant` | rescue/src/circuit/rescue_prime.rs:57 | after `add_assign_constant(c)` the value is the old value plus c, under every assignment |
| `LinearCombinations.EvalExtend` | rescue/src/circuit/rescue_prime.rs:43-49 | a combination over allocated variables keeps its value when the S-box allocates more variables |
| `RescuePrimeCircuit.MatrixVectorProduct` | rescue/src/circuit/rescue_prime.rs:10-25 | always returns `Ok`, takes no constraint system, and leaves entry i equal to row i of the matrix applied to the snapshot taken before the first write; the length stays DIM |
| `RescuePrimeCircuit.RowPrefixValue` | rescue/src/circuit/rescue_prime.rs:18-21 | after j steps of the inner loop, the entry's value is the sum over the first j columns of matrix[idx][col] × value of old vector[col] |
| `RescuePrimeCircuit.MatVecValues` | rescue/src/circuit/rescue_prime.rs:16-21 | under any assignment, output i has value sum over j of M[i][j] × value of old vector[j], which is the native affine layer |
| `RescuePrimeCircuit.RowStructure` | rescue/src/circuit/rescue_prime.rs:18-21 | each row starts from zero: its terms are exactly the snapshot's terms scaled by the row, in order, and its constant is the weighted sum of the snapshot's constants, so the old entry contributes only through the sum |
| `RescuePrimeCircuit.MatVecIdentityValues` | rescue/src/circuit/rescue_prime.rs:16-21 | the identity matrix leaves every entry's value unchanged under every assignment |
| `RescuePrimeCircuit.MatVecWellFormed` | rescue/src/circuit/rescue_prime.rs:16-21 | the affine layer mentions no variable that its input did not mention |
| `RescuePrimeLayers.NativeMatVecIdentity` | rescue/src/circuit/rescue_prime.rs:16-21 | the native affine layer with the identity matrix is the identity |
| `RescuePrimeCircuit.AddRoundConstants` | rescue/src/circuit/rescue_prime.rs:55-58 | each state element gets the matching constant added to its constant term, pairwise over the zipped pairs; nothing else changes |
| `RescuePrimeCircuit.AddConstantsValues` | rescue/src/circuit/rescue_prime.rs:56-57 | adding the constants to the combinations adds them pairwise to the values |
| `SboxGadget.Sbox` | rescue/src/circuit/rescue_prime.rs:43-49 | in the modelled allocator, succeeds exactly when the system has room for one variable per element; the witness only grows; on success each new element's value is the old value raised to the S-box exponent; on failure every element from the old free count on is untouched |
| `RescuePrimeCircuit.HalfRound` | rescue/src/circuit/rescue_prime.rs:43-58 | S-box, then MDS, then constant set k; in the modelled allocator it succeeds exactly when there is room for WIDTH variables; the witness only grows; if the S-box fails, the error is returned before any further layer, so every element from the old free count on is still the element it was given; otherwise the values are those three native layers applied in order |
| `RescuePrimeCircuit.Iteration` | rescue/src/circuit/rescue_prime.rs:40-75 | one loop pass runs the six layers of the iteration in order, or stops right after a failing S-box (the first or the fourth layer); in the modelled allocator it succeeds exactly when there is room for 2 × WIDTH variables; on failure the ghost outputs name the state the failing S-box was given and the free count it met: its values are the earlier layers run on the starting values, and from that count on the state still holds those elements, so no MDS or constant layer ran after the S-box |
| `RescuePrimeCircuit.FailedIteration` | rescue/src/circuit/rescue_prime.rs:39-66 | a failure in iteration r of n leaves a proper, non-empty prefix of the schedule that ends in an S-box layer, and the system started with fewer free variables than the n iterations need |
| `RescuePrimeCircuit.RoundFunction` | rescue/src/circuit/rescue_prime.rs:27-78 | in the modelled allocator, fails exactly when the system cannot hold 2 × WIDTH variables per iteration over `number_of_full_rounds() - 1` iterations; on failure the layers run are a proper prefix of the schedule ending in an S-box, the state that S-box was given has as values the layers before it run on the old values, and the elements the S-box did not reach are still that state's; on success the layers are the full schedule and the state's values are `NativeRoundFunction` of the old values |
| `RescuePrimeLayers.Schedule` | rescue/src/circuit/rescue_prime.rs:39 | n loop iterations apply exactly 6n layers |
| `RescuePrimeLayers.ScheduleIteration` | rescue/src/circuit/rescue_prime.rs:39-75 | iteration r holds positions 6r to 6r+5, in the order: sbox(alpha, custom_gate), MDS, constants r, sbox(alpha_inv, custom_gate), MDS, constants r+1 |
| `RescuePrimeLayers.SchedulePrefix` | rescue/src/circuit/rescue_prime.rs:39 | the layers of the first m iterations are the start of the layers of n ≥ m iterations |
| `RescuePrimeLayers.ScheduleConstantsBound` | rescue/src/circuit/rescue_prime.rs:55-72 | over n iterations no constant set above n is read and the last layer reads set n; so with `number_of_full_rounds()` ≤ the number of sets, every set read exists |
| `RescuePrimeLayers.AdjacentIterationsShareConstants` | rescue/src/circuit/rescue_prime.rs:55-72 | the last layer of iteration r and the third layer of iteration r+1 both add constant set r+1 |
| `RescuePrimeLayers.RunScheduleStep` | rescue/src/circuit/rescue_prime.rs:39-75 | running n+1 iterations means running n iterations and then c' + M·S⁻¹(c + M·S(x)), where c is set n and c' is set n+1 |
| `RescuePrimeParameters.New` | rescue/src/rescue_prime_params.rs:14-33 | succeeds exactly when d is 3 or 5 and mds has t rows (the degree is checked first); on success every field equals its argument |
| `RescuePrimeParameters.NewRoundTrip` | rescue/src/rescue_prime_params.rs:25-32 | `new` applied to a record's own fields gives that record back exactly when the record has a supported degree and t matrix rows |
| `RescuePrimeParameters.NewChecksNothingElse` | rescue/src/rescue_prime_params.rs:22-23 | `new` accepts ragged matrix rows, and any number or length of constant sets |

## Left out

- `rescue/src/lib.rs`: the serde wrappers (`BigArraySerde`, `ArrayVisitor`, the `serialize_*` and `deserialize_*` helpers) are left out. They are wire-format code over an external library.
- `rescue/src/tests.rs`: left out. It only sets up the RNG and a test constraint system.
- Constraint-system internals (gates, gate wiring, custom-gate encodings, the proof system) are left out. These are backend code that is not part of this model. `SynthesisError` is modelled only as running out of variables.
- `SboxGadget.Sbox`: the S-box gadget's source is not part of this model. `Sbox` is a stand-in body that fixes only the values it computes. The gates the real gadget emits, and how many variables it allocates, are left out.
- `SboxGadget.Sbox`: the failure condition (fails exactly when fewer free variables remain than state elements) is an assumption of the modelled allocator. The source only shows that the call may fail and that `?` passes the error on. The same holds for the success conditions of `RescuePrimeCircuit.HalfRound`, `RescuePrimeCircuit.Iteration` and `RescuePrimeCircuit.RoundFunction`, which are built on it. What the model promises about the source itself is the value equation on success, and on failure an early return right after an S-box: no later layer touches the state. Its `custom_gate` argument is passed through and recorded in the layer trace, but does not affect values.
- `SboxGadget.Sbox`: the `use_partial_state` argument is dropped. Both call sites pass `None`, which means the whole state.
- On failure, the elements the stand-in S-box already rewrote (those below the free count it met) are left unspecified. After an error the caller never reads them.
- The linear combination's cached `value: Option<Fr>` field is not kept. Values come from evaluation under the constraint system's witness instead.
- Field arithmetic uses integers mod the BN254 scalar prime. The source is generic over the engine. Montgomery form and limb encodings are left out.
- `RescuePrimeParameters.New`: `d_inv` is kept as the integer it encodes, not as four `u64` limbs. A failed `assert!` is modelled as an error value, not a panic.
- `HashParams` is modelled as a record holding only the accessors the round function calls. The native permutation, the sponge, `DomainStrategy` and the other `HashParams` implementations are not part of this model.
- `RescuePrimeCircuit.RoundFunction`: requires `number_of_full_rounds() ≥ 1`. Otherwise the `usize` subtraction on line 39 underflows. It also requires at least `number_of_full_rounds()` constant sets, the highest index the loop reads plus one, because `constants_of_round` would otherwise go out of bounds. With one full round the loop never runs, so no constant set is required.
- `RescuePrimeCircuit.RoundFunction`: the ghost outputs `trace`, `entered` and `freeAt` are instrumentation. They state which layers ran and what the failing S-box was given; the code itself returns only the result.
- Machine-integer widths (`usize`) are unbounded naturals throughout.
