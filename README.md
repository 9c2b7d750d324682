# Active-space relabelling and stabilizer splitting (OpenFermion), in Dafny

This project models three small pieces of OpenFermion that work on symbolic
qubit and fermion operators:

- `operator_relabel`: the current active-space relabeller. Given the first
  active spatial orbital `a`, it drops every term that touches one of the
  frozen spin-orbitals `0 .. 2a-1`, and lowers every index of the other terms
  by `2a`.
- `relabel_qubitoperator` and `relabel_fermionoperator`: the older pair of
  relabellers. They do the same, one single-term operator at a time. They
  differ in how they check their arguments and in the order of those checks.
- `get_hamiltonian_subsets`: splits a qubit Hamiltonian by stabilizer support.
  For each stabilizer it keeps the Pauli strings that share no qubit with it.
  It also returns the strings that share a qubit with every stabilizer.

An operator is a finite map from a term to an opaque complex coefficient. A
term is a sequence of `Factor(index, tag)`; the empty sequence is the
identity term. The relabelling rule is generic in the tag, because the code
never looks at the Pauli letter or the ladder flag. `Relabeled(m, 2a)`
(in `ActiveSpace`) is the specification. Every relabelling loop is proved to
build exactly it, and its properties are proved once as lemmas.

Files:

- `operators.dfy`: the data model.
- `active_space.dfy`: the relabelling rule and its lemmas.
- `operator_relabel.dfy`: the current relabeller.
- `relabel_operators.dfy`: the legacy relabellers.
- `relabel_examples.dfy`: the legacy unit-test cases, stated as lemmas.
- `hamiltonian_stabilizers_sets.dfy`: the stabilizer split.

Each `Outcome` function states what an entry point returns or raises. Each
entry-point method is proved equal to its `Outcome`.

The qubit count that the host library's `count_qubits` computes is a
parameter `n`. The requires `QubitCount(m, n)` ties it to the operator: every
index is below `n`, and `n - 1` occurs whenever `n > 0`. So `n` is exactly
the host's count, and an operator with only the identity term has `n == 0`.

## Model

| member | source | states |
|---|---|---|
| ActiveSpace.Shift | src/openfermion/utils/operator_relabel.py:43-48 | each index of a surviving term is lowered by `2a`; the length, the order and every tag are kept |
| ActiveSpace.ShiftRoundTrip | src/openfermion/utils/operator_relabel.py:47 | adding `2a` back to every index gives back the original term |
| ActiveSpace.ShiftInjective | src/openfermion/utils/operator_relabel.py:119-130 | two surviving terms shift to the same term if and only if they are the same term, so the `+=` loop never merges two terms |
| ActiveSpace.ShiftIdentity | src/openfermion/utils/operator_relabel.py:37-38 | only the identity term shifts to the identity term |
| ActiveSpace.ShiftLabel | src/openfermion/utils/operator_relabel.py:42-50 | the factor loop gives None if and only if some index is below `2a`, and otherwise the shifted term |
| ActiveSpace.RelabeledAt | src/openfermion/utils/operator_relabel.py:119-128 | a surviving input term appears in the result, shifted, with its own coefficient |
| ActiveSpace.RelabeledFrom | src/openfermion/utils/operator_relabel.py:119-128 | every term of the result is the shift of some surviving input term |
| ActiveSpace.RelabeledExactly | src/openfermion/utils/operator_relabel.py:119-143 | the result maps `Shift(t)` to `c` for exactly the surviving input pairs `(t, c)` |
| ActiveSpace.RelabeledSingleton | src/openfermion/utils/_relabel_operators.py:48-58 | one term relabels to the one shifted term when it survives, and to the empty operator when it touches a frozen index |
| ActiveSpace.RelabeledDisjoint | src/openfermion/utils/_relabel_operators.py:86-90 | operators with no term in common still have no term in common after relabelling |
| ActiveSpace.RelabeledUnion | src/openfermion/utils/_relabel_operators.py:86-92 | relabelling a sum of operators with distinct terms gives the sum of their relabellings |
| ActiveSpace.RelabeledAddSurvivor | src/openfermion/utils/operator_relabel.py:127-128 | adding a new surviving term to the input adds its shift, with its coefficient, to the result, at a key the result did not have |
| ActiveSpace.RelabeledAddFrozen | src/openfermion/utils/operator_relabel.py:125-126 | adding a new frozen term to the input leaves the result unchanged |
| ActiveSpace.RelabeledAddTerm | src/openfermion/utils/_relabel_operators.py:88-90 | adding a new term to the input adds its own single-term relabelling to the result |
| ActiveSpace.RelabeledAddSize | src/openfermion/utils/operator_relabel.py:121-128 | one more input term gives one more result term exactly when that term survives |
| ActiveSpace.RelabeledSize | src/openfermion/utils/operator_relabel.py:119-143 | the result has exactly one term per surviving input term, so never more terms than the input |
| ActiveSpace.RelabelZeroIsIdentity | src/openfermion/utils/operator_relabel.py:44-48 | with `a = 0` the result equals the input |
| ActiveSpace.RelabelAllFrozen | src/openfermion/utils/operator_relabel.py:44-45 | when `2a` is at least the qubit count, only the identity term (if present) survives |
| OperatorRelabel.Truncate | src/openfermion/utils/operator_relabel.py:109-110 | `int()` of a float truncates toward zero: the result lies within 1 of the float and is no further from 0 than the float |
| OperatorRelabel.RelabelSingleTerm | src/openfermion/utils/operator_relabel.py:18-85 | the identity term comes back with its coefficient; None if and only if some index is below `2a`; otherwise the shifted term with its coefficient |
| OperatorRelabel.RelabelTerms | src/openfermion/utils/operator_relabel.py:119-143 | the loop over `operator.terms.items()` builds exactly `Relabeled(m, 2a)` |
| OperatorRelabel.RelabelOperator | src/openfermion/utils/operator_relabel.py:88-146 | `operator_relabel` returns or raises exactly what `Outcome` says |
| OperatorRelabel.OutcomeErrors | src/openfermion/utils/operator_relabel.py:109-117 | TypeError if and only if the boundary is neither int nor float or the argument is not an operator; ValueError if and only if `2a > n`; never IndexError |
| OperatorRelabel.OutcomeVariant | src/openfermion/utils/operator_relabel.py:119-143 | a result has the variant of the input and no more terms than it |
| OperatorRelabel.ZeroBoundaryIsIdentity | src/openfermion/utils/operator_relabel.py:109-130 | a boundary of 0, or a float that truncates to 0, returns the operator unchanged |
| OperatorRelabel.IdentityOnlyRaises | src/openfermion/utils/operator_relabel.py:114-117 | a qubit or fermion operator with only the identity term has qubit count 0, so any `a > 0` raises ValueError before the terms are looked at |
| LegacyRelabel.SingleKey | src/openfermion/utils/_relabel_operators.py:42 | a one-term operator is the single entry at its only key |
| LegacyRelabel.RelabelSingle | src/openfermion/utils/_relabel_operators.py:40-58 | the single-term helper body: ValueError for more than one term, IndexError for none, the identity term unchanged, ValueError when `2a > n`, else the relabelled term |
| LegacyRelabel.RelabelSinglePauli | src/openfermion/utils/_relabel_operators.py:18-58 | `_relabel_single_pauli`: TypeError unless given a qubit operator, otherwise the single-term outcome |
| LegacyRelabel.RelabelSingleFermi | src/openfermion/utils/_relabel_operators.py:95-134 | `_relabel_single_fermi`: TypeError unless given a fermion operator, otherwise the single-term outcome |
| LegacyRelabel.SingleOutcomeIdentity | src/openfermion/utils/_relabel_operators.py:42-43 | the identity term is returned as it is, before the boundary is checked, and that is also its relabelling |
| LegacyRelabel.SingleOutcomeOther | src/openfermion/utils/_relabel_operators.py:45-58 | any other single term raises ValueError when `2a > n` and is relabelled otherwise |
| LegacyRelabel.SingleOutcomeOfTerm | src/openfermion/utils/_relabel_operators.py:40-58 | on one term the helper raises if and only if the term is not the identity and `2a > n`, only ValueError, and otherwise returns the term's relabelling |
| LegacyRelabel.SumRelabeledTerms | src/openfermion/utils/_relabel_operators.py:86-92 | the loop that adds the helper's result for every term raises ValueError if and only if `2a > n` and some term is not the identity, and otherwise builds `Relabeled(m, 2a)` |
| LegacyRelabel.RelabelQubitOperator | src/openfermion/utils/_relabel_operators.py:61-92 | `relabel_qubitoperator` returns or raises exactly what `QubitOutcome` says |
| LegacyRelabel.RelabelFermionOperator | src/openfermion/utils/_relabel_operators.py:137-168 | `relabel_fermionoperator` returns or raises exactly what `FermionOutcome` says |
| LegacyRelabel.RelabelIdentityOnly | src/openfermion/utils/_relabel_operators_test.py:51 | an operator with only the identity term is its own relabelling, for any boundary |
| LegacyRelabel.LegacyDiffersFromCurrent | src/openfermion/utils/_relabel_operators.py:42-46 | on an int boundary, for a qubit operator (`relabel_qubitoperator`) and for a fermion operator (`relabel_fermionoperator`), the legacy and current relabellers disagree if and only if `2a > n` and there is no term but the identity; then the legacy one returns the operator unchanged and the current one raises ValueError |
| LegacyRelabel.LegacyZeroBoundaryIsIdentity | src/openfermion/utils/_relabel_operators_test.py:50 | with `a = 0` the legacy relabeller of the operator's variant returns a qubit or fermion operator unchanged |
| LegacyRelabel.FloatBoundary | src/openfermion/utils/_relabel_operators.py:80-81 | a float boundary raises TypeError in the legacy relabellers, while the current one treats it as its truncation |
| RelabelExamples.FermionShiftExample | src/openfermion/utils/_relabel_operators_test.py:47 | `2^ 3` at `a = 1` becomes `0^ 1` with the same coefficient |
| RelabelExamples.PauliShiftExample | src/openfermion/utils/_relabel_operators_test.py:77 | `X2 Y3` at `a = 1` becomes `X0 Y1` with the same coefficient |
| RelabelExamples.FrozenTermExample | src/openfermion/utils/_relabel_operators_test.py:48-49 | `3^ 2^ 0` at `a = 1` gives the empty operator, from the helper and from the entry point |
| RelabelExamples.IdentityOnlyExample | src/openfermion/utils/_relabel_operators_test.py:51 | the identity-only fermion operator `0.5` at `a = 3` comes back unchanged from `relabel_fermionoperator`, while `operator_relabel` raises ValueError on it |
| RelabelExamples.SingleHelperErrors | src/openfermion/utils/_relabel_operators_test.py:65-67 | the helper raises ValueError on two terms, and on `a = 2` with a given count of 3 |
| RelabelExamples.FrozenAndShifted | src/openfermion/utils/_relabel_operators_test.py:82 | two frozen terms, a surviving term that shifts onto the second frozen key, and the identity relabel to the shifted term plus the identity |
| RelabelExamples.CombinedExample | src/openfermion/utils/_relabel_operators_test.py:82 | `Z1 Z3 Z4 - X0 Y1 - X2 Y3 + 0.5` at `a = 1` gives `-X0 Y1 + 0.5` |
| HamiltonianStabilizerSets.StabilizerQubits | src/openfermion/measurements/_hamiltonian_stabilizers_sets.py:35 | the stabilizer's qubit list has one entry per factor and holds exactly the qubits the stabilizer acts on |
| HamiltonianStabilizerSets.CheckStabilizerOverlap | src/openfermion/measurements/_hamiltonian_stabilizers_sets.py:21-43 | IndexError if and only if the stabilizer has no term; otherwise true if and only if some qubit of the Pauli string is a qubit of the stabilizer's first term |
| HamiltonianStabilizerSets.OverlapsIsSharedSupport | src/openfermion/measurements/_hamiltonian_stabilizers_sets.py:37-43 | overlap means the two qubit supports intersect; the Pauli letters play no part |
| HamiltonianStabilizerSets.IdentityNeverOverlaps | src/openfermion/measurements/_hamiltonian_stabilizers_sets.py:38-43 | the identity string overlaps no stabilizer |
| HamiltonianStabilizerSets.SubsetFor | src/openfermion/measurements/_hamiltonian_stabilizers_sets.py:123-126 | the loop over the Hamiltonian for one stabilizer raises IndexError if and only if the Hamiltonian has a term and the stabilizer has none; otherwise it collects exactly the non-overlapping terms with their coefficients |
| HamiltonianStabilizerSets.CheckMissingPaulis | src/openfermion/measurements/_hamiltonian_stabilizers_sets.py:46-81 | the result holds exactly the Hamiltonian terms that are in no subset, with the Hamiltonian's coefficients |
| HamiltonianStabilizerSets.StabilizerList | src/openfermion/measurements/_hamiltonian_stabilizers_sets.py:117 | a stabilizer operator is split into one single-term stabilizer per term, in order; a list is taken as it is |
| HamiltonianStabilizerSets.Subsets | src/openfermion/measurements/_hamiltonian_stabilizers_sets.py:120-129 | one subset per stabilizer, in the stabilizers' order |
| HamiltonianStabilizerSets.GetHamiltonianSubsets | src/openfermion/measurements/_hamiltonian_stabilizers_sets.py:84-134 | `get_hamiltonian_subsets` returns or raises exactly what `Outcome` says |
| HamiltonianStabilizerSets.OutcomeErrors | src/openfermion/measurements/_hamiltonian_stabilizers_sets.py:111-125 | TypeError if and only if the Hamiltonian is not a qubit operator or the stabilizers are of another type; IndexError if and only if the Hamiltonian has a term and a listed stabilizer has none; never ValueError |
| HamiltonianStabilizerSets.SubsetsAvoidTheirStabilizer | src/openfermion/measurements/_hamiltonian_stabilizers_sets.py:120-129 | there is one subset per stabilizer, and subset `i` holds exactly the Hamiltonian terms that share no qubit with stabilizer `i`, with their coefficients |
| HamiltonianStabilizerSets.RestOverlapsEveryStabilizer | src/openfermion/measurements/_hamiltonian_stabilizers_sets.py:65-81 | the rest holds exactly the Hamiltonian terms that share a qubit with every stabilizer, with their coefficients |
| HamiltonianStabilizerSets.SplitCoversHamiltonian | src/openfermion/measurements/_hamiltonian_stabilizers_sets.py:74 | every Hamiltonian term is in the rest or in some subset, and the rest shares no term with any subset |
| HamiltonianStabilizerSets.IdentityInEverySubset | src/openfermion/measurements/_hamiltonian_stabilizers_sets.py:37-43 | the identity term is in every subset, and it is in the rest if and only if there is no stabilizer |
| HamiltonianStabilizerSets.NoStabilizers | src/openfermion/measurements/_hamiltonian_stabilizers_sets.py:120-132 | with no stabilizer there is no subset, and the rest is the whole Hamiltonian |
| HamiltonianStabilizerSets.EmptyHamiltonian | src/openfermion/measurements/_hamiltonian_stabilizers_sets.py:121-126 | an empty Hamiltonian never raises, even with a stabilizer that has no term; every subset and the rest are empty |

## Left out

- Host-library internals are not part of this model: `count_qubits` (taken as the parameter `n`), how QubitOperator and FermionOperator are built, and the parsing of the label strings the code builds. Terms are factor sequences throughout.
- Coefficients are opaque: no complex arithmetic is modelled. Within one call no two terms ever meet at the same key (`ShiftInjective`), so every `+=` is modelled as inserting a new term. The host's dropping of terms whose coefficient is close to zero during `+=` is left out.
- Iteration order over an operator's terms is not modelled: operators are Dafny maps. The results of both relabellers and the split do not depend on that order. The errors do not either, since any offending term raises the same exception.
- The legacy entry points also accept a Python list (`_relabel_operators.py:82`, `158`). That path relies on host behaviour that is not shown, so it is left out; any other argument raises TypeError, as modelled.
- `isinstance(True, int)` holds in Python, so a bool boundary behaves like 0 or 1. The model's `Scalar` has no separate bool case.
- Float boundaries are reals. An infinite or NaN float, on which `int()` raises, is not represented.
- `NotAnOperator` is assumed to be an argument that the host's `count_qubits` rejects with TypeError, so `operator_relabel` raises TypeError before its range check. Arguments that `count_qubits` accepts other than the two operator classes are not modelled; for them the source raises ValueError when `2a > n` (`operator_relabel.py:116-117`) and TypeError at line 146 otherwise.
- The per-term helpers of `operator_relabel.py` take `initial_num_qubits` and never read it, so the model does not take it.
- `_check_stabilizer_overlap` tests `qp == ()` for each factor (line 39). A factor is an (index, letter) pair, so that test never holds, and the branch is not modelled.
- Only qubit-operator items of a stabilizer list are modelled, each as its keys in iteration order, and no difference between a list, a tuple and a numpy array is modelled. Another operator whose factors are pairs (a FermionOperator, say) would be read by its indices at `_hamiltonian_stabilizers_sets.py:35` like a qubit operator; items of any other type fail there.
- CheckStabilizerOverlap takes the key of the Pauli string rather than a whole operator. The source helper would raise IndexError at `_hamiltonian_stabilizers_sets.py:38` on an operator with no term, and would read only the first key of an operator with several terms. Neither can happen through `get_hamiltonian_subsets`, which iterates one-term operators at line 124.
- The deep copies at `_hamiltonian_stabilizers_sets.py:117-118` need no counterpart: the model works on values, so the inputs cannot change.
- `src/openfermion/measurements/_quantum_subspace_expansion_test.py` (floating-point spectra, file input, a function not shown) and `src/openfermion/utils/operator_relabel_test.py` (no assertions) are not modelled.
