/**
 * Splitting a qubit Hamiltonian by the support of its stabilizers
 * (`get_hamiltonian_subsets`): for every stabilizer, the Hamiltonian terms
 * that share no qubit with it, and apart from those the terms that share a
 * qubit with every stabilizer.
 */
module HamiltonianStabilizerSets {
  import opened Operators

  /**
   * The `stabilizers` argument. A QubitOperator is iterated one term at a
   * time, so it is kept as its keys in iteration order; a list, tuple or
   * array holds qubit operators, each kept as its keys in iteration order
   * (only the first key is ever read). Anything else is `StabOther`.
   */
  datatype StabilizerArg =
    | StabOperator(keys: seq<Term<Pauli>>)
    | StabSequence(items: seq<seq<Term<Pauli>>>)
    | StabOther

  /** What `get_hamiltonian_subsets` returns: one subset per stabilizer, and the rest. */
  datatype Split = Split(subsets: seq<Terms<Pauli>>, rest: Terms<Pauli>)

  /** The qubits the Pauli string `p` acts on include one the stabilizer string `s` acts on. */
  predicate Overlaps(p: Term<Pauli>, s: Term<Pauli>)
  {
    exists k | 0 <= k < |p| :: p[k].index in Support(s)
  }

  /** The qubit list `[qbt for (qbt, p) in ...]` of one stabilizer string. */
  function StabilizerQubits(s: Term<Pauli>): (r: seq<nat>)
    ensures |r| == |s|
    ensures forall q :: q in r <==> q in Support(s)
  {
    var r := seq(|s|, j requires 0 <= j < |s| => s[j].index);
    assert forall q | q in Support(s) :: q in r by {
      forall q | q in Support(s) ensures q in r {
        var j :| 0 <= j < |s| && s[j].index == q;
        assert r[j] == q;
      }
    }
    r
  }

  /**
   * `_check_stabilizer_overlap`, given the key of a one-term Pauli operator
   * and the keys of a stabilizer: IndexError when the stabilizer has no term,
   * otherwise whether the string shares a qubit with the stabilizer's first
   * term.
   */
  method CheckStabilizerOverlap(p: Term<Pauli>, stabilizer: seq<Term<Pauli>>) returns (r: Result<bool, Error>)
    ensures r.Err? <==> |stabilizer| == 0
    ensures r.Err? ==> r.error == IndexError
    ensures r.Ok? ==> (r.value <==> Overlaps(p, stabilizer[0]))
  {
    if |stabilizer| == 0 {
      // `list(stabilizer.terms.keys())[0]`
      return Err(IndexError);
    }
    var qubits := StabilizerQubits(stabilizer[0]);
    var overlap := false;
    for k := 0 to |p|
      invariant overlap <==> exists j | 0 <= j < k :: p[j].index in Support(stabilizer[0])
    {
      if p[k].index in qubits {
        overlap := true;
      }
    }
    return Ok(overlap);
  }

  /** The terms of `ham` that share no qubit with the stabilizer, with their coefficients. */
  function NonOverlapping(ham: Terms<Pauli>, stabilizer: seq<Term<Pauli>>): Terms<Pauli>
  {
    if |stabilizer| == 0 then map[]
    else map t | t in ham && !Overlaps(t, stabilizer[0]) :: ham[t]
  }

  /**
   * The loop `for pauli in ham: if _check_stabilizer_overlap(...) is False:
   * ham_subset += pauli` for one stabilizer. The overlap check raises on a
   * stabilizer with no term, but only once some Hamiltonian term is looked at.
   */
  method SubsetFor(ham: Terms<Pauli>, stabilizer: seq<Term<Pauli>>) returns (r: Result<Terms<Pauli>, Error>)
    ensures r.Err? <==> ham != map[] && |stabilizer| == 0
    ensures r.Err? ==> r.error == IndexError
    ensures r.Ok? ==> r.value == NonOverlapping(ham, stabilizer)
  {
    var subset: Terms<Pauli> := map[];
    var todo := ham.Keys;
    while todo != {}
      invariant todo <= ham.Keys
      invariant |stabilizer| == 0 ==> todo == ham.Keys
      invariant forall t | t in subset ::
        t in ham && t !in todo && subset[t] == ham[t] && |stabilizer| > 0 && !Overlaps(t, stabilizer[0])
      invariant |stabilizer| > 0 ==>
        forall t | t in ham && t !in todo && !Overlaps(t, stabilizer[0]) :: t in subset
      decreases todo
    {
      var t :| t in todo;
      var overlap := CheckStabilizerOverlap(t, stabilizer);
      if overlap.Err? {
        assert t in ham;
        return Err(overlap.error);
      }
      if !overlap.value {
        subset := subset[t := ham[t]];
      }
      todo := todo - {t};
    }
    if |stabilizer| == 0 {
      assert ham.Keys == {};
      assert subset == map[];
    }
    return Ok(subset);
  }

  /** Some subset holds the term `t`. */
  predicate InSomeSubset(t: Term<Pauli>, subsets: seq<Terms<Pauli>>)
  {
    exists i | 0 <= i < |subsets| :: t in subsets[i]
  }

  /** The terms of `ham` that no subset holds, with the Hamiltonian's coefficients. */
  function Rest(ham: Terms<Pauli>, subsets: seq<Terms<Pauli>>): Terms<Pauli>
  {
    map t | t in ham && !InSomeSubset(t, subsets) :: ham[t]
  }

  /**
   * `_check_missing_paulis`: the union of the subsets' keys is gathered, the
   * Hamiltonian's keys outside it are collected, and each is added with its
   * Hamiltonian coefficient.
   */
  method CheckMissingPaulis(ham: Terms<Pauli>, subsets: seq<Terms<Pauli>>) returns (left: Terms<Pauli>)
    ensures left == Rest(ham, subsets)
  {
    var covered: set<Term<Pauli>> := {};
    for i := 0 to |subsets|
      invariant forall t :: t in covered <==> exists j | 0 <= j < i :: t in subsets[j]
    {
      covered := covered + subsets[i].Keys;
    }
    var leftSet := ham.Keys - covered;
    left := map[];
    var todo := leftSet;
    while todo != {}
      invariant todo <= leftSet
      invariant forall t :: t in left <==> t in leftSet && t !in todo
      invariant forall t | t in left :: left[t] == ham[t]
      decreases todo
    {
      var p :| p in todo;
      left := left[p := ham[p]];
      todo := todo - {p};
    }
    assert left.Keys == Rest(ham, subsets).Keys;
  }

  /** The stabilizer list `list(copy.deepcopy(stabilizers))`, each stabilizer as its keys. */
  function StabilizerList(stabilizers: StabilizerArg): (r: seq<seq<Term<Pauli>>>)
    requires !stabilizers.StabOther?
    ensures stabilizers.StabOperator? ==>
      |r| == |stabilizers.keys| && forall i | 0 <= i < |r| :: r[i] == [stabilizers.keys[i]]
    ensures stabilizers.StabSequence? ==> r == stabilizers.items
  {
    match stabilizers
    case StabOperator(keys) => seq(|keys|, i requires 0 <= i < |keys| => [keys[i]])
    case StabSequence(items) => items
  }

  /** One subset per stabilizer, in the stabilizers' order. */
  function Subsets(ham: Terms<Pauli>, stabs: seq<seq<Term<Pauli>>>): (r: seq<Terms<Pauli>>)
    ensures |r| == |stabs|
    ensures forall i | 0 <= i < |stabs| :: r[i] == NonOverlapping(ham, stabs[i])
  {
    seq(|stabs|, i requires 0 <= i < |stabs| => NonOverlapping(ham, stabs[i]))
  }

  /** What `get_hamiltonian_subsets` returns or raises. */
  function Outcome(hamiltonian: Operator, stabilizers: StabilizerArg): Result<Split, Error>
  {
    if !hamiltonian.QubitOp? || stabilizers.StabOther? then Err(TypeError)
    else
      var ham := hamiltonian.paulis;
      var stabs := StabilizerList(stabilizers);
      if ham != map[] && exists i | 0 <= i < |stabs| :: |stabs[i]| == 0 then Err(IndexError)
      else Ok(Split(Subsets(ham, stabs), Rest(ham, Subsets(ham, stabs))))
  }

  /** `get_hamiltonian_subsets`. The inputs are values, so the deep copies it takes need no counterpart. */
  method GetHamiltonianSubsets(hamiltonian: Operator, stabilizers: StabilizerArg) returns (r: Result<Split, Error>)
    ensures r == Outcome(hamiltonian, stabilizers)
  {
    if !hamiltonian.QubitOp? {
      return Err(TypeError);
    }
    if stabilizers.StabOther? {
      return Err(TypeError);
    }
    var stabs := StabilizerList(stabilizers);
    var ham := hamiltonian.paulis;
    var subsets: seq<Terms<Pauli>> := [];
    for i := 0 to |stabs|
      invariant |subsets| == i
      invariant forall j | 0 <= j < i :: subsets[j] == NonOverlapping(ham, stabs[j])
      invariant ham != map[] ==> forall j | 0 <= j < i :: |stabs[j]| > 0
    {
      var subset := SubsetFor(ham, stabs[i]);
      if subset.Err? {
        return Err(subset.error);
      }
      subsets := subsets + [subset.value];
    }
    assert subsets == Subsets(ham, stabs);
    var rest := CheckMissingPaulis(ham, subsets);
    return Ok(Split(subsets, rest));
  }

  // ---------------------------------------------------------------------------
  // Properties of the split

  /** Overlap is a shared qubit index; the Pauli letters play no part. */
  lemma OverlapsIsSharedSupport(p: Term<Pauli>, s: Term<Pauli>)
    ensures Overlaps(p, s) <==> Support(p) * Support(s) != {}
  {
    if Overlaps(p, s) {
      var k :| 0 <= k < |p| && p[k].index in Support(s);
      assert p[k].index in Support(p) * Support(s);
    }
    if Support(p) * Support(s) != {} {
      var q :| q in Support(p) * Support(s);
      var k :| 0 <= k < |p| && p[k].index == q;
      assert p[k].index in Support(s);
      assert Overlaps(p, s);
    }
  }

  /** The identity string shares a qubit with no stabilizer. */
  lemma IdentityNeverOverlaps(s: Term<Pauli>)
    ensures !Overlaps([], s)
  {
  }

  /** The errors: TypeError for a bad argument, IndexError for a stabilizer with no term once the Hamiltonian has one. */
  lemma OutcomeErrors(hamiltonian: Operator, stabilizers: StabilizerArg)
    ensures Outcome(hamiltonian, stabilizers) == Err(TypeError) <==>
      !hamiltonian.QubitOp? || stabilizers.StabOther?
    ensures Outcome(hamiltonian, stabilizers) == Err(IndexError) <==>
      hamiltonian.QubitOp? && stabilizers.StabSequence? && hamiltonian.paulis != map[] &&
      exists i | 0 <= i < |stabilizers.items| :: stabilizers.items[i] == []
    ensures Outcome(hamiltonian, stabilizers) != Err(ValueError)
  {
    if hamiltonian.QubitOp? && stabilizers.StabOperator? {
      var stabs := StabilizerList(stabilizers);
      assert forall i | 0 <= i < |stabs| :: |stabs[i]| == 1;
    }
  }

  /**
   * Subset `i` holds exactly the Hamiltonian terms that share no qubit with
   * the first term of stabilizer `i`, each with its Hamiltonian coefficient.
   */
  lemma SubsetsAvoidTheirStabilizer(hamiltonian: Operator, stabilizers: StabilizerArg)
    requires Outcome(hamiltonian, stabilizers).Ok?
    ensures |Outcome(hamiltonian, stabilizers).value.subsets| == |StabilizerList(stabilizers)|
    ensures forall i, t | 0 <= i < |StabilizerList(stabilizers)| ::
      t in Outcome(hamiltonian, stabilizers).value.subsets[i] <==>
      t in hamiltonian.paulis && !Overlaps(t, StabilizerList(stabilizers)[i][0])
    ensures forall i, t | 0 <= i < |StabilizerList(stabilizers)| && t in Outcome(hamiltonian, stabilizers).value.subsets[i] ::
      Outcome(hamiltonian, stabilizers).value.subsets[i][t] == hamiltonian.paulis[t]
  {
    var ham := hamiltonian.paulis;
    var stabs := StabilizerList(stabilizers);
    forall i, t | 0 <= i < |stabs|
      ensures t in Subsets(ham, stabs)[i] <==> t in ham && !Overlaps(t, stabs[i][0])
    {
      if ham == map[] {
        assert t !in ham;
      } else {
        assert |stabs[i]| > 0;
      }
    }
  }

  /**
   * The rest holds exactly the Hamiltonian terms that share a qubit with
   * every stabilizer, each with its Hamiltonian coefficient.
   */
  lemma RestOverlapsEveryStabilizer(hamiltonian: Operator, stabilizers: StabilizerArg)
    requires Outcome(hamiltonian, stabilizers).Ok?
    ensures forall t :: t in Outcome(hamiltonian, stabilizers).value.rest <==>
      t in hamiltonian.paulis && forall i | 0 <= i < |StabilizerList(stabilizers)| ::
        Overlaps(t, StabilizerList(stabilizers)[i][0])
    ensures forall t | t in Outcome(hamiltonian, stabilizers).value.rest ::
      Outcome(hamiltonian, stabilizers).value.rest[t] == hamiltonian.paulis[t]
  {
    var ham := hamiltonian.paulis;
    var stabs := StabilizerList(stabilizers);
    var subs := Subsets(ham, stabs);
    SubsetsAvoidTheirStabilizer(hamiltonian, stabilizers);
    forall t | t in ham
      ensures InSomeSubset(t, subs) <==> exists i | 0 <= i < |stabs| :: !Overlaps(t, stabs[i][0])
    {
      if InSomeSubset(t, subs) {
        var i :| 0 <= i < |subs| && t in subs[i];
        assert !Overlaps(t, stabs[i][0]);
      }
      if exists i | 0 <= i < |stabs| :: !Overlaps(t, stabs[i][0]) {
        var i :| 0 <= i < |stabs| && !Overlaps(t, stabs[i][0]);
        assert t in subs[i];
      }
    }
  }

  /** Every Hamiltonian term is in the rest or in some subset, and the rest shares no term with any subset. */
  lemma SplitCoversHamiltonian(hamiltonian: Operator, stabilizers: StabilizerArg)
    requires Outcome(hamiltonian, stabilizers).Ok?
    ensures forall t | t in hamiltonian.paulis ::
      t in Outcome(hamiltonian, stabilizers).value.rest ||
      InSomeSubset(t, Outcome(hamiltonian, stabilizers).value.subsets)
    ensures forall i | 0 <= i < |Outcome(hamiltonian, stabilizers).value.subsets| ::
      Outcome(hamiltonian, stabilizers).value.rest.Keys !! Outcome(hamiltonian, stabilizers).value.subsets[i].Keys
  {
    var ham := hamiltonian.paulis;
    var subs := Subsets(ham, StabilizerList(stabilizers));
    forall i | 0 <= i < |subs|
      ensures Rest(ham, subs).Keys !! subs[i].Keys
    {
      forall t | t in Rest(ham, subs) ensures t !in subs[i] {
        assert !InSomeSubset(t, subs);
      }
    }
  }

  /** The identity term, when present, is in every subset and so never in the rest unless there is no stabilizer. */
  lemma IdentityInEverySubset(hamiltonian: Operator, stabilizers: StabilizerArg)
    requires Outcome(hamiltonian, stabilizers).Ok?
    requires [] in hamiltonian.paulis
    ensures forall i | 0 <= i < |Outcome(hamiltonian, stabilizers).value.subsets| ::
      [] in Outcome(hamiltonian, stabilizers).value.subsets[i]
    ensures [] in Outcome(hamiltonian, stabilizers).value.rest <==> |StabilizerList(stabilizers)| == 0
  {
    var e: Term<Pauli> := [];
    var ham := hamiltonian.paulis;
    var stabs := StabilizerList(stabilizers);
    var subs := Subsets(ham, stabs);
    assert Outcome(hamiltonian, stabilizers).value == Split(subs, Rest(ham, subs));
    forall i | 0 <= i < |subs| ensures e in subs[i] {
      assert |stabs[i]| > 0;
      IdentityNeverOverlaps(stabs[i][0]);
    }
    if |stabs| > 0 {
      assert e in subs[0];
      assert InSomeSubset(e, subs);
    }
  }

  /** With no stabilizer there is no subset, and the rest is the whole Hamiltonian. */
  lemma NoStabilizers(ham: Terms<Pauli>, stabilizers: StabilizerArg)
    requires !stabilizers.StabOther? && |StabilizerList(stabilizers)| == 0
    ensures Outcome(QubitOp(ham), stabilizers) == Ok(Split([], ham))
  {
    var subs := Subsets(ham, StabilizerList(stabilizers));
    assert subs == [];
    assert Rest(ham, subs) == ham;
  }

  /** An empty Hamiltonian never raises on a list of stabilizers: every subset and the rest are empty. */
  lemma EmptyHamiltonian(stabilizers: StabilizerArg)
    requires !stabilizers.StabOther?
    ensures Outcome(QubitOp(map[]), stabilizers).Ok?
    ensures forall i | 0 <= i < |Outcome(QubitOp(map[]), stabilizers).value.subsets| ::
      Outcome(QubitOp(map[]), stabilizers).value.subsets[i] == map[]
    ensures Outcome(QubitOp(map[]), stabilizers).value.rest == map[]
  {
    var stabs := StabilizerList(stabilizers);
    var e: Terms<Pauli> := map[];
    forall i | 0 <= i < |stabs| ensures NonOverlapping(e, stabs[i]) == map[] {
    }
    assert Rest(e, Subsets(e, stabs)) == map[];
  }
}
