/**
 * Symbolic operators as the relabelling and stabilizer-splitting code sees
 * them: a finite map from a term (an ordered sequence of indexed factors) to
 * an opaque coefficient. The operator classes themselves belong to the host
 * symbolic-algebra library; only the shape the core code relies on is kept.
 */
module Operators {

  datatype Option<+T> = None | Some(value: T)

  datatype Result<+R, +E> = Ok(value: R) | Err(error: E)

  /** The exceptions the core raises. */
  datatype Error = TypeError | ValueError | IndexError

  /** Pauli letter of a qubit-operator factor. */
  datatype Pauli = X | Y | Z

  /** Ladder flag of a fermion-operator factor: `3^` creates, `3` annihilates. */
  datatype Action = Annihilate | Create

  /** One factor of a term: a qubit or mode index and a tag the core never interprets. */
  datatype Factor<T> = Factor(index: nat, tag: T)

  /** A term; the empty sequence is the identity term. */
  type Term<T> = seq<Factor<T>>

  /** A complex coefficient, kept opaque: no arithmetic on it is modelled. */
  datatype Coeff = Coeff(re: real, im: real)

  /** The `terms` dictionary of an operator. */
  type Terms<T(==)> = map<Term<T>, Coeff>

  /**
   * The value passed where an operator is expected. `NotAnOperator` stands for
   * an argument that the host's `count_qubits` rejects with TypeError.
   */
  datatype Operator =
    | QubitOp(paulis: Terms<Pauli>)
    | FermionOp(fermions: Terms<Action>)
    | NotAnOperator

  /** The value passed as `active_space_start`, by its Python type. */
  datatype Scalar = IntValue(i: int) | FloatValue(f: real) | OtherValue

  /** The set of indices a term acts on. */
  function Support<T>(t: Term<T>): set<nat>
  {
    set k | 0 <= k < |t| :: t[k].index
  }

  /**
   * `n` is what the host's `count_qubits` returns for these terms: one more
   * than the largest index that occurs, or 0 when no index occurs.
   */
  predicate QubitCount<T(==)>(m: Terms<T>, n: nat)
  {
    && (forall t: Term<T>, k: int | t in m && 0 <= k < |t| :: t[k].index < n)
    && (n > 0 ==> exists t: Term<T>, k: int | t in m && 0 <= k < |t| :: t[k].index == n - 1)
  }

  predicate OperatorQubitCount(op: Operator, n: nat)
  {
    match op
    case QubitOp(m) => QubitCount(m, n)
    case FermionOp(m) => QubitCount(m, n)
    case NotAnOperator => true
  }

  /** Two maps with disjoint keys that together make up `r`, each agreeing with it, sum to `r`. */
  lemma SumOfParts<K, V>(r: map<K, V>, r1: map<K, V>, r2: map<K, V>)
    requires r1.Keys !! r2.Keys
    requires forall u | u in r1 :: u in r && r[u] == r1[u]
    requires forall u | u in r2 :: u in r && r[u] == r2[u]
    requires forall u | u in r :: u in r1 || u in r2
    ensures r == r1 + r2
  {
    assert r.Keys == (r1 + r2).Keys;
  }

  /** Updating a map is adding a one-entry map to it. */
  lemma UpdateIsSum<K, V>(r: map<K, V>, k: K, v: V)
    ensures r[k := v] == r + map[k := v]
  {
  }
}
