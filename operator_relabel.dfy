/**
 * The current active-space relabeller (`operator_relabel`): it validates the
 * boundary and the operator once, then folds the per-term helper over every
 * term of a qubit or fermion operator.
 */
module OperatorRelabel {
  import opened Operators
  import opened ActiveSpace

  /** Python's `int(x)` on a float: truncation toward zero. */
  function Truncate(f: real): (r: int)
    ensures 0.0 <= f ==> r as real <= f < r as real + 1.0
    ensures f < 0.0 ==> r as real - 1.0 < f <= r as real
  {
    if f >= 0.0 then f.Floor else -((-f).Floor)
  }

  /** The boundary after the conversion the source applies: None when it raises TypeError. */
  function StartAsInt(start: Scalar): Option<int>
  {
    match start
    case IntValue(i) => Some(i)
    case FloatValue(f) => Some(Truncate(f))
    case OtherValue => None
  }

  /**
   * What `operator_relabel` returns or raises, given the qubit count `n` of
   * the operator. The range check comes before any term is looked at.
   */
  function Outcome(op: Operator, start: Scalar, n: nat): Result<Operator, Error>
  {
    match StartAsInt(start)
    case None => Err(TypeError)
    case Some(a) =>
      match op
      case NotAnOperator => Err(TypeError)
      case QubitOp(m) => if 2 * a > n then Err(ValueError) else Ok(QubitOp(Relabeled(m, 2 * a)))
      case FermionOp(m) => if 2 * a > n then Err(ValueError) else Ok(FermionOp(Relabeled(m, 2 * a)))
  }

  /**
   * The per-term helpers `_relabel_single_pauli` and `_relabel_single_fermion`:
   * the identity term comes back as it is, a term touching a frozen index
   * gives None, and any other term comes back shifted with its coefficient.
   */
  method RelabelSingleTerm<T>(t: Term<T>, c: Coeff, start: int) returns (r: Option<(Term<T>, Coeff)>)
    ensures t == [] ==> r == Some((t, c))
    ensures r.None? <==> exists k :: 0 <= k < |t| && t[k].index < 2 * start
    ensures r.Some? ==> Survives(t, 2 * start) && r.value == (Shift(t, 2 * start), c)
  {
    if t == [] {
      return Some((t, c));
    }
    var shifted := ShiftLabel(t, 2 * start);
    if shifted.None? {
      return None;
    }
    return Some((shifted.value, c));
  }

  /**
   * The loop of `operator_relabel` over `operator.terms.items()`: every
   * surviving term is added, relabelled, to an initially empty operator.
   */
  method RelabelTerms<T(==)>(m: Terms<T>, start: int) returns (out: Terms<T>)
    ensures out == Relabeled(m, 2 * start)
  {
    out := map[];
    var todo := m.Keys;
    assert m - todo == map[];
    while todo != {}
      invariant todo <= m.Keys
      invariant out == Relabeled(m - todo, 2 * start)
      decreases todo
    {
      var t :| t in todo;
      var done := m - todo;
      assert m - (todo - {t}) == done[t := m[t]];
      var term := RelabelSingleTerm(t, m[t], start);
      if term.Some? {
        RelabeledAddSurvivor(done, t, m[t], 2 * start);
        out := out[term.value.0 := term.value.1];
      } else {
        RelabeledAddFrozen(done, t, m[t], 2 * start);
      }
      todo := todo - {t};
    }
    assert m - todo == m;
  }

  /** `operator_relabel`, given the qubit count `n` that the host's `count_qubits` returns. */
  method RelabelOperator(op: Operator, start: Scalar, n: nat) returns (r: Result<Operator, Error>)
    requires OperatorQubitCount(op, n)
    ensures r == Outcome(op, start, n)
  {
    var a: int;
    match start {
      case IntValue(i) => a := i;
      case FloatValue(f) => a := Truncate(f);
      case OtherValue => return Err(TypeError);
    }
    // assumed: `count_qubits` raises TypeError for any argument other than the two operator classes
    if op.NotAnOperator? {
      return Err(TypeError);
    }
    if 2 * a > n {
      return Err(ValueError);
    }
    match op {
      case QubitOp(m) =>
        var out := RelabelTerms(m, a);
        return Ok(QubitOp(out));
      case FermionOp(m) =>
        var out := RelabelTerms(m, a);
        return Ok(FermionOp(out));
    }
  }

  /** The errors: TypeError for a bad boundary or a non-operator, ValueError exactly when `2a > n`. */
  lemma OutcomeErrors(op: Operator, start: Scalar, n: nat)
    ensures Outcome(op, start, n) == Err(TypeError) <==> start.OtherValue? || op.NotAnOperator?
    ensures Outcome(op, start, n) == Err(ValueError) <==>
      !op.NotAnOperator? && StartAsInt(start).Some? && 2 * StartAsInt(start).value > n
    ensures Outcome(op, start, n) != Err(IndexError)
  {
  }

  /**
   * A successful result is an operator of the input's variant, holding the
   * relabelled terms, never more of them than the input has.
   */
  lemma OutcomeVariant(op: Operator, start: Scalar, n: nat)
    requires Outcome(op, start, n).Ok?
    ensures op.QubitOp? <==> Outcome(op, start, n).value.QubitOp?
    ensures op.FermionOp? <==> Outcome(op, start, n).value.FermionOp?
    ensures op.QubitOp? ==> |Outcome(op, start, n).value.paulis| <= |op.paulis|
    ensures op.FermionOp? ==> |Outcome(op, start, n).value.fermions| <= |op.fermions|
  {
    var a := StartAsInt(start).value;
    match op
    case QubitOp(m) => RelabeledSize(m, 2 * a);
    case FermionOp(m) => RelabeledSize(m, 2 * a);
  }

  /** A boundary of zero (or a float that truncates to zero) leaves every operator as it is. */
  lemma ZeroBoundaryIsIdentity(op: Operator, start: Scalar, n: nat)
    requires !op.NotAnOperator? && StartAsInt(start) == Some(0)
    ensures Outcome(op, start, n) == Ok(op)
  {
    match op
    case QubitOp(m) => RelabelZeroIsIdentity(m);
    case FermionOp(m) => RelabelZeroIsIdentity(m);
  }

  /**
   * The range check runs before the terms are looked at: an operator with no
   * term other than the identity has no qubits, so any positive boundary
   * raises ValueError.
   */
  lemma IdentityOnlyRaises(op: Operator, a: int, n: nat)
    requires OperatorQubitCount(op, n) && !op.NotAnOperator?
    requires op.QubitOp? ==> forall t | t in op.paulis :: t == []
    requires op.FermionOp? ==> forall t | t in op.fermions :: t == []
    requires a > 0
    ensures n == 0
    ensures Outcome(op, IntValue(a), n) == Err(ValueError)
  {
  }
}
