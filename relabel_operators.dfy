/**
 * The legacy relabellers `relabel_qubitoperator` and `relabel_fermionoperator`.
 * They accept only an `int` boundary, call a single-term helper once per
 * term, and let that helper return the identity term before it checks the
 * boundary against the qubit count.
 */
module LegacyRelabel {
  import opened Operators
  import opened ActiveSpace
  import OperatorRelabel

  /**
   * What the single-term helpers `_relabel_single_pauli` and
   * `_relabel_single_fermi` return or raise for the terms `m` of an operator
   * of their variant.
   */
  function SingleOutcome<T(==)>(m: Terms<T>, start: int, n: int): Result<Terms<T>, Error>
  {
    if |m| > 1 then Err(ValueError)
    else if |m| == 0 then Err(IndexError)
    else if [] in m then Ok(m)
    else if 2 * start > n then Err(ValueError)
    else Ok(Relabeled(m, 2 * start))
  }

  /** A map with one key holds exactly that key. */
  lemma SingleKey<T>(m: Terms<T>, t: Term<T>)
    requires |m| == 1 && t in m
    ensures m == map[t := m[t]]
  {
    var rest := m.Keys - {t};
    assert |rest| == 0;
    assert m.Keys == {t};
  }

  /** The common body of the two single-term helpers, once the variant is checked. */
  method RelabelSingle<T(==)>(m: Terms<T>, start: int, n: int) returns (r: Result<Terms<T>, Error>)
    ensures r == SingleOutcome(m, start, n)
  {
    if |m| > 1 {
      return Err(ValueError);
    }
    if |m| == 0 {
      // `list(operator.terms.keys())[0]` on an empty operator
      return Err(IndexError);
    }
    var t :| t in m;
    SingleKey(m, t);
    if t == [] {
      return Ok(m);
    }
    if 2 * start > n {
      return Err(ValueError);
    }
    RelabeledSingleton(t, m[t], 2 * start);
    var shifted := ShiftLabel(t, 2 * start);
    if shifted.None? {
      return Ok(map[]);
    }
    return Ok(map[shifted.value := m[t]]);
  }

  /** `_relabel_single_pauli`: TypeError unless given a qubit operator. */
  method RelabelSinglePauli(op: Operator, start: int, n: int) returns (r: Result<Operator, Error>)
    ensures !op.QubitOp? ==> r == Err(TypeError)
    ensures op.QubitOp? ==> match SingleOutcome(op.paulis, start, n)
      case Ok(m) => r == Ok(QubitOp(m))
      case Err(e) => r == Err(e)
  {
    if !op.QubitOp? {
      return Err(TypeError);
    }
    var s := RelabelSingle(op.paulis, start, n);
    match s {
      case Ok(m) => return Ok(QubitOp(m));
      case Err(e) => return Err(e);
    }
  }

  /** `_relabel_single_fermi`: TypeError unless given a fermion operator. */
  method RelabelSingleFermi(op: Operator, start: int, n: int) returns (r: Result<Operator, Error>)
    ensures !op.FermionOp? ==> r == Err(TypeError)
    ensures op.FermionOp? ==> match SingleOutcome(op.fermions, start, n)
      case Ok(m) => r == Ok(FermionOp(m))
      case Err(e) => r == Err(e)
  {
    if !op.FermionOp? {
      return Err(TypeError);
    }
    var s := RelabelSingle(op.fermions, start, n);
    match s {
      case Ok(m) => return Ok(FermionOp(m));
      case Err(e) => return Err(e);
    }
  }

  /** Some term other than the identity is present. */
  predicate HasNonIdentity<T(==)>(m: Terms<T>)
  {
    exists t | t in m :: t != []
  }

  /**
   * What the loop of the legacy entry points yields for the terms `m`: the
   * first non-identity term raises ValueError when `2a > n`, and otherwise
   * the relabelled single terms add up.
   */
  function SumOutcome<T(==)>(m: Terms<T>, start: int, n: int): Result<Terms<T>, Error>
  {
    if 2 * start > n && HasNonIdentity(m) then Err(ValueError)
    else Ok(Relabeled(m, 2 * start))
  }

  /** On the identity term the helper returns the operator as it is, which is also its relabelling. */
  lemma SingleOutcomeIdentity<T>(e: Term<T>, c: Coeff, start: int, n: int)
    requires e == []
    ensures SingleOutcome(map[e := c], start, n) == Ok(map[e := c])
    ensures Relabeled(map[e := c], 2 * start) == map[e := c]
  {
    RelabeledSingleton(e, c, 2 * start);
    assert Shift(e, 2 * start) == e;
  }

  /** On any other single term the helper raises ValueError when `2a > n` and relabels it otherwise. */
  lemma SingleOutcomeOther<T>(t: Term<T>, c: Coeff, start: int, n: int)
    requires t != []
    ensures SingleOutcome(map[t := c], start, n) ==
      if 2 * start > n then Err(ValueError) else Ok(Relabeled(map[t := c], 2 * start))
  {
    assert |map[t := c]| == 1;
  }

  /** On one term the helper raises only for a non-identity term when `2a > n`, and otherwise relabels it. */
  lemma SingleOutcomeOfTerm<T>(t: Term<T>, c: Coeff, start: int, n: int)
    ensures SingleOutcome(map[t := c], start, n).Err? <==> t != [] && 2 * start > n
    ensures SingleOutcome(map[t := c], start, n).Err? ==> SingleOutcome(map[t := c], start, n).error == ValueError
    ensures SingleOutcome(map[t := c], start, n).Ok? ==>
      SingleOutcome(map[t := c], start, n).value == Relabeled(map[t := c], 2 * start)
  {
    if t == [] {
      SingleOutcomeIdentity(t, c, start, n);
    } else {
      SingleOutcomeOther(t, c, start, n);
    }
  }

  /** The loop `for qop in qubitop: new_qubitop += _relabel_single_...(qop, ...)`. */
  method SumRelabeledTerms<T(==)>(m: Terms<T>, start: int, n: int) returns (r: Result<Terms<T>, Error>)
    ensures r == SumOutcome(m, start, n)
  {
    var out: Terms<T> := map[];
    var todo := m.Keys;
    assert m - todo == map[];
    while todo != {}
      invariant todo <= m.Keys
      invariant out == Relabeled(m - todo, 2 * start)
      invariant 2 * start > n ==> forall s | s in m && s !in todo :: s == []
      decreases todo
    {
      var t :| t in todo;
      var done := m - todo;
      assert m - (todo - {t}) == done[t := m[t]];
      var single := RelabelSingle(map[t := m[t]], start, n);
      SingleOutcomeOfTerm(t, m[t], start, n);
      if single.Err? {
        assert HasNonIdentity(m) by {
          assert t in m && t != [];
        }
        return single;
      }
      RelabeledAddTerm(done, t, m[t], 2 * start);
      out := out + single.value;
      todo := todo - {t};
    }
    assert m - todo == m;
    return Ok(out);
  }

  /** What `relabel_qubitoperator` returns or raises. */
  function QubitOutcome(qubitop: Operator, start: Scalar, n: nat): Result<Operator, Error>
  {
    if !start.IntValue? || !qubitop.QubitOp? then Err(TypeError)
    else match SumOutcome(qubitop.paulis, start.i, n)
      case Ok(m) => Ok(QubitOp(m))
      case Err(e) => Err(e)
  }

  /** What `relabel_fermionoperator` returns or raises. */
  function FermionOutcome(fermiop: Operator, start: Scalar, n: nat): Result<Operator, Error>
  {
    if !start.IntValue? || !fermiop.FermionOp? then Err(TypeError)
    else match SumOutcome(fermiop.fermions, start.i, n)
      case Ok(m) => Ok(FermionOp(m))
      case Err(e) => Err(e)
  }

  /** `relabel_qubitoperator`, given the qubit count `n` that the host's `count_qubits` returns. */
  method RelabelQubitOperator(qubitop: Operator, start: Scalar, n: nat) returns (r: Result<Operator, Error>)
    requires OperatorQubitCount(qubitop, n)
    ensures r == QubitOutcome(qubitop, start, n)
  {
    if !start.IntValue? {
      return Err(TypeError);
    }
    if !qubitop.QubitOp? {
      return Err(TypeError);
    }
    var s := SumRelabeledTerms(qubitop.paulis, start.i, n);
    match s {
      case Ok(m) => return Ok(QubitOp(m));
      case Err(e) => return Err(e);
    }
  }

  /** `relabel_fermionoperator`, given the mode count `n` that the host's `count_qubits` returns. */
  method RelabelFermionOperator(fermiop: Operator, start: Scalar, n: nat) returns (r: Result<Operator, Error>)
    requires OperatorQubitCount(fermiop, n)
    ensures r == FermionOutcome(fermiop, start, n)
  {
    if !start.IntValue? {
      return Err(TypeError);
    }
    if !fermiop.FermionOp? {
      return Err(TypeError);
    }
    var s := SumRelabeledTerms(fermiop.fermions, start.i, n);
    match s {
      case Ok(m) => return Ok(FermionOp(m));
      case Err(e) => return Err(e);
    }
  }

  /** The legacy entry point for the variant of `op`: `relabel_fermionoperator` for a fermion operator, else `relabel_qubitoperator`. */
  function LegacyOutcome(op: Operator, start: Scalar, n: nat): Result<Operator, Error>
  {
    if op.FermionOp? then FermionOutcome(op, start, n) else QubitOutcome(op, start, n)
  }

  /** `op` is a qubit or fermion operator with no term but the identity. */
  predicate OnlyIdentity(op: Operator)
  {
    match op
    case QubitOp(m) => !HasNonIdentity(m)
    case FermionOp(m) => !HasNonIdentity(m)
    case NotAnOperator => false
  }

  /**
   * The legacy and the current relabeller differ on an integer boundary
   * exactly when `2a > n` and the operator has no term but the identity:
   * the legacy code returns it unchanged, the current one raises ValueError.
   */
  lemma LegacyDiffersFromCurrent(op: Operator, a: int, n: nat)
    requires OperatorQubitCount(op, n)
    ensures LegacyOutcome(op, IntValue(a), n) != OperatorRelabel.Outcome(op, IntValue(a), n)
      <==> 2 * a > n && OnlyIdentity(op)
    ensures 2 * a > n && OnlyIdentity(op) ==>
      LegacyOutcome(op, IntValue(a), n) == Ok(op) &&
      OperatorRelabel.Outcome(op, IntValue(a), n) == Err(ValueError)
  {
    match op
    case QubitOp(m) =>
      if 2 * a > n && !HasNonIdentity(m) {
        RelabelIdentityOnly(m, 2 * a);
      }
    case FermionOp(m) =>
      if 2 * a > n && !HasNonIdentity(m) {
        RelabelIdentityOnly(m, 2 * a);
      }
    case NotAnOperator =>
  }

  /** An operator with no term but the identity is its own relabelling, whatever the cut. */
  lemma RelabelIdentityOnly<T>(m: Terms<T>, cut: int)
    requires !HasNonIdentity(m)
    ensures Relabeled(m, cut) == m
  {
    var e: Term<T> := [];
    if e in m {
      assert m.Keys == {e};
      assert m == map[e := m[e]];
      RelabeledSingleton(e, m[e], cut);
      assert Shift(e, cut) == e;
    } else {
      assert m == map[];
      forall u | u in Relabeled(m, cut) ensures false {
        var t := RelabeledFrom(m, cut, u);
      }
      assert Relabeled(m, cut) == map[];
    }
  }

  /** A boundary of 0 leaves a qubit or fermion operator unchanged in the legacy relabellers too. */
  lemma LegacyZeroBoundaryIsIdentity(op: Operator, n: nat)
    requires OperatorQubitCount(op, n) && !op.NotAnOperator?
    ensures LegacyOutcome(op, IntValue(0), n) == Ok(op)
  {
    LegacyDiffersFromCurrent(op, 0, n);
    OperatorRelabel.ZeroBoundaryIsIdentity(op, IntValue(0), n);
  }

  /** A float boundary, even a whole one, raises TypeError in the legacy code only. */
  lemma FloatBoundary(op: Operator, f: real, n: nat)
    ensures QubitOutcome(op, FloatValue(f), n) == Err(TypeError)
    ensures FermionOutcome(op, FloatValue(f), n) == Err(TypeError)
    ensures op.QubitOp? || op.FermionOp? ==>
      OperatorRelabel.Outcome(op, FloatValue(f), n) == OperatorRelabel.Outcome(op, IntValue(OperatorRelabel.Truncate(f)), n)
  {
  }
}
