/**
 * The cases the legacy relabeller's unit tests check, stated as lemmas
 * about the model (`_relabel_operators_test.py`).
 */
module RelabelExamples {
  import opened Operators
  import opened ActiveSpace
  import opened LegacyRelabel
  import OperatorRelabel

  const One := Coeff(1.0, 0.0)
  const MinusOne := Coeff(-1.0, 0.0)
  const Half := Coeff(0.5, 0.0)

  /** The fermion term `2^ 3` at `a = 1` becomes `0^ 1`, with its coefficient. */
  lemma FermionShiftExample()
    ensures FermionOutcome(FermionOp(map[[Factor(2, Create), Factor(3, Annihilate)] := MinusOne]), IntValue(1), 4)
         == Ok(FermionOp(map[[Factor(0, Create), Factor(1, Annihilate)] := MinusOne]))
  {
    var t := [Factor(2, Create), Factor(3, Annihilate)];
    assert Survives(t, 2);
    RelabeledSingleton(t, MinusOne, 2);
    assert Shift(t, 2) == [Factor(0, Create), Factor(1, Annihilate)];
  }

  /** The Pauli string `X2 Y3` at `a = 1` becomes `X0 Y1`, with its coefficient. */
  lemma PauliShiftExample()
    ensures QubitOutcome(QubitOp(map[[Factor(2, X), Factor(3, Y)] := MinusOne]), IntValue(1), 4)
         == Ok(QubitOp(map[[Factor(0, X), Factor(1, Y)] := MinusOne]))
  {
    var t := [Factor(2, X), Factor(3, Y)];
    assert Survives(t, 2);
    RelabeledSingleton(t, MinusOne, 2);
    assert Shift(t, 2) == [Factor(0, X), Factor(1, Y)];
  }

  /** `3^ 2^ 0` touches mode 0, which `a = 1` freezes: the helper and the entry point both give the empty operator. */
  lemma FrozenTermExample()
    ensures SingleOutcome(map[[Factor(3, Create), Factor(2, Create), Factor(0, Annihilate)] := One], 1, 4) == Ok(map[])
    ensures FermionOutcome(FermionOp(map[[Factor(3, Create), Factor(2, Create), Factor(0, Annihilate)] := One]), IntValue(1), 4)
         == Ok(FermionOp(map[]))
  {
    var t := [Factor(3, Create), Factor(2, Create), Factor(0, Annihilate)];
    assert t[2].index < 2;
    RelabeledSingleton(t, One, 2);
  }

  /**
   * The identity-only operator `0.5` at `a = 3` (qubit count 0) comes back
   * unchanged from the legacy relabeller, while the current one raises.
   */
  lemma IdentityOnlyExample()
    ensures FermionOutcome(FermionOp(map[[] := Half]), IntValue(3), 0) == Ok(FermionOp(map[[] := Half]))
    ensures OperatorRelabel.Outcome(FermionOp(map[[] := Half]), IntValue(3), 0) == Err(ValueError)
  {
    var e: Term<Action> := [];
    LegacyDiffersFromCurrent(FermionOp(map[e := Half]), 3, 0);
  }

  /** The helper refuses two terms, and a boundary beyond the count it is given. */
  lemma SingleHelperErrors()
    ensures SingleOutcome(map[[Factor(2, X)] := One, [Factor(4, Y)] := Coeff(2.0, 0.0)], 1, 4) == Err(ValueError)
    ensures SingleOutcome(map[[Factor(2, X)] := One], 2, 3) == Err(ValueError)
  {
    var m := map[[Factor(2, X)] := One, [Factor(4, Y)] := Coeff(2.0, 0.0)];
    assert [Factor(2, X)] != [Factor(4, Y)] by {
      assert [Factor(2, X)][0] != [Factor(4, Y)][0];
    }
    assert m.Keys == {[Factor(2, X)], [Factor(4, Y)]};
  }

  /**
   * Two frozen terms, a surviving one that shifts onto the second frozen
   * key, and the identity: the result holds the shifted term and the identity.
   */
  lemma FrozenAndShifted<T>(f1: Term<T>, f2: Term<T>, s: Term<T>, e: Term<T>, c1: Coeff, c2: Coeff, c3: Coeff, c4: Coeff, cut: int)
    requires f1 != f2 && s != f1 && s != f2 && e == []
    requires !Survives(f1, cut) && !Survives(f2, cut) && Survives(s, cut) && Shift(s, cut) == f2
    ensures Relabeled(map[f1 := c1, f2 := c2, s := c3, e := c4], cut) == map[f2 := c3, e := c4]
  {
    var m1 := map[f1 := c1];
    var m2 := m1[f2 := c2];
    var m3 := m2[s := c3];
    assert Survives(e, cut);
    assert e !in m3 by {
      ShiftIdentity(s, cut);
    }
    RelabeledSingleton(f1, c1, cut);
    RelabeledAddFrozen(m1, f2, c2, cut);
    assert Relabeled(m2, cut) == map[];
    RelabeledAddSurvivor(m2, s, c3, cut);
    assert Relabeled(m3, cut) == map[f2 := c3];
    RelabeledAddSurvivor(m3, e, c4, cut);
    ShiftIdentity(e, cut);
  }

  /** `Z1 Z3 Z4 - X0 Y1 - X2 Y3 + 0.5` at `a = 1` leaves `-X0 Y1 + 0.5`. */
  lemma CombinedExample()
    ensures QubitOutcome(
              QubitOp(map[[Factor(1, Z), Factor(3, Z), Factor(4, Z)] := One,
                          [Factor(0, X), Factor(1, Y)] := MinusOne,
                          [Factor(2, X), Factor(3, Y)] := MinusOne,
                          [] := Half]),
              IntValue(1), 5)
         == Ok(QubitOp(map[[Factor(0, X), Factor(1, Y)] := MinusOne, [] := Half]))
  {
    var zzz := [Factor(1, Z), Factor(3, Z), Factor(4, Z)];
    var xy01 := [Factor(0, X), Factor(1, Y)];
    var xy23 := [Factor(2, X), Factor(3, Y)];
    assert zzz != xy01 by { assert zzz[0] != xy01[0]; }
    assert xy23 != zzz && xy23 != xy01 by { assert xy23[0] != zzz[0] && xy23[0] != xy01[0]; }
    assert zzz[0].index < 2 && xy01[0].index < 2;
    assert Survives(xy23, 2);
    assert Shift(xy23, 2) == xy01;
    FrozenAndShifted(zzz, xy01, xy23, [], One, MinusOne, MinusOne, Half, 2);
  }
}
