/**
 * The active-space rule shared by both relabellers: with `cut` equal to twice
 * the first active spatial orbital, a term touching an index below `cut` is
 * frozen out, and every other term has each index lowered by `cut`.
 */
module ActiveSpace {
  import opened Operators

  /** No index of `t` lies in `range(cut)`; the identity term always survives. */
  predicate Survives<T>(t: Term<T>, cut: int)
  {
    forall k :: 0 <= k < |t| ==> t[k].index >= cut
  }

  /** `t` with every index lowered by `cut`, factor order and tags kept. */
  function Shift<T>(t: Term<T>, cut: int): (r: Term<T>)
    requires Survives(t, cut)
    ensures |r| == |t|
    ensures forall k :: 0 <= k < |t| ==> r[k].index + cut == t[k].index && r[k].tag == t[k].tag
  {
    seq(|t|, k requires 0 <= k < |t| => Factor(t[k].index - cut, t[k].tag))
  }

  /** Adds `cut` back to every index: the inverse of Shift. */
  function Unshift<T>(t: Term<T>, cut: int): (r: Term<T>)
    requires forall k :: 0 <= k < |t| ==> t[k].index + cut >= 0
    ensures |r| == |t|
    ensures Survives(r, cut)
    ensures forall k :: 0 <= k < |t| ==> r[k].index == t[k].index + cut && r[k].tag == t[k].tag
  {
    seq(|t|, k requires 0 <= k < |t| => Factor(t[k].index + cut, t[k].tag))
  }

  /** Unshift undoes Shift on a surviving term. */
  lemma ShiftRoundTrip<T>(t: Term<T>, cut: int)
    requires Survives(t, cut)
    ensures Unshift(Shift(t, cut), cut) == t
  {
    var u := Unshift(Shift(t, cut), cut);
    assert forall k :: 0 <= k < |t| ==> u[k] == t[k];
  }

  /** Distinct surviving terms never collide after the shift. */
  lemma ShiftInjective<T>(t1: Term<T>, t2: Term<T>, cut: int)
    requires Survives(t1, cut) && Survives(t2, cut)
    ensures Shift(t1, cut) == Shift(t2, cut) <==> t1 == t2
  {
    if Shift(t1, cut) == Shift(t2, cut) {
      ShiftRoundTrip(t1, cut);
      ShiftRoundTrip(t2, cut);
    }
  }

  /** Only the identity term shifts to the identity term. */
  lemma ShiftIdentity<T>(t: Term<T>, cut: int)
    requires Survives(t, cut)
    ensures Shift(t, cut) == [] <==> t == []
  {
  }

  /**
   * The operator the relabellers build: each surviving term shifted, with its
   * coefficient, and nothing for the frozen terms.
   */
  function Relabeled<T(==)>(m: Terms<T>, cut: int): Terms<T>
  {
    assert forall t1, t2 | t1 in m && Survives(t1, cut) && t2 in m && Survives(t2, cut)
      :: Shift(t1, cut) == Shift(t2, cut) ==> t1 == t2 by {
      forall t1, t2 | t1 in m && Survives(t1, cut) && t2 in m && Survives(t2, cut)
        ensures Shift(t1, cut) == Shift(t2, cut) ==> t1 == t2
      {
        ShiftInjective(t1, t2, cut);
      }
    }
    map t | t in m && Survives(t, cut) :: Shift(t, cut) := m[t]
  }

  /** The surviving terms of `m`. */
  function Survivors<T(==)>(m: Terms<T>, cut: int): set<Term<T>>
  {
    set t | t in m && Survives(t, cut)
  }

  /** A surviving term appears in the result, shifted, with its coefficient. */
  lemma RelabeledAt<T>(m: Terms<T>, cut: int, t: Term<T>)
    requires t in m && Survives(t, cut)
    ensures Shift(t, cut) in Relabeled(m, cut) && Relabeled(m, cut)[Shift(t, cut)] == m[t]
  {
    forall s | s in m && Survives(s, cut) && Shift(s, cut) == Shift(t, cut) ensures s == t {
      ShiftInjective(s, t, cut);
    }
  }

  /** Every term of the result is the shift of a surviving input term. */
  lemma RelabeledFrom<T>(m: Terms<T>, cut: int, u: Term<T>) returns (t: Term<T>)
    requires u in Relabeled(m, cut)
    ensures t in m && Survives(t, cut) && Shift(t, cut) == u
  {
    t :| t in m && Survives(t, cut) && Shift(t, cut) == u;
  }

  /**
   * The result holds `Shift(t)` with coefficient `c` for exactly the input
   * pairs `(t, c)` whose term survives.
   */
  lemma RelabeledExactly<T>(m: Terms<T>, cut: int)
    ensures forall t | t in m && Survives(t, cut) ::
      Shift(t, cut) in Relabeled(m, cut) && Relabeled(m, cut)[Shift(t, cut)] == m[t]
    ensures forall u | u in Relabeled(m, cut) ::
      exists t | t in m && Survives(t, cut) :: Shift(t, cut) == u
  {
    forall t | t in m && Survives(t, cut)
      ensures Shift(t, cut) in Relabeled(m, cut) && Relabeled(m, cut)[Shift(t, cut)] == m[t]
    {
      RelabeledAt(m, cut, t);
    }
  }

  /** The relabelling of a single term. */
  lemma RelabeledSingleton<T>(t: Term<T>, c: Coeff, cut: int)
    ensures Survives(t, cut) ==> Relabeled(map[t := c], cut) == map[Shift(t, cut) := c]
    ensures !Survives(t, cut) ==> Relabeled(map[t := c], cut) == map[]
  {
    var r := Relabeled(map[t := c], cut);
    if Survives(t, cut) {
      RelabeledAt(map[t := c], cut, t);
      forall u | u in r ensures u == Shift(t, cut) {
        var s := RelabeledFrom(map[t := c], cut, u);
      }
      assert r.Keys == {Shift(t, cut)};
    } else {
      forall u | u in r ensures false {
        var s := RelabeledFrom(map[t := c], cut, u);
      }
      assert r.Keys == {};
    }
  }

  /** Operators with distinct terms keep distinct terms after relabelling. */
  lemma RelabeledDisjoint<T>(m1: Terms<T>, m2: Terms<T>, cut: int)
    requires m1.Keys !! m2.Keys
    ensures Relabeled(m1, cut).Keys !! Relabeled(m2, cut).Keys
  {
    forall u | u in Relabeled(m1, cut) ensures u !in Relabeled(m2, cut) {
      var t1 := RelabeledFrom(m1, cut, u);
      if u in Relabeled(m2, cut) {
        var t2 := RelabeledFrom(m2, cut, u);
        ShiftInjective(t1, t2, cut);
      }
    }
  }

  lemma RelabeledUnionLeft<T>(m1: Terms<T>, m2: Terms<T>, cut: int)
    requires m1.Keys !! m2.Keys
    ensures forall u | u in Relabeled(m1, cut) ::
      u in Relabeled(m1 + m2, cut) && Relabeled(m1 + m2, cut)[u] == Relabeled(m1, cut)[u]
  {
    forall u | u in Relabeled(m1, cut)
      ensures u in Relabeled(m1 + m2, cut) && Relabeled(m1 + m2, cut)[u] == Relabeled(m1, cut)[u]
    {
      var t := RelabeledFrom(m1, cut, u);
      RelabeledAt(m1, cut, t);
      RelabeledAt(m1 + m2, cut, t);
    }
  }

  lemma RelabeledUnionCovered<T>(m1: Terms<T>, m2: Terms<T>, cut: int)
    ensures forall u | u in Relabeled(m1 + m2, cut) :: u in Relabeled(m1, cut) || u in Relabeled(m2, cut)
  {
    forall u | u in Relabeled(m1 + m2, cut) ensures u in Relabeled(m1, cut) || u in Relabeled(m2, cut) {
      var t := RelabeledFrom(m1 + m2, cut, u);
      if t in m2 {
        RelabeledAt(m2, cut, t);
      } else {
        RelabeledAt(m1, cut, t);
      }
    }
  }

  /**
   * Relabelling a sum of operators with distinct terms is the sum of their
   * relabellings, and the two relabelled parts again have distinct terms.
   */
  lemma RelabeledUnion<T>(m1: Terms<T>, m2: Terms<T>, cut: int)
    requires m1.Keys !! m2.Keys
    ensures Relabeled(m1, cut).Keys !! Relabeled(m2, cut).Keys
    ensures Relabeled(m1 + m2, cut) == Relabeled(m1, cut) + Relabeled(m2, cut)
  {
    RelabeledDisjoint(m1, m2, cut);
    RelabeledUnionLeft(m1, m2, cut);
    assert m1 + m2 == m2 + m1;
    RelabeledUnionLeft(m2, m1, cut);
    RelabeledUnionCovered(m1, m2, cut);
    SumOfParts(Relabeled(m1 + m2, cut), Relabeled(m1, cut), Relabeled(m2, cut));
  }

  /** One term more in the input: the survivors gain that term exactly when it survives. */
  lemma SurvivorsAdd<T>(m: Terms<T>, t: Term<T>, cut: int)
    requires t in m
    ensures t !in Survivors(m - {t}, cut)
    ensures Survivors(m, cut) == Survivors(m - {t}, cut) + (if Survives(t, cut) then {t} else {})
  {
  }

  /** Adding a new surviving term to the input adds its shift, with its coefficient, to the result. */
  lemma RelabeledAddSurvivor<T>(m: Terms<T>, t: Term<T>, c: Coeff, cut: int)
    requires t !in m && Survives(t, cut)
    ensures Shift(t, cut) !in Relabeled(m, cut)
    ensures Relabeled(m[t := c], cut) == Relabeled(m, cut)[Shift(t, cut) := c]
  {
    UpdateIsSum(m, t, c);
    RelabeledUnion(m, map[t := c], cut);
    RelabeledSingleton(t, c, cut);
    UpdateIsSum(Relabeled(m, cut), Shift(t, cut), c);
  }

  /** Adding a new term to the input adds its own relabelling to the result. */
  lemma RelabeledAddTerm<T>(m: Terms<T>, t: Term<T>, c: Coeff, cut: int)
    requires t !in m
    ensures Relabeled(m[t := c], cut) == Relabeled(m, cut) + Relabeled(map[t := c], cut)
  {
    UpdateIsSum(m, t, c);
    RelabeledUnion(m, map[t := c], cut);
  }

  /** Adding a new frozen term to the input leaves the result as it was. */
  lemma RelabeledAddFrozen<T>(m: Terms<T>, t: Term<T>, c: Coeff, cut: int)
    requires t !in m && !Survives(t, cut)
    ensures Relabeled(m[t := c], cut) == Relabeled(m, cut)
  {
    var r, r' := Relabeled(m, cut), Relabeled(m[t := c], cut);
    forall u | u in r' ensures u in r && r'[u] == r[u] {
      var s := RelabeledFrom(m[t := c], cut, u);
      RelabeledAt(m, cut, s);
      RelabeledAt(m[t := c], cut, s);
    }
    forall u | u in r ensures u in r' {
      var s := RelabeledFrom(m, cut, u);
      RelabeledAt(m[t := c], cut, s);
    }
    assert r'.Keys == r.Keys;
  }

  /** Adding one new term to the input adds one term to the result exactly when it survives. */
  lemma RelabeledAddSize<T>(m: Terms<T>, t: Term<T>, c: Coeff, cut: int)
    requires t !in m
    ensures |Relabeled(m[t := c], cut)| == |Relabeled(m, cut)| + (if Survives(t, cut) then 1 else 0)
  {
    if Survives(t, cut) {
      RelabeledAddSurvivor(m, t, c, cut);
    } else {
      RelabeledAddFrozen(m, t, c, cut);
    }
  }

  /** The result has one term per surviving input term, so never more terms than the input. */
  lemma {:induction false} RelabeledSize<T>(m: Terms<T>, cut: int)
    ensures |Relabeled(m, cut)| == |Survivors(m, cut)|
    ensures |Relabeled(m, cut)| <= |m|
    decreases |m|
  {
    if m == map[] {
      assert Survivors(m, cut) == {};
      assert Relabeled(m, cut) == map[];
    } else {
      var t :| t in m;
      var rest := m - {t};
      assert m == rest[t := m[t]];
      RelabeledSize(rest, cut);
      RelabeledAddSize(rest, t, m[t], cut);
      SurvivorsAdd(m, t, cut);
      assert |Survivors(rest, cut)| <= |rest|;
    }
  }

  /** With no frozen orbital every term survives unchanged. */
  lemma RelabelZeroIsIdentity<T>(m: Terms<T>)
    ensures Relabeled(m, 0) == m
  {
    var r := Relabeled(m, 0);
    forall t | t in m ensures Shift(t, 0) == t {
      var s := Shift(t, 0);
      assert forall k :: 0 <= k < |t| ==> s[k] == t[k];
    }
    assert r.Keys == m.Keys;
  }

  /** A cut above every index freezes out everything but the identity term. */
  lemma RelabelAllFrozen<T>(m: Terms<T>, cut: int, n: nat)
    requires QubitCount(m, n) && n <= cut
    ensures Relabeled(m, cut) == if [] in m then map[[] := m[[]]] else map[]
  {
    var r := Relabeled(m, cut);
    forall t: Term<T> | t in m && t != [] ensures !Survives(t, cut) {
      assert t[0].index < n;
    }
    if [] in m {
      var e: Term<T> := [];
      assert Shift(e, cut) == [];
      assert r.Keys == {[]};
    } else {
      assert r.Keys == {};
    }
  }

  /**
   * The loop over the factors of one term: None as soon as a frozen index is
   * met, otherwise the shifted factors in their original order.
   */
  method ShiftLabel<T>(t: Term<T>, cut: int) returns (r: Option<Term<T>>)
    ensures r.None? <==> exists k :: 0 <= k < |t| && t[k].index < cut
    ensures r.Some? ==> Survives(t, cut) && r.value == Shift(t, cut)
  {
    var shifted: Term<T> := [];
    for k := 0 to |t|
      invariant forall j :: 0 <= j < k ==> t[j].index >= cut
      invariant |shifted| == k
      invariant forall j :: 0 <= j < k ==> shifted[j] == Factor(t[j].index - cut, t[j].tag)
    {
      // the source tests `index in range(cut)`; indices are never negative
      if t[k].index < cut {
        return None;
      }
      shifted := shifted + [Factor(t[k].index - cut, t[k].tag)];
    }
    assert forall j :: 0 <= j < |t| ==> shifted[j] == Shift(t, cut)[j];
    return Some(shifted);
  }
}
