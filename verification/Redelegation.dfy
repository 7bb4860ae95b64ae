/** Taking an amount out of a delegator's bonds: which bond entries go, and which of the tokens in
    them had been redelegated from other validators. */
module BondRemoval {
  import opened Types
  import opened FiniteSums

  datatype BondEntry = BondEntry(epoch: Epoch, amount: Amount)

  /** Epochs that are unbonded in full, and the one that keeps a smaller amount, if any. */
  datatype BondsForRemoval = BondsForRemoval(epochs: set<Epoch>, newEntry: Option<BondEntry>)
  {
    /** Is the epoch unbonded, in full or in part? */
    predicate Touches(e: Epoch) {
      e in epochs || (newEntry.Some? && newEntry.value.epoch == e)
    }

    function TouchedEpochs(): set<Epoch> {
      if newEntry.Some? then epochs + {newEntry.value.epoch} else epochs
    }
  }

  /** Entries are taken from the latest epoch backwards until nothing remains to be unbonded. */
  function FindBonds(bonds: map<Epoch, Amount>, amount: Amount): BondsForRemoval
    decreases bonds.Keys
  {
    if bonds == map[] then BondsForRemoval({}, None)
    else
      var e := MaxKey(bonds.Keys);
      if amount < bonds[e] then BondsForRemoval({}, Some(BondEntry(e, bonds[e] - amount)))
      else if amount == bonds[e] then BondsForRemoval({e}, None)
      else
        var rest := FindBonds(bonds - {e}, amount - bonds[e]);
        BondsForRemoval(rest.epochs + {e}, rest.newEntry)
  }

  /** How much is unbonded from each touched epoch (`newUnbonds`). */
  function UnbondedAmounts(bonds: map<Epoch, Amount>, r: BondsForRemoval): map<Epoch, Amount> {
    map e | e in bonds && r.Touches(e) ::
      if r.newEntry.Some? && r.newEntry.value.epoch == e then Monus(bonds[e], r.newEntry.value.amount) else bonds[e]
  }

  /** The entries left behind (`updatedBonded`). */
  function BondsLeft(bonds: map<Epoch, Amount>, r: BondsForRemoval): map<Epoch, Amount> {
    var kept := bonds - r.epochs;
    if r.newEntry.Some? then kept[r.newEntry.value.epoch := r.newEntry.value.amount] else kept
  }

  /** The shape of every result: full removals and the partial one are entries, they do not overlap,
      and every entry later than a touched one is removed in full. */
  ghost predicate LatestFirst(bonds: map<Epoch, Amount>, r: BondsForRemoval) {
    && r.epochs <= bonds.Keys
    && (r.newEntry.Some? ==>
          && r.newEntry.value.epoch in bonds
          && r.newEntry.value.epoch !in r.epochs
          && 0 < r.newEntry.value.amount <= bonds[r.newEntry.value.epoch])
    && forall e: Epoch, k: Epoch | r.Touches(e) && k in bonds && e < k :: k in r.epochs
  }

  lemma {:induction false} FindBondsLatestFirst(bonds: map<Epoch, Amount>, amount: Amount)
    ensures LatestFirst(bonds, FindBonds(bonds, amount))
    ensures var r := FindBonds(bonds, amount);
            amount > 0 && r.newEntry.Some? ==> r.newEntry.value.amount < bonds[r.newEntry.value.epoch]
    ensures amount > 0 && bonds != map[] ==> FindBonds(bonds, amount).TouchedEpochs() != {}
    decreases bonds.Keys
  {
    if bonds != map[] {
      var e := MaxKey(bonds.Keys);
      if amount > bonds[e] {
        FindBondsLatestFirst(bonds - {e}, amount - bonds[e]);
        var r := FindBonds(bonds, amount);
        var rest := FindBonds(bonds - {e}, amount - bonds[e]);
        assert e in r.TouchedEpochs();
        forall x: Epoch, k: Epoch | r.Touches(x) && k in bonds && x < k ensures k in r.epochs {
          if k != e {
            assert k in bonds - {e} && rest.Touches(x);
          }
        }
      } else if amount == bonds[e] {
        assert e in FindBonds(bonds, amount).TouchedEpochs();
      } else {
        assert e in FindBonds(bonds, amount).TouchedEpochs();
      }
    }
  }

  /** What is unbonded and what is left add up to what was there, at every epoch. */
  lemma BondsSplit(bonds: map<Epoch, Amount>, r: BondsForRemoval)
    requires LatestFirst(bonds, r)
    ensures forall e :: Get(bonds, e) == Get(BondsLeft(bonds, r), e) + Get(UnbondedAmounts(bonds, r), e)
    ensures Sum(bonds) == Sum(BondsLeft(bonds, r)) + Sum(UnbondedAmounts(bonds, r))
  {
    var left, gone := BondsLeft(bonds, r), UnbondedAmounts(bonds, r);
    forall e ensures GetInt(bonds, e) == GetInt(left, e) + GetInt(gone, e) {
    }
    SumPointwise<Epoch>(left, gone, bonds);
  }

  /** Exactly the requested amount is unbonded, or everything if there is less. */
  lemma {:induction false} UnbondedTotal(bonds: map<Epoch, Amount>, amount: Amount)
    ensures Sum(bonds) >= 0
    ensures Sum(UnbondedAmounts(bonds, FindBonds(bonds, amount))) == Min(amount, Sum(bonds))
    decreases bonds.Keys
  {
    hide UnbondedAmounts;
    SumNonNegative(bonds);
    if bonds == map[] {
      UnbondedOfNone(FindBonds(bonds, amount));
    } else {
      var e := MaxKey(bonds.Keys);
      var rest := bonds - {e};
      SumNonNegative(rest);
      SumWithout<Epoch>(bonds, e);
      if amount <= bonds[e] {
        UnbondedOfOne(bonds, amount, e);
      } else {
        UnbondedTotal(rest, amount - bonds[e]);
        UnbondedStep(bonds, amount, e);
      }
    }
  }

  lemma UnbondedOfNone(r: BondsForRemoval)
    ensures Sum<Epoch>(UnbondedAmounts(map[], r)) == 0
  {
    assert UnbondedAmounts(map[], r) == map[];
  }

  lemma UnbondedOfOne(bonds: map<Epoch, Amount>, amount: Amount, e: Epoch)
    requires IsMax(bonds.Keys, e) && amount <= bonds[e]
    ensures Sum<Epoch>(UnbondedAmounts(bonds, FindBonds(bonds, amount))) == amount
  {
    assert UnbondedAmounts(bonds, FindBonds(bonds, amount)) == map[][e := amount];
    SumUpdate<Epoch>(map[], e, amount);
  }

  lemma UnbondedStep(bonds: map<Epoch, Amount>, amount: Amount, e: Epoch)
    requires IsMax(bonds.Keys, e) && bonds[e] < amount
    ensures Sum<Epoch>(UnbondedAmounts(bonds, FindBonds(bonds, amount)))
         == Sum<Epoch>(UnbondedAmounts(bonds - {e}, FindBonds(bonds - {e}, amount - bonds[e]))) + bonds[e]
  {
    var rest := bonds - {e};
    var r, r' := FindBonds(bonds, amount), FindBonds(rest, amount - bonds[e]);
    FindBondsLatestFirst(rest, amount - bonds[e]);
    assert r == BondsForRemoval(r'.epochs + {e}, r'.newEntry);
    var gone := UnbondedAmounts(rest, r');
    assert UnbondedAmounts(bonds, r) == gone[e := bonds[e]];
    SumUpdate<Epoch>(gone, e, bonds[e]);
  }

  lemma FindBondsStep(bonds: map<Epoch, Amount>, amount: Amount, e: Epoch)
    requires IsMax(bonds.Keys, e)
    ensures amount < bonds[e] ==> FindBonds(bonds, amount) == BondsForRemoval({}, Some(BondEntry(e, bonds[e] - amount)))
    ensures amount == bonds[e] ==> FindBonds(bonds, amount) == BondsForRemoval({e}, None)
    ensures amount > bonds[e] ==>
              var rest := FindBonds(bonds - {e}, amount - bonds[e]);
              FindBonds(bonds, amount) == BondsForRemoval(rest.epochs + {e}, rest.newEntry)
  {
  }

  /** `find_bonds_to_remove`: one pass over the entries in descending epoch order. */
  method FindBondsToRemove(bonds: map<Epoch, Amount>, amount: Amount) returns (r: BondsForRemoval)
    ensures r == FindBonds(bonds, amount)
  {
    hide FindBonds;
    var epochs: set<Epoch> := {};
    var newEntry: Option<BondEntry> := None;
    var rest := bonds;
    var remaining := amount;
    ghost var all := FindBonds(bonds, amount);
    while rest != map[]
      invariant newEntry.None?
      invariant all.epochs == epochs + FindBonds(rest, remaining).epochs
      invariant all.newEntry == FindBonds(rest, remaining).newEntry
      decreases rest.Keys
    {
      var bondEpoch := MaxKey(rest.Keys);
      var bondAmount := rest[bondEpoch];
      var toUnbond := Min(bondAmount, remaining);
      FindBondsStep(rest, remaining, bondEpoch);
      if toUnbond == bondAmount {
        epochs := epochs + {bondEpoch};
      } else {
        newEntry := Some(BondEntry(bondEpoch, bondAmount - toUnbond));
      }
      remaining := remaining - toUnbond;
      if remaining == 0 {
        return BondsForRemoval(epochs, newEntry);
      }
      rest := rest - {bondEpoch};
    }
    NoBonds(remaining);
    return BondsForRemoval(epochs, newEntry);
  }

  lemma NoBonds(amount: Amount)
    ensures FindBonds(map[], amount) == BondsForRemoval({}, None)
  {
  }
}

/** The part of a bond that was redelegated from other validators, and how an unbond splits it. */
module Redelegations {
  import opened Types
  import opened FiniteSums
  import opened BondRemoval

  /** Amounts by source validator and then by start epoch of the bond that was redelegated. Only the
      entries are stored, so an empty inner map and an absent one mean the same. */
  type Tokens = map<Address, map<Epoch, Amount>>

  function At(t: Tokens, v: Address): map<Epoch, Amount> {
    if v in t then t[v] else map[]
  }

  function AmountAt(t: Tokens, v: Address, start: Epoch): Amount {
    Get(At(t, v), start)
  }

  ghost function Totals(t: Tokens): map<Address, Amount> {
    map v | v in t :: Tally(t[v])
  }

  ghost function Total(t: Tokens): Amount {
    Tally(Totals(t))
  }

  lemma TotalWithout(t: Tokens, v: Address)
    ensures Total(t) == Total(t - {v}) + Tally(At(t, v))
  {
    SumWithout<Address>(Totals(t), v);
    assert Totals(t) - {v} == Totals(t - {v});
  }

  lemma TotalPut(t: Tokens, v: Address, inner: map<Epoch, Amount>)
    ensures Total(t[v := inner]) == Total(t) - Tally(At(t, v)) + Tally(inner)
  {
    TotalWithout(t, v);
    TotalWithout(t[v := inner], v);
    assert t[v := inner] - {v} == t - {v};
  }

  /** How a redelegation changes when part of the bond that holds it is unbonded. */
  datatype ModifiedRedelegation = ModifiedRedelegation(
    epoch: Option<Epoch>,
    validatorsToRemove: set<Address>,
    validatorToModify: Option<Address>,
    epochsToRemove: set<Epoch>,
    epochToModify: Option<Epoch>,
    newAmount: Option<Amount>)

  const UNMODIFIED := ModifiedRedelegation(None, {}, None, {}, None, None)

  /** With nothing to remove listed, everything at the epoch goes. */
  function Everything(start: Epoch): ModifiedRedelegation {
    UNMODIFIED.(epoch := Some(start))
  }

  function Also(m: ModifiedRedelegation, validators: set<Address>): ModifiedRedelegation {
    m.(validatorsToRemove := m.validatorsToRemove + validators)
  }

  /** The source validators are emptied in address order until nothing remains to be unbonded;
      the last one may lose only its latest bonds. */
  ghost function Modify(t: Tokens, start: Epoch, remaining: Amount): ModifiedRedelegation
    decreases t.Keys
  {
    if t == map[] || remaining == 0 then Everything(start)
    else
      var v := MinKey(t.Keys);
      if Tally(t[v]) <= remaining then
        Also(Modify(t - {v}, start, remaining - Tally(t[v])), {v})
      else
        ModifyOne(start, v, FindBonds(t[v], remaining))
  }

  function ModifyOne(start: Epoch, v: Address, r: BondsForRemoval): ModifiedRedelegation {
    ModifiedRedelegation(Some(start), {v}, Some(v), r.TouchedEpochs(),
                         if r.newEntry.Some? then Some(r.newEntry.value.epoch) else None,
                         if r.newEntry.Some? then Some(r.newEntry.value.amount) else None)
  }

  ghost function ComputeModified(t: Tokens, start: Epoch, amount: Amount): ModifiedRedelegation {
    if Total(t) <= amount then Everything(start) else Modify(t, start, amount)
  }

  // ---- What stays and what is returned ----

  /** `update_redelegated_bonds` */
  function Updated(t: Tokens, m: ModifiedRedelegation): Tokens {
    if m.validatorToModify.None? then t - m.validatorsToRemove
    else
      var v := m.validatorToModify.value;
      (t - (m.validatorsToRemove - {v}))[v := InnerLeft(At(t, v), m.epochsToRemove, m.epochToModify, m.newAmount)]
  }

  function InnerLeft(inner: map<Epoch, Amount>, epochs: set<Epoch>, toModify: Option<Epoch>, newAmount: Option<Amount>)
    : map<Epoch, Amount>
  {
    if toModify.Some? && newAmount.Some? then (inner - (epochs - {toModify.value}))[toModify.value := newAmount.value]
    else inner - epochs
  }

  /** What `compute_new_redelegated_unbonds` returns for one source validator. */
  function InnerReturned(inner: map<Epoch, Amount>, epochs: set<Epoch>, toModify: Option<Epoch>,
                         newAmount: Option<Amount>)
    : map<Epoch, Amount>
  {
    map e | e in epochs ::
      if toModify == Some(e) && newAmount.Some? then Monus(Get(inner, e), newAmount.value) else Get(inner, e)
  }

  function ReturnedBy(t: Tokens, m: ModifiedRedelegation, v: Address): map<Epoch, Amount> {
    if m.validatorToModify == Some(v) then InnerReturned(At(t, v), m.epochsToRemove, m.epochToModify, m.newAmount) else At(t, v)
  }

  function ReturnedSome(t: Tokens, m: ModifiedRedelegation): Tokens {
    map v | v in m.validatorsToRemove :: ReturnedBy(t, m, v)
  }

  /** The tokens left at the partially unbonded epoch: an empty `validatorsToRemove` means that all go. */
  function Left(t: Tokens, m: ModifiedRedelegation): Tokens {
    if m.validatorsToRemove == {} then map[] else Updated(t, m)
  }

  function Returned(t: Tokens, m: ModifiedRedelegation): Tokens {
    if m.validatorsToRemove == {} then t else ReturnedSome(t, m)
  }

  /** The assumptions written down at `compute_new_redelegated_unbonds`, and that the partial bond
      is an entry with at least the new amount. */
  ghost predicate Consistent(t: Tokens, m: ModifiedRedelegation) {
    && m.validatorsToRemove <= t.Keys
    && (m.validatorToModify.Some? ==>
          && m.validatorToModify.value in m.validatorsToRemove
          && m.epochsToRemove <= t[m.validatorToModify.value].Keys)
    && (m.epochToModify.Some? <==> m.newAmount.Some?)
    && (m.epochToModify.Some? ==>
          && m.validatorToModify.Some?
          && m.epochToModify.value in m.epochsToRemove
          && m.newAmount.value <= t[m.validatorToModify.value][m.epochToModify.value])
  }

  lemma ModifyOneConsistent(t: Tokens, start: Epoch, v: Address, amount: Amount)
    requires v in t
    ensures Consistent(t, ModifyOne(start, v, FindBonds(t[v], amount)))
    ensures ReturnedBy(t, ModifyOne(start, v, FindBonds(t[v], amount)), v) == UnbondedAmounts(t[v], FindBonds(t[v], amount))
  {
    FindBondsLatestFirst(t[v], amount);
  }

  lemma ModifyStep(t: Tokens, start: Epoch, remaining: Amount, v: Address)
    requires IsMin(t.Keys, v) && remaining > 0
    ensures remaining < Tally(t[v]) ==> Modify(t, start, remaining) == ModifyOne(start, v, FindBonds(t[v], remaining))
    ensures Tally(t[v]) <= remaining ==>
              Modify(t, start, remaining) == Also(Modify(t - {v}, start, remaining - Tally(t[v])), {v})
  {
  }

  lemma ConsistentAlso(t: Tokens, m: ModifiedRedelegation, v: Address)
    requires v in t && Consistent(t - {v}, m)
    ensures Consistent(t, Also(m, {v}))
  {
  }

  lemma ModifyNothing(t: Tokens, start: Epoch, remaining: Amount)
    requires t == map[] || remaining == 0
    ensures Modify(t, start, remaining) == Everything(start)
    ensures Consistent(t, Everything(start))
  {
  }

  lemma {:induction false} ModifyConsistent(t: Tokens, start: Epoch, remaining: Amount)
    ensures Consistent(t, Modify(t, start, remaining))
    ensures Modify(t, start, remaining).epoch == Some(start)
    ensures remaining > 0 && t != map[] ==> Modify(t, start, remaining).validatorsToRemove != {}
    decreases t.Keys
  {
    hide Modify, Consistent;
    if t == map[] || remaining == 0 {
      ModifyNothing(t, start, remaining);
    } else {
      var v := MinKey(t.Keys);
      ModifyStep(t, start, remaining, v);
      assert v in Modify(t, start, remaining).validatorsToRemove;
      if Tally(t[v]) <= remaining {
        ModifyConsistent(t - {v}, start, remaining - Tally(t[v]));
        ConsistentAlso(t, Modify(t - {v}, start, remaining - Tally(t[v])), v);
      } else {
        ModifyOneConsistent(t, start, v, remaining);
      }
    }
  }

  /** Whatever is modified, every entry is split between what stays and what is returned. */
  lemma EntrySplit(t: Tokens, m: ModifiedRedelegation, v: Address, start: Epoch)
    requires Consistent(t, m)
    ensures AmountAt(t, v, start) == AmountAt(Left(t, m), v, start) + AmountAt(Returned(t, m), v, start)
  {
    hide InnerLeft, InnerReturned;
    if m.validatorsToRemove != {} && m.validatorToModify == Some(v) {
      InnerSplit(t[v], m.epochsToRemove, m.epochToModify, m.newAmount, start);
    }
  }

  lemma InnerSplit(inner: map<Epoch, Amount>, epochs: set<Epoch>, toModify: Option<Epoch>, newAmount: Option<Amount>,
                   e: Epoch)
    requires epochs <= inner.Keys
    requires toModify.Some? <==> newAmount.Some?
    requires toModify.Some? ==> toModify.value in epochs && newAmount.value <= inner[toModify.value]
    ensures Get(inner, e)
         == Get(InnerLeft(inner, epochs, toModify, newAmount), e) + Get(InnerReturned(inner, epochs, toModify, newAmount), e)
  {
  }

  /** As long as the tokens suffice, exactly the amount to unbond is returned. */
  lemma {:induction false} ReturnedTotal(t: Tokens, start: Epoch, remaining: Amount)
    requires remaining < Total(t)
    ensures Total(ReturnedSome(t, Modify(t, start, remaining))) == remaining
    decreases t.Keys
  {
    if remaining == 0 {
      NothingReturned(t, start);
    } else {
      TotalOfNone();
      hide Modify, ReturnedSome, Total;
      var v := MinKey(t.Keys);
      TotalWithout(t, v);
      ModifyStep(t, start, remaining, v);
      if Tally(t[v]) <= remaining {
        ReturnedTotal(t - {v}, start, remaining - Tally(t[v]));
        ReturnedStep(t, start, remaining, v);
      } else {
        ReturnedOne(t, start, v, remaining);
      }
    }
  }

  lemma TotalOfNone()
    ensures Total(map[]) == 0
  {
    assert Totals(map[]) == map[];
  }

  lemma NothingReturned(t: Tokens, start: Epoch)
    ensures Total(ReturnedSome(t, Modify(t, start, 0))) == 0
  {
    assert ReturnedSome(t, Modify(t, start, 0)) == map[];
    TotalOfNone();
  }

  lemma ReturnedOne(t: Tokens, start: Epoch, v: Address, amount: Amount)
    requires v in t && amount < Tally(t[v])
    ensures Total(ReturnedSome(t, ModifyOne(start, v, FindBonds(t[v], amount)))) == amount
  {
    var m := ModifyOne(start, v, FindBonds(t[v], amount));
    var inner := UnbondedAmounts(t[v], FindBonds(t[v], amount));
    ModifyOneConsistent(t, start, v, amount);
    UnbondedTotal(t[v], amount);
    assert ReturnedSome(t, m) == map[][v := inner];
    TotalPut(map[], v, inner);
    TotalOfNone();
  }

  lemma ReturnedStep(t: Tokens, start: Epoch, remaining: Amount, v: Address)
    requires IsMin(t.Keys, v) && remaining > 0 && Tally(t[v]) <= remaining
    ensures Total(ReturnedSome(t, Modify(t, start, remaining)))
         == Total(ReturnedSome(t - {v}, Modify(t - {v}, start, remaining - Tally(t[v])))) + Tally(t[v])
  {
    hide Modify, Total;
    var rest: Tokens := t - {v};
    var m, m' := Modify(t, start, remaining), Modify(rest, start, remaining - Tally(t[v]));
    ModifyStep(t, start, remaining, v);
    ModifyConsistent(rest, start, remaining - Tally(t[v]));
    ReturnedAlso(t, m', v);
    TotalPut(ReturnedSome(rest, m'), v, t[v]);
  }

  lemma ReturnedAlso(t: Tokens, m: ModifiedRedelegation, v: Address)
    requires v in t && Consistent(t - {v}, m)
    ensures ReturnedSome(t, Also(m, {v})) == ReturnedSome(t - {v}, m)[v := t[v]]
    ensures At(ReturnedSome(t - {v}, m), v) == map[]
  {
    hide InnerReturned;
    var rest: Tokens := t - {v};
    var m' := Also(m, {v});
    assert ReturnedBy(t, m', v) == t[v] && v !in m.validatorsToRemove;
    forall u | u in m.validatorsToRemove ensures ReturnedBy(t, m', u) == ReturnedBy(rest, m, u) {
      assert At(t, u) == At(rest, u);
    }
  }

  /** For every redelegation and every positive amount taken from the bond that holds it, each entry
      is the entry left plus the entry returned, and what is returned is all of the redelegation or
      the amount taken, whichever is less: redelegated tokens are unbonded first. */
  lemma RedelegationSplit(t: Tokens, start: Epoch, amount: Amount)
    requires amount > 0
    ensures var m := ComputeModified(t, start, amount);
            && (forall v: Address, e: Epoch :: AmountAt(t, v, e) == AmountAt(Left(t, m), v, e) + AmountAt(Returned(t, m), v, e))
            && Total(Returned(t, m)) == Min(Total(t), amount)
            && Total(Left(t, m)) == Total(t) - Min(Total(t), amount)
  {
    ReturnedIsMin(t, start, amount);
    hide ComputeModified, Left, Returned, AmountAt, Total;
    var m := ComputeModified(t, start, amount);
    ComputeModifiedConsistent(t, start, amount);
    forall v: Address, e: Epoch
      ensures AmountAt(t, v, e) == AmountAt(Left(t, m), v, e) + AmountAt(Returned(t, m), v, e)
    {
      EntrySplit(t, m, v, e);
    }
    TotalPointwise(Left(t, m), Returned(t, m), t);
  }

  /** With nothing to unbond, no validator is listed for removal, which the caller reads as "remove
      all of it". So the total returned is right exactly when the amount is positive or there is
      nothing redelegated; `find_bonds_to_remove` leaves no partial entry unless it is positive. */
  lemma ReturnedIsMinExactly(t: Tokens, start: Epoch, amount: Amount)
    ensures Total(Returned(t, ComputeModified(t, start, amount))) == Min(Total(t), amount)
       <==> amount > 0 || Total(t) == 0
  {
    if amount > 0 {
      ReturnedIsMin(t, start, amount);
    } else {
      hide Total;
      ModifyNothing(t, start, 0);
      assert Returned(t, Everything(start)) == t;
    }
  }

  lemma ReturnedIsMin(t: Tokens, start: Epoch, amount: Amount)
    requires amount > 0
    ensures Total(Returned(t, ComputeModified(t, start, amount))) == Min(Total(t), amount)
  {
    hide Modify, Total;
    var m := ComputeModified(t, start, amount);
    ComputeModifiedConsistent(t, start, amount);
    if amount < Total(t) {
      ReturnedTotal(t, start, amount);
    }
  }

  lemma ComputeModifiedConsistent(t: Tokens, start: Epoch, amount: Amount)
    ensures var m := ComputeModified(t, start, amount);
            && Consistent(t, m) && m.epoch == Some(start)
            && (amount > 0 ==> (m.validatorsToRemove == {} <==> Total(t) <= amount))
  {
    TotalOfNone();
    ModifyConsistent(t, start, amount);
  }

  /** Token maps that add up entry by entry add up in total. */
  lemma TotalPointwise(a: Tokens, b: Tokens, c: Tokens)
    requires forall v: Address, e: Epoch :: AmountAt(c, v, e) == AmountAt(a, v, e) + AmountAt(b, v, e)
    ensures Total(c) == Total(a) + Total(b)
  {
    forall v: Address ensures GetInt(Totals(c), v) == GetInt(Totals(a), v) + GetInt(Totals(b), v) {
      forall e: Epoch ensures GetInt(At(c, v), e) == GetInt(At(a, v), e) + GetInt(At(b, v), e) {
        assert AmountAt(c, v, e) == AmountAt(a, v, e) + AmountAt(b, v, e);
      }
      SumPointwise<Epoch>(At(a, v), At(b, v), At(c, v));
    }
    SumPointwise<Address>(Totals(a), Totals(b), Totals(c));
  }

  // ---- All epochs of one delegator at one validator ----

  /** Redelegated tokens by the epoch in which they started to contribute to this validator. */
  type RedelegatedBonds = map<Epoch, Tokens>

  function TokensAt(r: RedelegatedBonds, e: Epoch): Tokens {
    if e in r then r[e] else map[]
  }

  /** `newRedelegatedUnbonds` */
  function NewRedelegatedUnbonds(r: RedelegatedBonds, epochs: set<Epoch>, m: ModifiedRedelegation): map<Epoch, Tokens> {
    map e | e in r && (e in epochs || m.epoch == Some(e)) :: UnbondedAt(r[e], e, m)
  }

  function UnbondedAt(t: Tokens, e: Epoch, m: ModifiedRedelegation): Tokens {
    if m.epoch == Some(e) then Returned(t, m) else t
  }

  /** `updatedRedelegatedBonded` */
  function RedelegatedLeft(r: RedelegatedBonds, epochs: set<Epoch>, m: ModifiedRedelegation): RedelegatedBonds {
    var kept := r - epochs;
    if m.epoch.Some? then kept[m.epoch.value := Left(TokensAt(kept, m.epoch.value), m)] else kept
  }

  // ---- The loops ----

  method SumEntries(inner: map<Epoch, Amount>) returns (total: Amount)
    ensures total == Tally(inner)
  {
    total := 0;
    var rest := inner;
    while rest != map[]
      invariant total + Tally(rest) == Tally(inner)
      decreases rest.Keys
    {
      var e := MinKey(rest.Keys);
      SumWithout<Epoch>(rest, e);
      total := total + rest[e];
      rest := rest - {e};
    }
  }

  method SumTokens(t: Tokens) returns (total: Amount)
    ensures total == Total(t)
  {
    hide Total;
    total := 0;
    var rest: Tokens := t;
    while rest != map[]
      invariant total + Total(rest) == Total(t)
      decreases rest.Keys
    {
      var v := MinKey(rest.Keys);
      TotalWithout(rest, v);
      var inner := SumEntries(rest[v]);
      total := total + inner;
      rest := rest - {v};
    }
    TotalOfNone();
  }

  /** `compute_modified_redelegation` */
  method ComputeModifiedRedelegation(t: Tokens, start: Epoch, amountToUnbond: Amount) returns (m: ModifiedRedelegation)
    ensures m == ComputeModified(t, start, amountToUnbond)
  {
    hide Modify, Total, Also;
    var totalRedelegated := SumTokens(t);
    if totalRedelegated <= amountToUnbond {
      return Everything(start);
    }
    var validators: set<Address> := {};
    var remaining := amountToUnbond;
    var rest: Tokens := t;
    AlsoNone(Modify(t, start, amountToUnbond));
    while rest != map[] && remaining != 0
      invariant Modify(t, start, amountToUnbond) == Also(Modify(rest, start, remaining), validators)
      decreases rest.Keys
    {
      var v := MinKey(rest.Keys);
      ModifyStep(rest, start, remaining, v);
      var totalOfSource := SumEntries(rest[v]);
      if totalOfSource <= remaining {
        AlsoTwice(Modify(rest - {v}, start, remaining - totalOfSource), v, validators);
        validators := validators + {v};
        remaining := remaining - totalOfSource;
        rest := rest - {v};
      } else {
        var r := FindBondsToRemove(rest[v], remaining);
        return Also(ModifyOne(start, v, r), validators);
      }
    }
    ModifyNothing(rest, start, remaining);
    return Also(Everything(start), validators);
  }

  lemma AlsoNone(m: ModifiedRedelegation)
    ensures Also(m, {}) == m
  {
  }

  lemma AlsoTwice(m: ModifiedRedelegation, v: Address, validators: set<Address>)
    ensures Also(Also(m, {v}), validators) == Also(m, validators + {v})
  {
    assert {v} + validators == validators + {v};
  }

  /** `update_redelegated_bonds` */
  method UpdateRedelegatedBonds(t: Tokens, m: ModifiedRedelegation) returns (t': Tokens)
    requires m.epochToModify.Some? ==> m.newAmount.Some?
    ensures t' == Updated(t, m)
  {
    if m.validatorToModify.None? {
      t' := RemoveValidators(t, m.validatorsToRemove);
    } else {
      var v := m.validatorToModify.value;
      t' := RemoveValidators(t, m.validatorsToRemove - {v});
      var inner := At(t', v);
      if m.epochToModify.Some? {
        inner := RemoveEpochs(inner, m.epochsToRemove - {m.epochToModify.value});
        inner := inner[m.epochToModify.value := m.newAmount.value];
      } else {
        inner := RemoveEpochs(inner, m.epochsToRemove);
      }
      t' := t'[v := inner];
    }
  }

  method RemoveValidators(t: Tokens, validators: set<Address>) returns (t': Tokens)
    ensures t' == t - validators
  {
    t' := t;
    var rest := validators;
    while rest != {}
      invariant t' - rest == t - validators
      decreases rest
    {
      var v := MinKey(rest);
      assert t' - rest == (t' - {v}) - (rest - {v});
      t' := t' - {v};
      rest := rest - {v};
    }
    assert t' - {} == t';
  }

  method RemoveEpochs(inner: map<Epoch, Amount>, epochs: set<Epoch>) returns (left: map<Epoch, Amount>)
    ensures left == inner - epochs
  {
    left := inner;
    var rest := epochs;
    while rest != {}
      invariant left - rest == inner - epochs
      decreases rest
    {
      var e := MinKey(rest);
      assert left - rest == (left - {e}) - (rest - {e});
      left := left - {e};
      rest := rest - {e};
    }
    assert left - {} == left;
  }

  /** `compute_new_redelegated_unbonds` */
  method ComputeNewRedelegatedUnbonds(r: RedelegatedBonds, epochs: set<Epoch>, m: ModifiedRedelegation)
    returns (unbonds: map<Epoch, Tokens>)
    requires m.epoch.Some? ==> m.epoch.value !in epochs
    requires m.epochToModify.Some? ==> m.newAmount.Some?
    ensures unbonds == NewRedelegatedUnbonds(r, epochs, m)
  {
    hide UnbondedAt;
    unbonds := map[];
    var rest := if m.epoch.Some? then epochs + {m.epoch.value} else epochs;
    ghost var all := rest;
    while rest != {}
      invariant rest <= all
      invariant forall e | e in r && e in all && e !in rest :: e in unbonds && unbonds[e] == UnbondedAt(r[e], e, m)
      invariant forall e | e in unbonds :: e in r && e in all && e !in rest
      decreases rest
    {
      var start := MinKey(rest);
      if start in r {
        var tokens := UnbondTokens(r[start], start, m);
        unbonds := unbonds[start := tokens];
      }
      rest := rest - {start};
    }
  }

  method UnbondTokens(t: Tokens, start: Epoch, m: ModifiedRedelegation) returns (tokens: Tokens)
    requires m.epochToModify.Some? ==> m.newAmount.Some?
    ensures tokens == UnbondedAt(t, start, m)
  {
    if m.epoch == Some(start) {
      tokens := ReturnTokens(t, m);
    } else {
      tokens := t;
    }
  }

  method ReturnTokens(t: Tokens, m: ModifiedRedelegation) returns (returned: Tokens)
    requires m.epochToModify.Some? ==> m.newAmount.Some?
    ensures returned == Returned(t, m)
  {
    hide InnerReturned;
    if m.validatorsToRemove == {} {
      return t;
    }
    returned := map[];
    var rest := m.validatorsToRemove;
    while rest != {}
      invariant rest <= m.validatorsToRemove
      invariant returned.Keys == m.validatorsToRemove - rest
      invariant forall v | v in returned :: returned[v] == ReturnedBy(t, m, v)
      decreases rest
    {
      var v := MinKey(rest);
      var inner := At(t, v);
      if m.validatorToModify == Some(v) {
        inner := ReturnEpochs(inner, m.epochsToRemove, m.epochToModify, m.newAmount);
      }
      returned := returned[v := inner];
      rest := rest - {v};
    }
  }

  method ReturnEpochs(inner: map<Epoch, Amount>, epochs: set<Epoch>, toModify: Option<Epoch>, newAmount: Option<Amount>)
    returns (returned: map<Epoch, Amount>)
    requires toModify.Some? ==> newAmount.Some?
    ensures returned == InnerReturned(inner, epochs, toModify, newAmount)
  {
    returned := map[];
    var rest := epochs;
    while rest != {}
      invariant rest <= epochs && returned.Keys == epochs - rest
      invariant forall e | e in returned ::
                  returned[e] == if toModify == Some(e) then Monus(Get(inner, e), newAmount.value) else Get(inner, e)
      decreases rest
    {
      var e := MinKey(rest);
      var current := Get(inner, e);
      if toModify == Some(e) {
        current := Monus(current, newAmount.value);
      }
      returned := returned[e := current];
      rest := rest - {e};
    }
  }
}
