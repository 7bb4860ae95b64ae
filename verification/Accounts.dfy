/** The bonds and unbonds of one source at one validator, with the redelegated part of each. */
module Accounts {
  import opened Types
  import opened FiniteSums
  import opened BondRemoval
  import opened Redelegations

  /** An unbond by the start epoch of its bond and the first epoch in which it can be withdrawn. */
  datatype UnbondKey = UnbondKey(start: Epoch, withdraw: Epoch)

  type RedelegatedUnbonds = map<UnbondKey, Tokens>

  datatype Account = Account(
    bonds: map<Epoch, Amount>,
    redelegated: RedelegatedBonds,
    unbonds: map<UnbondKey, Amount>,
    redelegatedUnbonds: RedelegatedUnbonds)

  const NO_ACCOUNT := Account(map[], map[], map[], map[])

  function UnbondTokensAt(r: RedelegatedUnbonds, k: UnbondKey): Tokens {
    if k in r then r[k] else map[]
  }

  /** Every bond holds at least what was redelegated into it, and so does every unbond. */
  ghost predicate Covered(a: Account) {
    && (forall e: Epoch :: Total(TokensAt(a.redelegated, e)) <= Get(a.bonds, e))
    && (forall k: UnbondKey :: Total(UnbondTokensAt(a.redelegatedUnbonds, k)) <= Get(a.unbonds, k))
  }

  ghost function Outstanding(a: Account): Amount {
    Tally(a.bonds) + Tally(a.unbonds)
  }

  // ---- Adding to maps of amounts ----

  function AddAmounts<K>(a: map<K, Amount>, b: map<K, Amount>): map<K, Amount> {
    map k | k in a.Keys + b.Keys :: Get(a, k) + Get(b, k)
  }

  function AddTokens(a: Tokens, b: Tokens): Tokens {
    map v | v in a.Keys + b.Keys :: AddAmounts(At(a, v), At(b, v))
  }

  lemma AddTokensTotal(a: Tokens, b: Tokens)
    ensures Total(AddTokens(a, b)) == Total(a) + Total(b)
  {
    forall v: Address, e: Epoch
      ensures AmountAt(AddTokens(a, b), v, e) == AmountAt(a, v, e) + AmountAt(b, v, e)
    {
      AddTokensAt(a, b, v, e);
    }
    TotalPointwise(a, b, AddTokens(a, b));
  }

  lemma AddTokensAt(a: Tokens, b: Tokens, v: Address, e: Epoch)
    ensures AmountAt(AddTokens(a, b), v, e) == AmountAt(a, v, e) + AmountAt(b, v, e)
  {
  }

  // ---- `updatedUnbonded` ----

  /** Each new unbond is added at its start epoch and the common withdrawable epoch. */
  function AddUnbonds(unbonds: map<UnbondKey, Amount>, more: map<Epoch, Amount>, withdraw: Epoch): map<UnbondKey,
                      Amount>
    decreases more.Keys
  {
    if more == map[] then unbonds
    else
      var e := MinKey(more.Keys);
      var k := UnbondKey(e, withdraw);
      AddUnbonds(unbonds[k := Get(unbonds, k) + more[e]], more - {e}, withdraw)
  }

  lemma {:induction false} AddUnbondsAt(unbonds: map<UnbondKey, Amount>, more: map<Epoch, Amount>, withdraw: Epoch)
    ensures forall k: UnbondKey ::
              Get(AddUnbonds(unbonds, more, withdraw), k) ==
                Get(unbonds, k) + if k.withdraw == withdraw then Get(more, k.start) else 0
    ensures forall k: UnbondKey ::
              k in AddUnbonds(unbonds, more, withdraw) <==> k in unbonds || (k.withdraw == withdraw && k.start in more)
    decreases more.Keys
  {
    if more != map[] {
      var e := MinKey(more.Keys);
      var k := UnbondKey(e, withdraw);
      AddUnbondsAt(unbonds[k := Get(unbonds, k) + more[e]], more - {e}, withdraw);
    }
  }

  lemma {:induction false} AddUnbondsTally(unbonds: map<UnbondKey, Amount>, more: map<Epoch, Amount>, withdraw: Epoch)
    ensures Tally(AddUnbonds(unbonds, more, withdraw)) == Tally(unbonds) + Tally(more)
    decreases more.Keys
  {
    if more != map[] {
      var e := MinKey(more.Keys);
      var k := UnbondKey(e, withdraw);
      AddUnbondsTally(unbonds[k := Get(unbonds, k) + more[e]], more - {e}, withdraw);
      SumUpdate(unbonds, k, Get(unbonds, k) + more[e]);
      SumWithout<Epoch>(more, e);
    }
  }

  function AddRedelegatedUnbonds(r: RedelegatedUnbonds, more: map<Epoch, Tokens>, withdraw: Epoch): RedelegatedUnbonds
    decreases more.Keys
  {
    if more == map[] then r
    else
      var e := MinKey(more.Keys);
      var k := UnbondKey(e, withdraw);
      AddRedelegatedUnbonds(r[k := AddTokens(UnbondTokensAt(r, k), more[e])], more - {e}, withdraw)
  }

  lemma {:induction false} AddRedelegatedUnbondsAt(r: RedelegatedUnbonds, more: map<Epoch, Tokens>, withdraw: Epoch)
    ensures forall k: UnbondKey ::
              UnbondTokensAt(AddRedelegatedUnbonds(r, more, withdraw), k) ==
                if k.withdraw == withdraw && k.start in more then AddTokens(UnbondTokensAt(r, k), more[k.start])
                else UnbondTokensAt(r, k)
    decreases more.Keys
  {
    hide AddTokens;
    if more != map[] {
      var e := MinKey(more.Keys);
      var k := UnbondKey(e, withdraw);
      AddRedelegatedUnbondsAt(r[k := AddTokens(UnbondTokensAt(r, k), more[e])], more - {e}, withdraw);
    }
  }

  // ---- The delegator's side of `unbond_tokens` ----

  /** What an unbond takes from the account: amounts by bond epoch, and redelegated tokens by bond epoch. */
  datatype Taken = Taken(amounts: map<Epoch, Amount>, redelegated: map<Epoch, Tokens>)

  ghost function PlanOf(a: Account, r: BondsForRemoval): ModifiedRedelegation {
    if r.newEntry.Some? && r.newEntry.value.epoch in a.redelegated then
      var e := r.newEntry.value.epoch;
      ComputeModified(a.redelegated[e], e, Monus(Get(a.bonds, e), r.newEntry.value.amount))
    else UNMODIFIED
  }

  ghost function Take(a: Account, amount: Amount): Taken {
    var r := FindBonds(a.bonds, amount);
    Taken(UnbondedAmounts(a.bonds, r), NewRedelegatedUnbonds(a.redelegated, r.epochs, PlanOf(a, r)))
  }

  /** The account without what was taken. */
  ghost function After(a: Account, amount: Amount): Account {
    var r := FindBonds(a.bonds, amount);
    a.(bonds := BondsLeft(a.bonds, r), redelegated := RedelegatedLeft(a.redelegated, r.epochs, PlanOf(a, r)))
  }

  /** What was taken becomes an unbond, unless the tokens move on to another validator. */
  ghost function AfterUnbond(a: Account, amount: Amount, withdraw: Epoch): Account {
    var b, taken := After(a, amount), Take(a, amount);
    b.(unbonds := AddUnbonds(b.unbonds, taken.amounts, withdraw),
       redelegatedUnbonds := AddRedelegatedUnbonds(b.redelegatedUnbonds, taken.redelegated, withdraw))
  }

  /** At every epoch, bond and redelegated entries before are those after plus those taken. */
  ghost predicate SplitAt(a: Account, b: Account, taken: Taken, e: Epoch) {
    && Get(a.bonds, e) == Get(b.bonds, e) + Get(taken.amounts, e)
    && forall v: Address, s: Epoch ::
         AmountAt(TokensAt(a.redelegated, e), v, s) ==
           AmountAt(TokensAt(b.redelegated, e), v, s) + AmountAt(TokensAt(taken.redelegated, e), v, s)
  }

  /** The redelegated part that is taken is all there is, or as much as the amount taken from the bond. */
  ghost predicate RedelegatedFirst(a: Account, taken: Taken, e: Epoch) {
    e in taken.amounts ==>
      Total(TokensAt(taken.redelegated, e)) == Min(Total(TokensAt(a.redelegated, e)), taken.amounts[e])
  }

  lemma RedelegatedLeftAt(r: RedelegatedBonds, epochs: set<Epoch>, m: ModifiedRedelegation, e: Epoch)
    requires m.epoch.Some? ==> m.epoch.value !in epochs
    ensures TokensAt(RedelegatedLeft(r, epochs, m), e)
         == if e in epochs then map[] else if m.epoch == Some(e) then Left(TokensAt(r, e), m) else TokensAt(r, e)
  {
    hide Left;
  }

  lemma TakenAt(a: Account, amount: Amount, e: Epoch)
    ensures var r := FindBonds(a.bonds, amount);
            TokensAt(Take(a, amount).redelegated, e) ==
              if e in a.redelegated && (e in r.epochs || PlanOf(a, r).epoch == Some(e))
              then UnbondedAt(a.redelegated[e], e, PlanOf(a, r)) else map[]
  {
    hide UnbondedAt, PlanOf;
  }

  /** The plan changes at most the partially unbonded epoch, by the amount unbonded there. */
  lemma PlanEpoch(a: Account, amount: Amount)
    requires amount > 0
    ensures var r := FindBonds(a.bonds, amount);
            var m := PlanOf(a, r);
            && (r.newEntry.Some? && r.newEntry.value.epoch in a.redelegated ==> m.epoch.Some?)
            && (m.epoch.Some? ==>
              && r.newEntry.Some? && r.newEntry.value.epoch == m.epoch.value
              && m.epoch.value in a.redelegated && m.epoch.value in a.bonds && m.epoch.value !in r.epochs
              && 0 < r.newEntry.value.amount < a.bonds[m.epoch.value]
              && m == ComputeModified(a.redelegated[m.epoch.value], m.epoch.value, a.bonds[m.epoch.value] - r.newEntry.value.amount))
  {
    hide ComputeModified;
    FindBondsLatestFirst(a.bonds, amount);
    var r := FindBonds(a.bonds, amount);
    if r.newEntry.Some? && r.newEntry.value.epoch in a.redelegated {
      var e := r.newEntry.value.epoch;
      ComputeModifiedConsistent(a.redelegated[e], e, Monus(Get(a.bonds, e), r.newEntry.value.amount));
    }
  }

  lemma SameTokensSplit(t: Tokens)
    ensures forall v: Address, s: Epoch :: AmountAt(t, v, s) == AmountAt(t, v, s) + AmountAt(map[], v, s)
  {
  }

  /** For every account and every positive amount, the bonds and the redelegated bonds are split
      entry by entry. */
  lemma UnbondSplit(a: Account, amount: Amount, e: Epoch)
    requires amount > 0
    ensures SplitAt(a, After(a, amount), Take(a, amount), e)
  {
    hide FindBonds, PlanOf, UnbondedAmounts, BondsLeft, RedelegatedLeft, NewRedelegatedUnbonds, TokensAt, AmountAt, Left, Returned;
    var r := FindBonds(a.bonds, amount);
    var m := PlanOf(a, r);
    FindBondsLatestFirst(a.bonds, amount);
    BondsSplit(a.bonds, r);
    PlanEpoch(a, amount);
    RedelegatedLeftAt(a.redelegated, r.epochs, m, e);
    TakenAt(a, amount, e);
    TokensSplit(a, amount, e);
  }

  lemma TokensSplit(a: Account, amount: Amount, e: Epoch)
    requires amount > 0
    ensures forall v: Address, s: Epoch ::
              AmountAt(TokensAt(a.redelegated, e), v, s) ==
                AmountAt(TokensAt(After(a, amount).redelegated, e), v, s) + AmountAt(TokensAt(Take(a, amount).redelegated, e), v, s)
  {
    hide FindBonds, PlanOf, RedelegatedLeft, NewRedelegatedUnbonds, AmountAt, Left, Returned;
    var r := FindBonds(a.bonds, amount);
    var m := PlanOf(a, r);
    PlanEpoch(a, amount);
    RedelegatedLeftAt(a.redelegated, r.epochs, m, e);
    TakenAt(a, amount, e);
    SameTokensSplit(TokensAt(a.redelegated, e));
    if m.epoch == Some(e) {
      RedelegationSplit(a.redelegated[e], e, a.bonds[e] - r.newEntry.value.amount);
    }
  }

  /** From a covered bond, redelegated tokens are taken first. */
  lemma TakesRedelegatedFirst(a: Account, amount: Amount, e: Epoch)
    requires amount > 0
    requires Total(TokensAt(a.redelegated, e)) <= Get(a.bonds, e)
    ensures RedelegatedFirst(a, Take(a, amount), e)
    ensures e !in Take(a, amount).amounts ==> e !in Take(a, amount).redelegated
  {
    hide FindBonds, PlanOf, RedelegatedLeft, Left, Returned, Total;
    var r := FindBonds(a.bonds, amount);
    var m := PlanOf(a, r);
    FindBondsLatestFirst(a.bonds, amount);
    PlanEpoch(a, amount);
    TakenAt(a, amount, e);
    TotalOfNone();
    if m.epoch == Some(e) {
      RedelegationSplit(a.redelegated[e], e, a.bonds[e] - r.newEntry.value.amount);
    }
  }

  lemma TakenTally(a: Account, amount: Amount)
    requires amount <= Tally(a.bonds)
    ensures Tally(Take(a, amount).amounts) == amount
    ensures Tally(After(a, amount).bonds) == Tally(a.bonds) - amount
  {
    UnbondedTotal(a.bonds, amount);
    FindBondsLatestFirst(a.bonds, amount);
    BondsSplit(a.bonds, FindBonds(a.bonds, amount));
  }

  /** Taking from a covered account leaves a covered account. */
  lemma AfterCovered(a: Account, amount: Amount)
    requires amount > 0 && Covered(a)
    ensures Covered(After(a, amount))
  {
    var b, taken := After(a, amount), Take(a, amount);
    forall e: Epoch ensures Total(TokensAt(b.redelegated, e)) <= Get(b.bonds, e) {
      AfterCoveredAt(a, amount, e);
    }
  }

  lemma AfterCoveredAt(a: Account, amount: Amount, e: Epoch)
    requires amount > 0
    requires Total(TokensAt(a.redelegated, e)) <= Get(a.bonds, e)
    ensures Total(TokensAt(After(a, amount).redelegated, e)) <= Get(After(a, amount).bonds, e)
    ensures Total(TokensAt(Take(a, amount).redelegated, e)) <= Get(Take(a, amount).amounts, e)
  {
    hide Take, After, Total;
    UnbondSplit(a, amount, e);
    TakesRedelegatedFirst(a, amount, e);
    TotalPointwise(TokensAt(After(a, amount).redelegated, e), TokensAt(Take(a, amount).redelegated, e), TokensAt(a.redelegated, e));
    TotalOfNone();
  }

  /** Turning what was taken into an unbond leaves a covered account with the same total outstanding. */
  lemma AfterUnbondCovered(a: Account, amount: Amount, withdraw: Epoch)
    requires 0 < amount <= Tally(a.bonds) && Covered(a)
    ensures Covered(AfterUnbond(a, amount, withdraw))
    ensures Outstanding(AfterUnbond(a, amount, withdraw)) == Outstanding(a)
  {
    hide Take, After, Total, AddTokens, AddUnbonds, AddRedelegatedUnbonds;
    var b, c, taken := After(a, amount), AfterUnbond(a, amount, withdraw), Take(a, amount);
    AfterCovered(a, amount);
    TakenTally(a, amount);
    AfterSameUnbonds(a, amount);
    AddUnbondsTally(a.unbonds, taken.amounts, withdraw);
    AddUnbondsAt(a.unbonds, taken.amounts, withdraw);
    AddRedelegatedUnbondsAt(a.redelegatedUnbonds, taken.redelegated, withdraw);
    forall k: UnbondKey ensures Total(UnbondTokensAt(c.redelegatedUnbonds, k)) <= Get(c.unbonds, k) {
      AfterCoveredAt(a, amount, k.start);
      if k.withdraw == withdraw && k.start in taken.redelegated {
        AddTokensTotal(UnbondTokensAt(a.redelegatedUnbonds, k), taken.redelegated[k.start]);
      }
    }
  }

  lemma AfterSameUnbonds(a: Account, amount: Amount)
    ensures After(a, amount).unbonds == a.unbonds && After(a, amount).redelegatedUnbonds == a.redelegatedUnbonds
  {
  }
}
