/** The loops of the ledger operations. */
module LedgerLoops {
  import opened Types
  import opened Parameters
  import opened FiniteSums
  import opened BondRemoval
  import opened Redelegations
  import opened Accounts
  import opened Slashing
  import opened UnbondSlashing
  import opened Ledger
  import opened LedgerInvariants

  /** The amount unbonded from each touched epoch. */
  method NewUnbonds(bonds: map<Epoch, Amount>, r: BondsForRemoval) returns (amounts: map<Epoch, Amount>)
    requires LatestFirst(bonds, r)
    ensures amounts == UnbondedAmounts(bonds, r)
  {
    amounts := map[];
    var rest := r.TouchedEpochs();
    while rest != {}
      invariant rest <= r.TouchedEpochs() && amounts.Keys == r.TouchedEpochs() - rest
      invariant forall e | e in amounts ::
                  amounts[e] == if r.newEntry.Some? && r.newEntry.value.epoch == e then bonds[e] - r.newEntry.value.amount else bonds[e]
      decreases rest
    {
      var e := MinKey(rest);
      var value := bonds[e];
      if r.newEntry.Some? && r.newEntry.value.epoch == e {
        value := value - r.newEntry.value.amount;
      }
      amounts := amounts[e := value];
      rest := rest - {e};
    }
  }

  method AddToUnbonds(unbonds: map<UnbondKey, Amount>, more: map<Epoch, Amount>, withdraw: Epoch)
    returns (unbonds': map<UnbondKey, Amount>)
    ensures unbonds' == AddUnbonds(unbonds, more, withdraw)
  {
    unbonds' := unbonds;
    var rest := more;
    while rest != map[]
      invariant AddUnbonds(unbonds', rest, withdraw) == AddUnbonds(unbonds, more, withdraw)
      decreases rest.Keys
    {
      var start := MinKey(rest.Keys);
      var k := UnbondKey(start, withdraw);
      unbonds' := unbonds'[k := Get(unbonds', k) + rest[start]];
      rest := rest - {start};
    }
  }

  method AddToAmounts(a: map<Epoch, Amount>, b: map<Epoch, Amount>) returns (c: map<Epoch, Amount>)
    ensures c == AddAmounts(a, b)
  {
    c := a;
    var rest := b;
    while rest != map[]
      invariant rest.Keys <= b.Keys && c.Keys == a.Keys + (b.Keys - rest.Keys)
      invariant forall e | e in rest :: rest[e] == b[e]
      invariant forall e | e in c :: c[e] == Get(a, e) + if e in rest then 0 else Get(b, e)
      decreases rest.Keys
    {
      var e := MinKey(rest.Keys);
      c := c[e := Get(c, e) + rest[e]];
      rest := rest - {e};
    }
  }

  method AddToTokens(a: Tokens, b: Tokens) returns (c: Tokens)
    ensures c == AddTokens(a, b)
  {
    hide AddAmounts;
    c := a;
    var rest := b;
    forall v | v in a ensures AddAmounts(a[v], map[]) == a[v] {
      AddNothing(a[v]);
    }
    while rest != map[]
      invariant rest.Keys <= b.Keys && c.Keys == a.Keys + (b.Keys - rest.Keys)
      invariant forall v | v in rest :: rest[v] == b[v]
      invariant forall v | v in c :: c[v] == if v in rest then a[v] else AddAmounts(At(a, v), At(b, v))
      decreases rest.Keys
    {
      var v := MinKey(rest.Keys);
      var inner := AddToAmounts(At(c, v), rest[v]);
      c := c[v := inner];
      rest := rest - {v};
    }
  }

  lemma AddNothing(a: map<Epoch, Amount>)
    ensures AddAmounts(a, map[]) == a
  {
  }

  method AddToRedelegatedUnbonds(r: RedelegatedUnbonds, more: map<Epoch, Tokens>, withdraw: Epoch)
    returns (r': RedelegatedUnbonds)
    ensures r' == AddRedelegatedUnbonds(r, more, withdraw)
  {
    hide AddTokens;
    r' := r;
    var rest := more;
    while rest != map[]
      invariant AddRedelegatedUnbonds(r', rest, withdraw) == AddRedelegatedUnbonds(r, more, withdraw)
      decreases rest.Keys
    {
      var start := MinKey(rest.Keys);
      var k := UnbondKey(start, withdraw);
      var tokens := AddToTokens(UnbondTokensAt(r', k), rest[start]);
      r' := r'[k := tokens];
      rest := rest - {start};
    }
  }

  /** Take the amounts off the validator's total bonded; the subtraction is unsigned. */
  method SubFromBonded(total: map<BondSlot, Amount>, v: Address,
                       amounts: map<Epoch, Amount>) returns (total': map<BondSlot, Amount>)
    requires forall e: Epoch :: Get(amounts, e) <= Get(total, BondSlot(v, e))
    ensures total' == SubBonded(total, v, amounts)
  {
    total' := total;
    var rest := amounts;
    while rest != map[]
      invariant forall e: Epoch :: Get(rest, e) <= Get(total', BondSlot(v, e))
      invariant SubBonded(total', v, rest) == SubBonded(total, v, amounts)
      decreases rest.Keys
    {
      var start := MinKey(rest.Keys);
      var k := BondSlot(v, start);
      assert rest[start] == Get(rest, start) <= Get(total', k);
      total' := total'[k := Get(total', k) - rest[start]];
      rest := rest - {start};
    }
  }

  ghost predicate EntriesCover(total: map<RedelegationSlot, Amount>, v: Address, epoch: Epoch, t: Tokens) {
    forall src: Address, start: Epoch :: AmountAt(t, src, start) <= Get(total, RedelegationSlot(v, epoch, src, start))
  }

  /** The innermost loop over the total redelegated; the subtraction is unsigned. */
  method SubFromEntries(total: map<RedelegationSlot, Amount>, v: Address, epoch: Epoch, src: Address,
                        amounts: map<Epoch, Amount>)
    returns (total': map<RedelegationSlot, Amount>)
    requires forall e: Epoch :: Get(amounts, e) <= Get(total, RedelegationSlot(v, epoch, src, e))
    ensures total' == SubEntries(total, v, epoch, src, amounts)
  {
    total' := total;
    var rest := amounts;
    while rest != map[]
      invariant forall e: Epoch :: Get(rest, e) <= Get(total', RedelegationSlot(v, epoch, src, e))
      invariant SubEntries(total', v, epoch, src, rest) == SubEntries(total, v, epoch, src, amounts)
      decreases rest.Keys
    {
      var start := MinKey(rest.Keys);
      var k := RedelegationSlot(v, epoch, src, start);
      assert rest[start] == Get(rest, start) <= Get(total', k);
      total' := total'[k := Get(total', k) - rest[start]];
      rest := rest - {start};
    }
  }

  method SubFromTokens(total: map<RedelegationSlot, Amount>, v: Address, epoch: Epoch, t: Tokens)
    returns (total': map<RedelegationSlot, Amount>)
    requires EntriesCover(total, v, epoch, t)
    ensures total' == SubTokens(total, v, epoch, t)
  {
    hide SubEntries;
    total' := total;
    var rest := t;
    while rest != map[]
      invariant EntriesCover(total', v, epoch, rest)
      invariant SubTokens(total', v, epoch, rest) == SubTokens(total, v, epoch, t)
      decreases rest.Keys
    {
      var src := MinKey(rest.Keys);
      forall e: Epoch ensures Get(rest[src], e) <= Get(total', RedelegationSlot(v, epoch, src, e)) {
        assert AmountAt(rest, src, e) <= Get(total', RedelegationSlot(v, epoch, src, e));
      }
      StillCovered(total', v, epoch, src, rest);
      total' := SubFromEntries(total', v, epoch, src, rest[src]);
      rest := rest - {src};
    }
  }

  lemma StillCovered(total: map<RedelegationSlot, Amount>, v: Address, epoch: Epoch, src: Address, t: Tokens)
    requires src in t && EntriesCover(total, v, epoch, t)
    ensures EntriesCover(SubEntries(total, v, epoch, src, t[src]), v, epoch, t - {src})
  {
    hide SubEntries;
    var total' := SubEntries(total, v, epoch, src, t[src]);
    forall u: Address, e: Epoch ensures AmountAt(t - {src}, u, e) <= Get(total', RedelegationSlot(v, epoch, u, e)) {
      SubEntriesAt(total, v, epoch, src, t[src], RedelegationSlot(v, epoch, u, e));
      assert AmountAt(t, u, e) <= Get(total, RedelegationSlot(v, epoch, u, e));
    }
  }

  method SubFromRedelegated(total: map<RedelegationSlot, Amount>, v: Address, tokens: map<Epoch, Tokens>)
    returns (total': map<RedelegationSlot, Amount>)
    requires forall e | e in tokens :: EntriesCover(total, v, e, tokens[e])
    ensures total' == SubRedelegated(total, v, tokens)
  {
    hide SubTokens, EntriesCover;
    total' := total;
    var rest := tokens;
    while rest != map[]
      invariant forall e | e in rest :: EntriesCover(total', v, e, rest[e])
      invariant SubRedelegated(total', v, rest) == SubRedelegated(total, v, tokens)
      decreases rest.Keys
    {
      var epoch := MinKey(rest.Keys);
      forall e | e in rest && e != epoch ensures EntriesCover(SubTokens(total', v, epoch, rest[epoch]), v, e, rest[e]) {
        OthersCovered(total', v, epoch, rest[epoch], e, rest[e]);
      }
      total' := SubFromTokens(total', v, epoch, rest[epoch]);
      rest := rest - {epoch};
    }
  }

  lemma OthersCovered(total: map<RedelegationSlot, Amount>, v: Address, epoch: Epoch, t: Tokens, e: Epoch, u: Tokens)
    requires e != epoch && EntriesCover(total, v, e, u)
    ensures EntriesCover(SubTokens(total, v, epoch, t), v, e, u)
  {
    hide SubTokens;
    forall src: Address, start: Epoch
      ensures AmountAt(u, src, start) <= Get(SubTokens(total, v, epoch, t), RedelegationSlot(v, e, src, start))
    {
      SubTokensAt(total, v, epoch, t, RedelegationSlot(v, e, src, start));
    }
  }

  method AddToRedelegated(total: map<RedelegationSlot, Amount>, v: Address, epoch: Epoch, src: Address,
                          amounts: map<Epoch, Amount>)
    returns (total': map<RedelegationSlot, Amount>)
    ensures total' == AddRedelegated(total, v, epoch, src, amounts)
  {
    total' := total;
    var rest := amounts;
    while rest != map[]
      invariant AddRedelegated(total', v, epoch, src, rest) == AddRedelegated(total, v, epoch, src, amounts)
      decreases rest.Keys
    {
      var start := MinKey(rest.Keys);
      var k := RedelegationSlot(v, epoch, src, start);
      total' := total'[k := Get(total', k) + rest[start]];
      rest := rest - {start};
    }
  }

  /** The loops of `withdraw_tokens` over the unbonds that can be withdrawn, each slashed for the
      infractions while its bond contributed to stake. */
  method SlashWithdrawn(p: Params, slashes: map<Address, seq<Slash>>, v: Address, a: Account, epoch: Epoch)
    returns (sum: Amount, gone: set<UnbondKey>)
    ensures gone == Withdrawable(a.unbonds, epoch)
    ensures sum == Tally(WithdrawnOf(p, slashes, v, a, epoch))
  {
    hide WithdrawnAmount;
    sum := 0;
    gone := Withdrawable(a.unbonds, epoch);
    var rest := gone;
    ghost var done: map<UnbondKey, Amount> := map[];
    while rest != {}
      invariant rest <= gone && done.Keys == gone - rest
      invariant forall k | k in done :: done[k] == WithdrawnOf(p, slashes, v, a, epoch)[k]
      invariant sum == Tally(done)
      decreases rest
    {
      var k :| k in rest;
      var after := SlashOneUnbond(p, slashes, v, k, a.unbonds[k], UnbondTokensAt(a.redelegatedUnbonds, k));
      SumUpdate(done, k, after);
      done := done[k := after];
      sum := sum + after;
      rest := rest - {k};
    }
    assert done == WithdrawnOf(p, slashes, v, a, epoch);
  }

  method SlashOneUnbond(p: Params, slashes: map<Address, seq<Slash>>, v: Address, k: UnbondKey, amount: Amount,
                        t: Tokens)
    returns (after: Amount)
    ensures after == WithdrawnAmount(p, slashes, v, k, amount, t)
  {
    var list := Select(p, WithdrawFilter(p, k.start, k.withdraw), SlashesOf(slashes, v));
    after := SlashUnbond(p, slashes, k.start, amount, t, list);
  }
}

/** The ledger in storage, updated in place by the transactions. A failed transaction is rolled back,
    so it leaves the ledger as it was. */
module PosLedger {
  import opened Types
  import opened Parameters
  import opened FiniteSums
  import opened BondRemoval
  import opened Redelegations
  import opened Accounts
  import opened Slashing
  import opened UnbondSlashing
  import opened Ledger
  import opened LedgerInvariants
  import opened LedgerLoops

  /** The delegator's side of an unbond: find the bonds to remove, the change of the partially
      unbonded redelegation, and what is taken from each epoch. */
  method TakeFromAccount(a: Account, amount: Amount) returns (b: Account, taken: Taken)
    requires amount > 0
    ensures b == After(a, amount)
    ensures taken == Take(a, amount)
  {
    hide FindBonds, ComputeModified, NewRedelegatedUnbonds, UnbondedAmounts;
    var r := FindBondsToRemove(a.bonds, amount);
    FindBondsLatestFirst(a.bonds, amount);
    PlanEpoch(a, amount);
    var m := UNMODIFIED;
    if r.newEntry.Some? && r.newEntry.value.epoch in a.redelegated {
      var e := r.newEntry.value.epoch;
      m := ComputeModifiedRedelegation(a.redelegated[e], e, a.bonds[e] - r.newEntry.value.amount);
      ComputeModifiedConsistent(a.redelegated[e], e, a.bonds[e] - r.newEntry.value.amount);
    }
    var amounts := NewUnbonds(a.bonds, r);
    var bonds := RemoveEpochs(a.bonds, r.epochs);
    if r.newEntry.Some? {
      bonds := bonds[r.newEntry.value.epoch := r.newEntry.value.amount];
    }
    var redelegated := ComputeNewRedelegatedUnbonds(a.redelegated, r.epochs, m);
    var left := UpdateRedelegated(a.redelegated, r.epochs, m);
    b := a.(bonds := bonds, redelegated := left);
    taken := Taken(amounts, redelegated);
  }

  /** Unless the tokens are redelegated, what is taken becomes an unbond. */
  method UnbondFromAccount(p: Params, a: Account, amount: Amount, epoch: Epoch, isRedelegation: bool)
    returns (b: Account, taken: Taken)
    requires amount > 0
    ensures b == if isRedelegation then After(a, amount) else AfterUnbond(a, amount, epoch + p.WithdrawableEpochOffset())
    ensures taken == Take(a, amount)
  {
    hide Take, After, AddUnbonds, AddRedelegatedUnbonds;
    b, taken := TakeFromAccount(a, amount);
    if !isRedelegation {
      var withdraw := epoch + p.WithdrawableEpochOffset();
      var unbonds := AddToUnbonds(b.unbonds, taken.amounts, withdraw);
      var redelegatedUnbonds := AddToRedelegatedUnbonds(b.redelegatedUnbonds, taken.redelegated, withdraw);
      b := b.(unbonds := unbonds, redelegatedUnbonds := redelegatedUnbonds);
    }
  }

  method UpdateRedelegated(r: RedelegatedBonds, epochs: set<Epoch>,
                           m: ModifiedRedelegation) returns (left: RedelegatedBonds)
    requires m.epochToModify.Some? ==> m.newAmount.Some?
    ensures left == RedelegatedLeft(r, epochs, m)
  {
    left := r - epochs;
    if m.epoch.Some? {
      var tokens := TokensAt(left, m.epoch.value);
      if m.validatorsToRemove == {} {
        tokens := map[];
      } else {
        tokens := UpdateRedelegatedBonds(tokens, m);
      }
      left := left[m.epoch.value := tokens];
    }
  }

  class Storage {
    const params: Params
    var epoch: Epoch
    var validators: set<Address>
    var accounts: map<BondId, Account>
    var totalBonded: map<BondSlot, Amount>
    var totalRedelegated: map<RedelegationSlot, Amount>
    var slashes: map<Address, seq<Slash>>
    var lastInfraction: map<Address, Epoch>
    var incoming: map<BondId, Epoch>
    var posBalance: Amount
    var balances: map<Address, Amount>

    function Current(): State
      reads this
    {
      State(epoch, validators, accounts, totalBonded, totalRedelegated, slashes, lastInfraction, incoming, posBalance, balances)
    }

    ghost predicate Valid()
      reads this
    {
      Inv(params, Current())
    }

    constructor (params: Params, epoch: Epoch, validators: set<Address>, balances: map<Address, Amount>)
      ensures Valid() && Initial(Current())
      ensures this.params == params && this.epoch == epoch && this.validators == validators && this.balances == balances
    {
      this.params := params;
      this.epoch := epoch;
      this.validators := validators;
      accounts, totalBonded, totalRedelegated := map[], map[], map[];
      slashes, lastInfraction, incoming := map[], map[], map[];
      posBalance := 0;
      this.balances := balances;
      new;
      InitialInv(params, Current());
    }

    /** `bond_tokens` */
    method BondTokens(source: Option<Address>, v: Address, amount: Amount) returns (error: Option<Error>)
      requires Valid()
      modifies this
      ensures Valid()
      ensures Outcome(old(Current()), Bond(params, old(Current()), source, v, amount), error)
    {
      hide Inv;
      if amount == 0 {
        return None;
      }
      var id := IdOf(source, v);
      if SourceIsOtherValidator(Current(), source, v) {
        return Some(SourceMustNotBeAValidator);
      }
      if Get(balances, id.source) < amount {
        return Some(InsufficientBalance);
      }
      if v !in validators {
        return Some(NotAValidator);
      }
      BondInv(params, Current(), source, v, amount);
      balances := balances[id.source := balances[id.source] - amount];
      posBalance := posBalance + amount;
      accounts := accounts[id := BondTo(params, AccountOf(accounts, id), epoch, amount)];
      totalBonded := AddBonded(totalBonded, v, epoch + params.pipelineLen, amount);
      return None;
    }

    /** A transaction ends in the specified state, or leaves everything and reports the error. */
    ghost predicate Outcome(before: State, expected: Result<State, Error>, error: Option<Error>)
      reads this
    {
      match expected
      case Ok(s) => error == None && Current() == s
      case Err(e) => error == Some(e) && Current() == before
    }

    /** The checks of `unbond_tokens`. */
    method CheckUnbond(source: Option<Address>, v: Address, amount: Amount) returns (error: Option<Error>)
      requires Valid()
      ensures error == UnbondError(params, Current(), source, v, amount)
    {
      if SourceIsOtherValidator(Current(), source, v) {
        return Some(SourceMustNotBeAValidator);
      }
      if v !in validators {
        return Some(NotAValidator);
      }
      if IsFrozen(params, Current(), v) {
        return Some(ValidatorIsFrozen);
      }
      var remaining := SumEntries(BondsBy(AccountOf(accounts, IdOf(source, v)).bonds, epoch + params.pipelineLen));
      if amount > remaining {
        return Some(UnbondAmountGreaterThanBond);
      }
      return None;
    }

    /** `unbond_tokens`: returns what the unbonded tokens are worth after slashing, in all and by bond start epoch. */
    method UnbondTokens(source: Option<Address>, v: Address, amount: Amount)
      returns (error: Option<Error>, sum: Amount, epochMap: map<Epoch, Amount>)
      requires Valid()
      modifies this
      ensures Valid()
      ensures Outcome(old(Current()), Unbond(params, old(Current()), source, v, amount), error)
      ensures sum == Tally(epochMap) <= amount
      ensures epochMap == if error == None && amount > 0
                          then Ledger.ResultSlashing(params, old(Current()), IdOf(source, v), amount) else map[]
    {
      hide TakeOut, Ledger.ResultSlashing;
      sum, epochMap := 0, map[];
      if amount == 0 {
        return None, 0, map[];
      }
      error := CheckUnbond(source, v, amount);
      if error == None {
        AllBondsChecked(params, Current(), IdOf(source, v));
        sum, epochMap := TakeOutTokens(IdOf(source, v), amount, false);
      }
    }

    /** `unbond_tokens` after its checks: update the delegator's bonds and unbonds and the validator's
        totals together. No total underflows, because the totals agree with the bonds. */
    method TakeOutTokens(id: BondId, amount: Amount, isRedelegation: bool) returns (sum: Amount,
                         epochMap: map<Epoch, Amount>)
      requires Valid() && CanTake(Current(), id, amount)
      modifies this
      ensures Valid()
      ensures Current() == TakeOut(params, old(Current()), id, amount, isRedelegation)
      ensures epochMap == Ledger.ResultSlashing(params, old(Current()), id, amount)
      ensures sum == Tally(epochMap) <= amount
    {
      hide Inv, SlashedUnbonds, Take, After, AfterUnbond, SubBonded, SubRedelegated, EntriesCover;
      ghost var s := Current();
      TakeOutInv(params, s, id, amount, isRedelegation);
      TotalsCover(params, s, id, amount);
      SlashedWithin(params, s, id, amount);
      var b, taken := UnbondFromAccount(params, AccountOf(accounts, id), amount, epoch, isRedelegation);
      sum, epochMap := ComputeAmountAfterSlashingUnbond(params, slashes, id.validator, taken.amounts, taken.redelegated);
      accounts := accounts[id := b];
      totalBonded := SubFromBonded(totalBonded, id.validator, taken.amounts);
      totalRedelegated := SubFromRedelegated(totalRedelegated, id.validator, taken.redelegated);
    }

    /** The checks of `redelegate_tokens`, ending with those of the unbond from the source validator. */
    method CheckRedelegate(delegator: Address, src: Address, dest: Address,
                           amount: Amount) returns (error: Option<Error>)
      requires Valid()
      ensures error == RedelegateError(params, Current(), delegator, src, dest, amount)
    {
      hide Inv, UnbondError;
      if src == dest {
        return Some(SourceIsDestination);
      }
      if delegator in validators {
        return Some(DelegatorIsValidator);
      }
      if src !in validators {
        return Some(NotAValidator);
      }
      if dest !in validators {
        return Some(NotAValidator);
      }
      if IsChained(params, Current(), delegator, src) {
        return Some(IsChainedRedelegation);
      }
      error := CheckUnbond(Some(delegator), src, amount);
    }

    /** The destination's side of `redelegate_tokens`. */
    method BringInTokens(delegator: Address, src: Address, dest: Address, sum: Amount, amounts: map<Epoch, Amount>)
      requires Valid() && sum == Tally(amounts)
      requires TotalOutstanding(accounts) + Tally(amounts) <= posBalance
      modifies this
      ensures Valid()
      ensures Current() == BringIn(params, old(Current()), delegator, src, dest, amounts)
    {
      hide Inv, TotalOutstanding, BringIn;
      BringInInv(params, Current(), delegator, src, dest, amounts);
      var id := BondId(delegator, dest);
      var a, bonded, redelegated := BringInParts(params, Current(), delegator, src, dest, sum, amounts);
      accounts := accounts[id := a];
      totalBonded, totalRedelegated := bonded, redelegated;
      incoming := incoming[id := epoch + params.pipelineLen];
    }

    /** `redelegate_tokens` */
    method RedelegateTokens(delegator: Address, src: Address, dest: Address,
                            amount: Amount) returns (error: Option<Error>)
      requires Valid()
      modifies this
      ensures Valid()
      ensures Outcome(old(Current()), Redelegate(params, old(Current()), delegator, src, dest, amount), error)
    {
      hide TakeOut, BringIn, Ledger.ResultSlashing, TotalOutstanding, AccountsOk, BondedAgrees, RedelegatedAgrees;
      if amount == 0 {
        return None;
      }
      error := CheckRedelegate(delegator, src, dest, amount);
      if error == None {
        var id := BondId(delegator, src);
        AllBondsChecked(params, Current(), id);
        TakeOutInv(params, Current(), id, amount, true);
        TakeOutSameBalance(params, Current(), id, amount, true);
        var sum, epochMap := TakeOutTokens(id, amount, true);
        BringInTokens(delegator, src, dest, sum, epochMap);
      }
    }

    /** `withdraw_tokens`: the transfer out of the PoS account never lacks funds. */
    method WithdrawTokens(source: Option<Address>, v: Address) returns (error: Option<Error>, amount: Amount)
      requires Valid()
      modifies this
      ensures Valid()
      ensures Outcome(old(Current()), Withdraw(params, old(Current()), source, v), error)
      ensures error == None || error == Some(NoUnbondFound)
      ensures error == None ==> amount == Tally(WithdrawnAmounts(params, old(Current()), IdOf(source, v)))
    {
      hide AccountsOk, BondedAgrees, RedelegatedAgrees, Solvent, WithdrawnOf;
      var id := IdOf(source, v);
      var a := AccountOf(accounts, id);
      amount := 0;
      if a.unbonds == map[] {
        return Some(NoUnbondFound), 0;
      }
      WithdrawHasFunds(params, Current(), source, v);
      WithdrawInv(params, Current(), source, v);
      var gone;
      amount, gone := SlashWithdrawn(params, slashes, v, a, epoch);
      accounts := accounts[id := a.(unbonds := a.unbonds - gone, redelegatedUnbonds := a.redelegatedUnbonds - gone)];
      posBalance := posBalance - amount;
      balances := balances[id.source := Get(balances, id.source) + amount];
      return None, amount;
    }
  }

  /** The new destination account and the destination's new totals. */
  method BringInParts(p: Params, s: State, delegator: Address, src: Address, dest: Address, sum: Amount,
                      amounts: map<Epoch, Amount>)
    returns (a: Account, bonded: map<BondSlot, Amount>, redelegated: map<RedelegationSlot, Amount>)
    requires sum == Tally(amounts)
    ensures BringIn(p, s, delegator, src, dest, amounts)
         == s.(accounts := s.accounts[BondId(delegator, dest) := a], totalBonded := bonded, totalRedelegated := redelegated,
               incoming := s.incoming[BondId(delegator, dest) := s.epoch + p.pipelineLen])
  {
    hide AddRedelegated, AddBonded, RedelegateTo;
    var e := s.epoch + p.pipelineLen;
    a := RedelegateToAccount(p, AccountOf(s.accounts, BondId(delegator, dest)), s.epoch, src, sum, amounts);
    bonded := s.totalBonded;
    if sum != 0 {
      bonded := AddBonded(bonded, dest, e, sum);
    }
    redelegated := AddToRedelegated(s.totalRedelegated, dest, e, src, amounts);
  }

  method RedelegateToAccount(p: Params, a: Account, epoch: Epoch, src: Address, sum: Amount,
                             amounts: map<Epoch, Amount>)
    returns (b: Account)
    requires sum == Tally(amounts)
    ensures b == RedelegateTo(p, a, epoch, src, amounts)
  {
    hide AddAmounts;
    var e := epoch + p.pipelineLen;
    var tokens := TokensAt(a.redelegated, e);
    var inner := AddToAmounts(At(tokens, src), amounts);
    b := a.(redelegated := a.redelegated[e := tokens[src := inner]]);
    if sum != 0 {
      b := BondTo(p, b, epoch, sum);
    }
  }

  lemma SlashedWithin(p: Params, s: State, id: BondId, amount: Amount)
    requires Inv(p, s) && CanTake(s, id, amount)
    ensures Tally(Ledger.ResultSlashing(p, s, id, amount)) <= amount
  {
    hide Ledger.ResultSlashing;
    SlashedAtMostRequested(p, s, id, amount);
  }

  /** The validator's totals hold at least what is taken from one delegator. */
  lemma TotalsCover(p: Params, s: State, id: BondId, amount: Amount)
    requires Inv(p, s) && CanTake(s, id, amount)
    ensures var taken := Take(AccountOf(s.accounts, id), amount);
            && (forall e: Epoch :: Get(taken.amounts, e) <= Get(s.totalBonded, BondSlot(id.validator, e)))
            && (forall e | e in taken.redelegated :: EntriesCover(s.totalRedelegated, id.validator, e, taken.redelegated[e]))
  {
    hide Take, After, BondedTotal, RedelegatedTotal, AccountsOk, Solvent, AmountAt;
    var a := AccountOf(s.accounts, id);
    var taken := Take(a, amount);
    forall e: Epoch ensures Get(taken.amounts, e) <= Get(s.totalBonded, BondSlot(id.validator, e)) {
      BondedCovers(s, id, amount, e);
    }
    forall e | e in taken.redelegated ensures EntriesCover(s.totalRedelegated, id.validator, e, taken.redelegated[e]) {
      TotalsCoverEntries(p, s, id, amount, e);
    }
  }

  lemma TotalsCoverEntries(p: Params, s: State, id: BondId, amount: Amount, e: Epoch)
    requires Inv(p, s) && CanTake(s, id, amount) && e in Take(AccountOf(s.accounts, id), amount).redelegated
    ensures EntriesCover(s.totalRedelegated, id.validator, e, Take(AccountOf(s.accounts, id), amount).redelegated[e])
  {
    hide Take, After, RedelegatedTotal, AccountsOk, Solvent, AmountAt;
    var a := AccountOf(s.accounts, id);
    var taken := Take(a, amount);
    UnbondSplit(a, amount, e);
    forall src: Address, start: Epoch
      ensures AmountAt(taken.redelegated[e], src, start) <= Get(s.totalRedelegated, RedelegationSlot(id.validator, e, src, start))
    {
      var k := RedelegationSlot(id.validator, e, src, start);
      RedelegatedUpdate(s.accounts, id, NO_ACCOUNT, k);
      NoEntries(k);
      assert Get(s.totalRedelegated, k) == RedelegatedTotal(s.accounts, k);
    }
  }

  lemma NoEntries(k: RedelegationSlot)
    ensures EntryAt(NO_ACCOUNT, k) == 0
  {
  }
}
