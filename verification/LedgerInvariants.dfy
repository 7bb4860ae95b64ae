/** What every run of the ledger keeps: covered accounts, totals that agree with the accounts entry by
    entry, and a PoS account that can pay for everything outstanding. */
module LedgerInvariants {
  import opened Types
  import opened Parameters
  import opened FiniteSums
  import opened BondRemoval
  import opened Redelegations
  import opened Accounts
  import opened UnbondSlashing
  import opened Ledger

  // ---- Sums over accounts ----

  ghost function OutstandingBy(accounts: map<BondId, Account>): map<BondId, Amount> {
    map id | id in accounts :: Outstanding(accounts[id])
  }

  /** All bonds and unbonds of all sources. */
  ghost function TotalOutstanding(accounts: map<BondId, Account>): Amount {
    Tally(OutstandingBy(accounts))
  }

  ghost function BondedBy(accounts: map<BondId, Account>, v: Address, e: Epoch): map<BondId, Amount> {
    map id | id in accounts && id.validator == v :: Get(accounts[id].bonds, e)
  }

  /** What all sources have bonded to a validator with a given start epoch. */
  ghost function BondedTotal(accounts: map<BondId, Account>, v: Address, e: Epoch): Amount {
    Tally(BondedBy(accounts, v, e))
  }

  ghost function RedelegatedBy(accounts: map<BondId, Account>, k: RedelegationSlot): map<BondId, Amount> {
    map id | id in accounts && id.validator == k.validator :: AmountAt(TokensAt(accounts[id].redelegated, k.epoch), k.src, k.start)
  }

  /** What all delegators have redelegated to a validator under a given entry. */
  ghost function RedelegatedTotal(accounts: map<BondId, Account>, k: RedelegationSlot): Amount {
    Tally(RedelegatedBy(accounts, k))
  }

  lemma OutstandingUpdate(accounts: map<BondId, Account>, id: BondId, a: Account)
    ensures TotalOutstanding(accounts[id := a]) == TotalOutstanding(accounts) - Outstanding(AccountOf(accounts, id)) + Outstanding(a)
  {
    hide Outstanding;
    SumUpdate(OutstandingBy(accounts), id, Outstanding(a));
    assert OutstandingBy(accounts[id := a]) == OutstandingBy(accounts)[id := Outstanding(a)];
    NothingOutstanding();
  }

  lemma NothingOutstanding()
    ensures Outstanding(NO_ACCOUNT) == 0
  {
  }

  lemma BondedUpdate(accounts: map<BondId, Account>, id: BondId, a: Account, v: Address, e: Epoch)
    ensures BondedTotal(accounts[id := a], v, e)
         == BondedTotal(accounts, v, e) + if id.validator == v then Get(a.bonds, e) - Get(AccountOf(accounts, id).bonds, e) else 0
  {
    if id.validator == v {
      SumUpdate(BondedBy(accounts, v, e), id, Get(a.bonds, e));
      assert BondedBy(accounts[id := a], v, e) == BondedBy(accounts, v, e)[id := Get(a.bonds, e)];
    } else {
      assert BondedBy(accounts[id := a], v, e) == BondedBy(accounts, v, e);
    }
  }

  ghost function EntryAt(a: Account, k: RedelegationSlot): Amount {
    AmountAt(TokensAt(a.redelegated, k.epoch), k.src, k.start)
  }

  lemma RedelegatedUpdate(accounts: map<BondId, Account>, id: BondId, a: Account, k: RedelegationSlot)
    ensures RedelegatedTotal(accounts[id := a], k)
         == RedelegatedTotal(accounts, k) + if id.validator == k.validator then EntryAt(a, k) - EntryAt(AccountOf(accounts, id), k) else 0
  {
    if id.validator == k.validator {
      SumUpdate(RedelegatedBy(accounts, k), id, EntryAt(a, k));
      assert RedelegatedBy(accounts[id := a], k) == RedelegatedBy(accounts, k)[id := EntryAt(a, k)];
    } else {
      assert RedelegatedBy(accounts[id := a], k) == RedelegatedBy(accounts, k);
    }
  }

  // ---- The invariant ----

  /** All bonds start by the pipeline epoch, redelegations not before one could have been made, and
      unbonds were made in some epoch: so no epoch subtraction ever underflows. */
  ghost predicate Timely(p: Params, epoch: Epoch, a: Account) {
    && (forall e | e in a.bonds :: e <= epoch + p.pipelineLen)
    && (forall e | e in a.redelegated :: p.pipelineLen <= e)
    && (forall k | k in a.unbonds :: p.WithdrawableEpochOffset() <= k.withdraw)
  }

  ghost predicate AccountsOk(p: Params, s: State) {
    forall id | id in s.accounts :: Covered(s.accounts[id]) && Timely(p, s.epoch, s.accounts[id])
  }

  /** A validator's total bonded agrees with the sources' bonds, start epoch by start epoch. */
  ghost predicate BondedAgrees(s: State) {
    forall v: Address, e: Epoch :: Get(s.totalBonded, BondSlot(v, e)) == BondedTotal(s.accounts, v, e)
  }

  /** A validator's total redelegated agrees with the delegators' redelegated bonds, entry by entry. */
  ghost predicate RedelegatedAgrees(s: State) {
    forall k: RedelegationSlot :: Get(s.totalRedelegated, k) == RedelegatedTotal(s.accounts, k)
  }

  ghost predicate Solvent(s: State) {
    TotalOutstanding(s.accounts) <= s.posBalance
  }

  ghost predicate Inv(p: Params, s: State) {
    AccountsOk(p, s) && BondedAgrees(s) && RedelegatedAgrees(s) && Solvent(s)
  }

  lemma EmptyAccount(p: Params, epoch: Epoch)
    ensures Covered(NO_ACCOUNT) && Timely(p, epoch, NO_ACCOUNT)
  {
    TotalOfNone();
  }

  lemma InitialInv(p: Params, s: State)
    requires Initial(s)
    ensures Inv(p, s)
  {
    assert OutstandingBy(s.accounts) == map[];
    forall v: Address, e: Epoch ensures Get(s.totalBonded, BondSlot(v, e)) == BondedTotal(s.accounts, v, e) {
      assert BondedBy(s.accounts, v, e) == map[];
    }
    forall k: RedelegationSlot ensures Get(s.totalRedelegated, k) == RedelegatedTotal(s.accounts, k) {
      assert RedelegatedBy(s.accounts, k) == map[];
    }
  }

  // ---- Bond ----

  lemma BondToKeeps(p: Params, a: Account, epoch: Epoch, amount: Amount)
    requires Covered(a) && Timely(p, epoch, a)
    ensures Covered(BondTo(p, a, epoch, amount)) && Timely(p, epoch, BondTo(p, a, epoch, amount))
    ensures Outstanding(BondTo(p, a, epoch, amount)) == Outstanding(a) + amount
  {
    hide Total;
    var e := epoch + p.pipelineLen;
    SumUpdate<Epoch>(a.bonds, e, Get(a.bonds, e) + amount);
  }

  lemma BondedAfterBondTo(p: Params, s: State, id: BondId, amount: Amount)
    requires BondedAgrees(s)
    ensures BondedAgrees(s.(accounts := s.accounts[id := BondTo(p, AccountOf(s.accounts, id), s.epoch, amount)],
                            totalBonded := AddBonded(s.totalBonded, id.validator, s.epoch + p.pipelineLen, amount)))
  {
    hide BondedTotal;
    var a := BondTo(p, AccountOf(s.accounts, id), s.epoch, amount);
    var total := AddBonded(s.totalBonded, id.validator, s.epoch + p.pipelineLen, amount);
    forall v: Address, e: Epoch ensures Get(total, BondSlot(v, e)) == BondedTotal(s.accounts[id := a], v, e) {
      BondedUpdate(s.accounts, id, a, v, e);
      assert Get(s.totalBonded, BondSlot(v, e)) == BondedTotal(s.accounts, v, e);
    }
  }

  lemma RedelegatedUntouched(s: State, id: BondId, a: Account)
    requires RedelegatedAgrees(s) && a.redelegated == AccountOf(s.accounts, id).redelegated
    ensures RedelegatedAgrees(s.(accounts := s.accounts[id := a]))
  {
    hide RedelegatedTotal;
    forall k: RedelegationSlot ensures Get(s.totalRedelegated, k) == RedelegatedTotal(s.accounts[id := a], k) {
      RedelegatedUpdate(s.accounts, id, a, k);
      assert Get(s.totalRedelegated, k) == RedelegatedTotal(s.accounts, k);
    }
  }

  lemma BondInv(p: Params, s: State, source: Option<Address>, v: Address, amount: Amount)
    requires Inv(p, s) && Bond(p, s, source, v, amount).Ok?
    ensures Inv(p, Bond(p, s, source, v, amount).value)
  {
    hide Covered, Timely, BondedTotal, RedelegatedTotal, TotalOutstanding, BondTo;
    if amount > 0 {
      var id := IdOf(source, v);
      var a := AccountOf(s.accounts, id);
      EmptyAccount(p, s.epoch);
      BondToKeeps(p, a, s.epoch, amount);
      BondedAfterBondTo(p, s, id, amount);
      BondToSame(p, a, s.epoch, amount);
      RedelegatedUntouched(s, id, BondTo(p, a, s.epoch, amount));
      OutstandingUpdate(s.accounts, id, BondTo(p, a, s.epoch, amount));
    }
  }

  lemma BondToSame(p: Params, a: Account, epoch: Epoch, amount: Amount)
    ensures BondTo(p, a, epoch, amount).redelegated == a.redelegated
  {
  }

  // ---- Taking out ----

  lemma AfterTimely(p: Params, epoch: Epoch, a: Account, amount: Amount)
    requires amount > 0 && Timely(p, epoch, a)
    ensures Timely(p, epoch, After(a, amount))
    ensures Timely(p, epoch, AfterUnbond(a, amount, epoch + p.WithdrawableEpochOffset()))
  {
    hide Take, PlanOf, AddRedelegatedUnbonds, FindBonds, Left;
    FindBondsLatestFirst(a.bonds, amount);
    PlanEpoch(a, amount);
    AddUnbondsAt(a.unbonds, Take(a, amount).amounts, epoch + p.WithdrawableEpochOffset());
  }

  ghost predicate CanTake(s: State, id: BondId, amount: Amount) {
    0 < amount <= Tally(AccountOf(s.accounts, id).bonds)
  }

  lemma AccountAfterKeeps(p: Params, s: State, id: BondId, amount: Amount, isRedelegation: bool)
    requires AccountsOk(p, s) && CanTake(s, id, amount)
    ensures var b := AccountAfter(p, s, id, amount, isRedelegation);
            && Covered(b) && Timely(p, s.epoch, b)
            && Outstanding(b) == Outstanding(AccountOf(s.accounts, id)) - if isRedelegation then amount else 0
  {
    hide Covered, Timely, Take, After, AfterUnbond;
    var a := AccountOf(s.accounts, id);
    EmptyAccount(p, s.epoch);
    AfterTimely(p, s.epoch, a, amount);
    if isRedelegation {
      AfterCovered(a, amount);
      TakenTally(a, amount);
      AfterSameUnbonds(a, amount);
    } else {
      AfterUnbondCovered(a, amount, s.epoch + p.WithdrawableEpochOffset());
    }
  }

  /** Whichever way the tokens go, the bonds left are the same. */
  lemma AccountAfterBonds(p: Params, s: State, id: BondId, amount: Amount, isRedelegation: bool)
    ensures var b := AccountAfter(p, s, id, amount, isRedelegation);
            var c := After(AccountOf(s.accounts, id), amount);
            b.bonds == c.bonds && b.redelegated == c.redelegated
  {
    hide Take, After;
  }

  lemma {:induction false} SubBondedAt(total: map<BondSlot, Amount>, v: Address, amounts: map<Epoch, Amount>,
                                       k: BondSlot)
    ensures Get(SubBonded(total, v, amounts), k)
         == if k.validator == v then Monus(Get(total, k), Get(amounts, k.start)) else Get(total, k)
    decreases amounts.Keys
  {
    if amounts != map[] {
      var e := MinKey(amounts.Keys);
      SubBondedAt(total[BondSlot(v, e) := Monus(Get(total, BondSlot(v, e)), amounts[e])], v, amounts - {e}, k);
    }
  }

  lemma {:induction false} SubEntriesAt(total: map<RedelegationSlot, Amount>, v: Address, epoch: Epoch, src: Address,
                                        amounts: map<Epoch, Amount>, k: RedelegationSlot)
    ensures Get(SubEntries(total, v, epoch, src, amounts), k)
         == if k.validator == v && k.epoch == epoch && k.src == src then Monus(Get(total, k), Get(amounts, k.start)) else Get(total, k)
    decreases amounts.Keys
  {
    if amounts != map[] {
      var e := MinKey(amounts.Keys);
      var slot := RedelegationSlot(v, epoch, src, e);
      SubEntriesAt(total[slot := Monus(Get(total, slot), amounts[e])], v, epoch, src, amounts - {e}, k);
    }
  }

  lemma {:induction false} SubTokensAt(total: map<RedelegationSlot, Amount>, v: Address, epoch: Epoch, t: Tokens,
                                       k: RedelegationSlot)
    ensures Get(SubTokens(total, v, epoch, t), k)
         == if k.validator == v && k.epoch == epoch then Monus(Get(total, k), AmountAt(t, k.src, k.start)) else Get(total, k)
    decreases t.Keys
  {
    hide SubEntries;
    if t != map[] {
      var src := MinKey(t.Keys);
      SubEntriesAt(total, v, epoch, src, t[src], k);
      SubTokensAt(SubEntries(total, v, epoch, src, t[src]), v, epoch, t - {src}, k);
    }
  }

  lemma {:induction false} SubRedelegatedAt(total: map<RedelegationSlot, Amount>, v: Address,
                                            tokens: map<Epoch, Tokens>, k: RedelegationSlot)
    ensures Get(SubRedelegated(total, v, tokens), k)
         == if k.validator == v then Monus(Get(total, k), AmountAt(TokensAt(tokens, k.epoch), k.src, k.start)) else Get(total, k)
    decreases tokens.Keys
  {
    hide SubTokens;
    if tokens != map[] {
      var e := MinKey(tokens.Keys);
      SubTokensAt(total, v, e, tokens[e], k);
      SubRedelegatedAt(SubTokens(total, v, e, tokens[e]), v, tokens - {e}, k);
    }
  }

  lemma TakeOutBonded(p: Params, s: State, id: BondId, amount: Amount, isRedelegation: bool)
    requires BondedAgrees(s) && CanTake(s, id, amount)
    ensures BondedAgrees(TakeOut(p, s, id, amount, isRedelegation))
  {
    hide Take, After, AfterUnbond, BondedTotal, SubBonded, TokensAt, AmountAt;
    var a, b := AccountOf(s.accounts, id), AccountAfter(p, s, id, amount, isRedelegation);
    var taken := Take(a, amount);
    var total := SubBonded(s.totalBonded, id.validator, taken.amounts);
    forall v: Address, e: Epoch ensures Get(total, BondSlot(v, e)) == BondedTotal(s.accounts[id := b], v, e) {
      BondedUpdate(s.accounts, id, b, v, e);
      SubBondedAt(s.totalBonded, id.validator, taken.amounts, BondSlot(v, e));
      UnbondSplit(a, amount, e);
      AccountAfterBonds(p, s, id, amount, isRedelegation);
      assert Get(s.totalBonded, BondSlot(v, e)) == BondedTotal(s.accounts, v, e);
    }
  }

  /** The validator's total bonded holds at least what is taken from one source. */
  lemma BondedCovers(s: State, id: BondId, amount: Amount, e: Epoch)
    requires BondedAgrees(s) && CanTake(s, id, amount)
    ensures Get(Take(AccountOf(s.accounts, id), amount).amounts, e) <= Get(AccountOf(s.accounts, id).bonds, e)
    ensures Get(Take(AccountOf(s.accounts, id), amount).amounts, e) <= Get(s.totalBonded, BondSlot(id.validator, e))
  {
    hide Take, After, BondedTotal, TokensAt, AmountAt;
    UnbondSplit(AccountOf(s.accounts, id), amount, e);
    BondedUpdate(s.accounts, id, NO_ACCOUNT, id.validator, e);
    assert Get(s.totalBonded, BondSlot(id.validator, e)) == BondedTotal(s.accounts, id.validator, e);
  }

  lemma TakeOutRedelegated(p: Params, s: State, id: BondId, amount: Amount, isRedelegation: bool)
    requires RedelegatedAgrees(s) && CanTake(s, id, amount)
    ensures RedelegatedAgrees(TakeOut(p, s, id, amount, isRedelegation))
  {
    hide Take, After, AfterUnbond, RedelegatedTotal, SubRedelegated, TokensAt, AmountAt;
    var a, b := AccountOf(s.accounts, id), AccountAfter(p, s, id, amount, isRedelegation);
    var taken := Take(a, amount);
    var total := SubRedelegated(s.totalRedelegated, id.validator, taken.redelegated);
    forall k: RedelegationSlot ensures Get(total, k) == RedelegatedTotal(s.accounts[id := b], k) {
      RedelegatedUpdate(s.accounts, id, b, k);
      SubRedelegatedAt(s.totalRedelegated, id.validator, taken.redelegated, k);
      UnbondSplit(a, amount, k.epoch);
      AccountAfterBonds(p, s, id, amount, isRedelegation);
      assert Get(s.totalRedelegated, k) == RedelegatedTotal(s.accounts, k);
    }
  }

  lemma TakeOutInv(p: Params, s: State, id: BondId, amount: Amount, isRedelegation: bool)
    requires Inv(p, s) && CanTake(s, id, amount)
    ensures Inv(p, TakeOut(p, s, id, amount, isRedelegation))
    ensures TotalOutstanding(TakeOut(p, s, id, amount, isRedelegation).accounts)
         == TotalOutstanding(s.accounts) - if isRedelegation then amount else 0
  {
    hide Covered, Timely, Take, After, AfterUnbond, SubBonded, SubRedelegated, BondedAgrees, RedelegatedAgrees, TotalOutstanding, Outstanding;
    TakeOutBonded(p, s, id, amount, isRedelegation);
    TakeOutRedelegated(p, s, id, amount, isRedelegation);
    AccountAfterKeeps(p, s, id, amount, isRedelegation);
    OutstandingUpdate(s.accounts, id, AccountAfter(p, s, id, amount, isRedelegation));
  }

  /** Every bond starts by the pipeline epoch, so the bonds that are checked are all of them. */
  lemma AllBondsChecked(p: Params, s: State, id: BondId)
    requires AccountsOk(p, s)
    ensures BondsBy(AccountOf(s.accounts, id).bonds, s.epoch + p.pipelineLen) == AccountOf(s.accounts, id).bonds
  {
    hide Covered;
    EmptyAccount(p, s.epoch);
  }

  lemma UnbondInv(p: Params, s: State, source: Option<Address>, v: Address, amount: Amount)
    requires Inv(p, s) && Unbond(p, s, source, v, amount).Ok?
    ensures Inv(p, Unbond(p, s, source, v, amount).value)
  {
    hide TakeOut, AccountsOk, BondedAgrees, RedelegatedAgrees, Solvent;
    if amount > 0 {
      AllBondsChecked(p, s, IdOf(source, v));
      TakeOutInv(p, s, IdOf(source, v), amount, false);
    }
  }

  // ---- Bringing in ----

  lemma AddAmountsTally(a: map<Epoch, Amount>, b: map<Epoch, Amount>)
    ensures Tally(AddAmounts(a, b)) == Tally(a) + Tally(b)
    ensures forall e: Epoch :: Get(AddAmounts(a, b), e) == Get(a, e) + Get(b, e)
  {
    forall e: Epoch ensures GetInt(AddAmounts(a, b), e) == GetInt(a, e) + GetInt(b, e) {
    }
    SumPointwise<Epoch>(a, b, AddAmounts(a, b));
  }

  lemma WithTokensAt(p: Params, a: Account, epoch: Epoch, src: Address, amounts: map<Epoch, Amount>)
    ensures var b := WithTokens(p, a, epoch, src, amounts);
            && (forall e: Epoch :: Total(TokensAt(b.redelegated, e)) ==
                  Total(TokensAt(a.redelegated, e)) + if e == epoch + p.pipelineLen then Tally(amounts) else 0)
            && (forall k: RedelegationSlot :: EntryAt(b, k) ==
                  EntryAt(a, k) + if k.epoch == epoch + p.pipelineLen && k.src == src then Get(amounts, k.start) else 0)
  {
    hide Total, AddAmounts;
    var tokens := TokensAt(a.redelegated, epoch + p.pipelineLen);
    AddAmountsTally(At(tokens, src), amounts);
    TotalPut(tokens, src, AddAmounts(At(tokens, src), amounts));
  }

  lemma RedelegateToKeeps(p: Params, a: Account, epoch: Epoch, src: Address, amounts: map<Epoch, Amount>)
    requires Covered(a) && Timely(p, epoch, a)
    ensures var b := RedelegateTo(p, a, epoch, src, amounts);
            Covered(b) && Timely(p, epoch, b) && Outstanding(b) == Outstanding(a) + Tally(amounts)
  {
    hide Total, AddAmounts;
    WithTokensAt(p, a, epoch, src, amounts);
    var e := epoch + p.pipelineLen;
    SumUpdate<Epoch>(a.bonds, e, Get(a.bonds, e) + Tally(amounts));
    var b := RedelegateTo(p, a, epoch, src, amounts);
    assert b.redelegated == WithTokens(p, a, epoch, src, amounts).redelegated;
    forall x: Epoch ensures Total(TokensAt(b.redelegated, x)) <= Get(b.bonds, x) {
      assert Total(TokensAt(a.redelegated, x)) <= Get(a.bonds, x);
    }
  }

  lemma {:induction false} AddRedelegatedAt(total: map<RedelegationSlot, Amount>, v: Address, epoch: Epoch,
                                            src: Address, amounts: map<Epoch, Amount>, k: RedelegationSlot)
    ensures Get(AddRedelegated(total, v, epoch, src, amounts), k)
         == Get(total, k) + if k.validator == v && k.epoch == epoch && k.src == src then Get(amounts, k.start) else 0
    decreases amounts.Keys
  {
    if amounts != map[] {
      var e := MinKey(amounts.Keys);
      var slot := RedelegationSlot(v, epoch, src, e);
      AddRedelegatedAt(total[slot := Get(total, slot) + amounts[e]], v, epoch, src, amounts - {e}, k);
    }
  }

  lemma BringInRedelegated(p: Params, s: State, delegator: Address, src: Address, dest: Address,
                           amounts: map<Epoch, Amount>)
    requires RedelegatedAgrees(s)
    ensures RedelegatedAgrees(BringIn(p, s, delegator, src, dest, amounts))
  {
    hide RedelegatedTotal, AddRedelegated, EntryAt;
    var id := BondId(delegator, dest);
    var a := AccountOf(s.accounts, id);
    var b := RedelegateTo(p, a, s.epoch, src, amounts);
    var total := AddRedelegated(s.totalRedelegated, dest, s.epoch + p.pipelineLen, src, amounts);
    WithTokensAt(p, a, s.epoch, src, amounts);
    forall k: RedelegationSlot ensures Get(total, k) == RedelegatedTotal(s.accounts[id := b], k) {
      RedelegatedUpdate(s.accounts, id, b, k);
      AddRedelegatedAt(s.totalRedelegated, dest, s.epoch + p.pipelineLen, src, amounts, k);
      SameEntries(b, WithTokens(p, a, s.epoch, src, amounts), k);
      assert Get(s.totalRedelegated, k) == RedelegatedTotal(s.accounts, k);
    }
  }

  lemma SameEntries(a: Account, b: Account, k: RedelegationSlot)
    requires a.redelegated == b.redelegated
    ensures EntryAt(a, k) == EntryAt(b, k)
  {
  }

  lemma BringInBonded(p: Params, s: State, delegator: Address, src: Address, dest: Address, amounts: map<Epoch, Amount>)
    requires BondedAgrees(s)
    ensures BondedAgrees(BringIn(p, s, delegator, src, dest, amounts))
  {
    hide BondedTotal, AddAmounts;
    var s', id := BringIn(p, s, delegator, src, dest, amounts), BondId(delegator, dest);
    var b := RedelegateTo(p, AccountOf(s.accounts, id), s.epoch, src, amounts);
    forall v: Address, e: Epoch ensures Get(s'.totalBonded, BondSlot(v, e)) == BondedTotal(s'.accounts, v, e) {
      BondedUpdate(s.accounts, id, b, v, e);
      assert Get(s.totalBonded, BondSlot(v, e)) == BondedTotal(s.accounts, v, e);
    }
  }

  lemma BringInInv(p: Params, s: State, delegator: Address, src: Address, dest: Address, amounts: map<Epoch, Amount>)
    requires Inv(p, s) && TotalOutstanding(s.accounts) + Tally(amounts) <= s.posBalance
    ensures Inv(p, BringIn(p, s, delegator, src, dest, amounts))
  {
    hide Covered, Timely, RedelegateTo, BondedAgrees, RedelegatedAgrees, TotalOutstanding, Outstanding;
    var id := BondId(delegator, dest);
    var a := AccountOf(s.accounts, id);
    EmptyAccount(p, s.epoch);
    RedelegateToKeeps(p, a, s.epoch, src, amounts);
    BringInBonded(p, s, delegator, src, dest, amounts);
    BringInRedelegated(p, s, delegator, src, dest, amounts);
    OutstandingUpdate(s.accounts, id, RedelegateTo(p, a, s.epoch, src, amounts));
  }

  /** For every unbond in a state that keeps the invariant, the amount after slashing does not exceed
      the amount requested, neither in total nor at any bond epoch. */
  lemma SlashedAtMostRequested(p: Params, s: State, id: BondId, amount: Amount)
    requires AccountsOk(p, s) && CanTake(s, id, amount)
    ensures Tally(ResultSlashing(p, s, id, amount)) <= amount
    ensures forall e: Epoch :: Get(ResultSlashing(p, s, id, amount), e) <= Get(Take(AccountOf(s.accounts, id), amount).amounts, e)
  {
    hide Take, Total, SlashedUnbonds;
    var a := AccountOf(s.accounts, id);
    var taken := Take(a, amount);
    EmptyAccount(p, s.epoch);
    TakenTally(a, amount);
    forall e | e in taken.amounts ensures Total(TokensAt(taken.redelegated, e)) <= taken.amounts[e] {
      AfterCoveredAt(a, amount, e);
      assert TokensAt(taken.redelegated, e) == TokensAt(taken.redelegated, e);
    }
    SlashedUnbondsAtMost(p, s.slashes, id.validator, taken.amounts, taken.redelegated);
  }

  lemma RedelegateInv(p: Params, s: State, delegator: Address, src: Address, dest: Address, amount: Amount)
    requires Inv(p, s) && Redelegate(p, s, delegator, src, dest, amount).Ok?
    ensures Inv(p, Redelegate(p, s, delegator, src, dest, amount).value)
  {
    hide TakeOut, BringIn, AccountsOk, BondedAgrees, RedelegatedAgrees, ResultSlashing;
    if amount > 0 {
      var id := BondId(delegator, src);
      AllBondsChecked(p, s, id);
      TakeOutInv(p, s, id, amount, true);
      SlashedAtMostRequested(p, s, id, amount);
      TakeOutSameBalance(p, s, id, amount, true);
      BringInInv(p, TakeOut(p, s, id, amount, true), delegator, src, dest, ResultSlashing(p, s, id, amount));
    }
  }

  lemma TakeOutSameBalance(p: Params, s: State, id: BondId, amount: Amount, isRedelegation: bool)
    ensures TakeOut(p, s, id, amount, isRedelegation).posBalance == s.posBalance
  {
  }

  // ---- Withdraw ----

  /** No unbond pays out more than it holds. */
  lemma PaidAtMost(p: Params, s: State, id: BondId, k: UnbondKey)
    requires AccountsOk(p, s) && k in Withdrawable(AccountOf(s.accounts, id).unbonds, s.epoch)
    ensures WithdrawnAmounts(p, s, id)[k] <= AccountOf(s.accounts, id).unbonds[k]
  {
    hide UnbondAfter, Total, Timely;
    var a := AccountOf(s.accounts, id);
    EmptyAccount(p, s.epoch);
    assert Total(UnbondTokensAt(a.redelegatedUnbonds, k)) <= Get(a.unbonds, k);
    UnbondAfterAtMost(p, s.slashes, k.start, a.unbonds[k], UnbondTokensAt(a.redelegatedUnbonds, k),
                      Select(p, WithdrawFilter(p, k.start, k.withdraw), SlashesOf(s.slashes, id.validator)));
  }

  lemma WithdrawnAtMost(p: Params, s: State, id: BondId)
    requires AccountsOk(p, s)
    ensures var a := AccountOf(s.accounts, id);
            Tally(WithdrawnAmounts(p, s, id)) <= Tally(a.unbonds) - Tally(AfterWithdraw(a, s.epoch).unbonds)
  {
    hide WithdrawnAmount, AccountsOk;
    var a := AccountOf(s.accounts, id);
    var paid, left := WithdrawnAmounts(p, s, id), AfterWithdraw(a, s.epoch).unbonds;
    var gone: map<UnbondKey, Amount> := map k | k in Withdrawable(a.unbonds, s.epoch) :: a.unbonds[k];
    forall k ensures GetInt(paid, k) <= GetInt(gone, k) {
      if k in gone {
        PaidAtMost(p, s, id, k);
      }
    }
    SumMonotone(paid, gone);
    SumPointwise(left, gone, a.unbonds);
  }

  lemma AfterWithdrawKeeps(p: Params, epoch: Epoch, a: Account)
    requires Covered(a) && Timely(p, epoch, a)
    ensures Covered(AfterWithdraw(a, epoch)) && Timely(p, epoch, AfterWithdraw(a, epoch))
  {
    hide Total;
    TotalOfNone();
    var b := AfterWithdraw(a, epoch);
    forall k: UnbondKey ensures Total(UnbondTokensAt(b.redelegatedUnbonds, k)) <= Get(b.unbonds, k) {
      assert Total(UnbondTokensAt(a.redelegatedUnbonds, k)) <= Get(a.unbonds, k);
    }
  }

  /** In a state that keeps the invariant, a withdrawal fails only when there is nothing unbonded:
      the transfer never lacks funds. */
  lemma WithdrawHasFunds(p: Params, s: State, source: Option<Address>, v: Address)
    requires AccountsOk(p, s) && Solvent(s)
    ensures Withdraw(p, s, source, v).Err? <==> AccountOf(s.accounts, IdOf(source, v)).unbonds == map[]
    ensures Withdraw(p, s, source, v) != Err(InsufficientBalance)
  {
    hide WithdrawnAmounts, AfterWithdraw, AccountsOk, TotalOutstanding;
    WithdrawnAtMost(p, s, IdOf(source, v));
    OutstandingAtMost(s.accounts, IdOf(source, v));
  }

  lemma OutstandingAtMost(accounts: map<BondId, Account>, id: BondId)
    ensures Outstanding(AccountOf(accounts, id)) <= TotalOutstanding(accounts)
  {
    hide Outstanding;
    NothingOutstanding();
    SumNonNegative(OutstandingBy(accounts));
    assert id in accounts ==> OutstandingBy(accounts)[id] == Outstanding(accounts[id]);
  }

  lemma BondedUntouched(s: State, id: BondId, a: Account)
    requires BondedAgrees(s) && a.bonds == AccountOf(s.accounts, id).bonds
    ensures BondedAgrees(s.(accounts := s.accounts[id := a]))
  {
    hide BondedTotal;
    forall v: Address, e: Epoch ensures Get(s.totalBonded, BondSlot(v, e)) == BondedTotal(s.accounts[id := a], v, e) {
      BondedUpdate(s.accounts, id, a, v, e);
      assert Get(s.totalBonded, BondSlot(v, e)) == BondedTotal(s.accounts, v, e);
    }
  }

  lemma WithdrawInv(p: Params, s: State, source: Option<Address>, v: Address)
    requires Inv(p, s) && Withdraw(p, s, source, v).Ok?
    ensures Inv(p, Withdraw(p, s, source, v).value)
  {
    hide Covered, Timely, BondedTotal, RedelegatedTotal, TotalOutstanding, WithdrawnAmounts;
    var id := IdOf(source, v);
    var a := AccountOf(s.accounts, id);
    EmptyAccount(p, s.epoch);
    WithdrawnAtMost(p, s, id);
    AfterWithdrawKeeps(p, s.epoch, a);
    BondedUntouched(s, id, AfterWithdraw(a, s.epoch));
    RedelegatedUntouched(s, id, AfterWithdraw(a, s.epoch));
    OutstandingUpdate(s.accounts, id, AfterWithdraw(a, s.epoch));
  }

  // ---- Runs ----

  lemma StepInv(p: Params, s: State, op: Op)
    requires Inv(p, s)
    ensures Inv(p, Step(p, s, op))
  {
    hide Bond, Unbond, Redelegate, Withdraw, Covered, BondedTotal, RedelegatedTotal, TotalOutstanding;
    match op
    case BondOp(source, v, amount) =>
      if Bond(p, s, source, v, amount).Ok? { BondInv(p, s, source, v, amount); }
    case UnbondOp(source, v, amount) =>
      if Unbond(p, s, source, v, amount).Ok? { UnbondInv(p, s, source, v, amount); }
    case RedelegateOp(delegator, src, dest, amount) =>
      if Redelegate(p, s, delegator, src, dest, amount).Ok? { RedelegateInv(p, s, delegator, src, dest, amount); }
    case WithdrawOp(source, v) =>
      if Withdraw(p, s, source, v).Ok? { WithdrawInv(p, s, source, v); }
    case _ =>
  }

  /** Over every run from an empty ledger: the PoS account covers all outstanding bonds and unbonds,
      every bond and unbond covers its redelegated part, and the validators' totals agree with the
      delegators' entries. */
  lemma {:induction false} RunInv(p: Params, s: State, ops: seq<Op>)
    requires Initial(s)
    ensures Inv(p, Run(p, s, ops))
  {
    hide Step, Inv;
    if ops == [] {
      InitialInv(p, s);
    } else {
      RunInv(p, s, ops[..|ops| - 1]);
      StepInv(p, Run(p, s, ops[..|ops| - 1]), ops[|ops| - 1]);
    }
  }

  /** Over every run, every withdrawal of a non-empty unbond is paid. */
  lemma WithdrawalsArePaid(p: Params, s: State, ops: seq<Op>, source: Option<Address>, v: Address)
    requires Initial(s)
    ensures var r := Run(p, s, ops);
            Withdraw(p, r, source, v).Ok? <==> AccountOf(r.accounts, IdOf(source, v)).unbonds != map[]
  {
    hide Withdraw, Run, AccountsOk, Solvent, BondedAgrees, RedelegatedAgrees;
    RunInv(p, s, ops);
    WithdrawHasFunds(p, Run(p, s, ops), source, v);
  }

  /** Over every run, an unbond or redelegation that is accepted leaves at most what was asked for
      after slashing. */
  lemma SlashedAtMostRequestedInRuns(p: Params, s: State, ops: seq<Op>, source: Option<Address>, v: Address,
                                     amount: Amount)
    requires Initial(s)
    requires amount > 0 && UnbondError(p, Run(p, s, ops), source, v, amount).None?
    ensures Tally(ResultSlashing(p, Run(p, s, ops), IdOf(source, v), amount)) <= amount
  {
    hide Run, ResultSlashing, AccountsOk, Solvent, BondedAgrees, RedelegatedAgrees;
    RunInv(p, s, ops);
    AllBondsChecked(p, Run(p, s, ops), IdOf(source, v));
    SlashedAtMostRequested(p, Run(p, s, ops), IdOf(source, v), amount);
  }

  // ---- No tokens are made or lost ----

  /** All tokens: those of the PoS account and those of every other account. */
  ghost function Supply(s: State): Amount {
    s.posBalance + Tally(s.balances)
  }

  lemma StepSupply(p: Params, s: State, op: Op)
    ensures Supply(Step(p, s, op)) == Supply(s)
  {
    hide BondTo, AddBonded, TakeOut, ResultSlashing, UnbondError, RedelegateError, WithdrawnAmounts, AfterWithdraw;
    match op
    case BondOp(source, v, amount) =>
      var id := IdOf(source, v);
      SumUpdate<Address>(s.balances, id.source, Get(s.balances, id.source) - amount);
    case WithdrawOp(source, v) =>
      var id := IdOf(source, v);
      SumUpdate<Address>(s.balances, id.source, Get(s.balances, id.source) + Tally(WithdrawnAmounts(p, s, id)));
    case UnbondOp(source, v, amount) =>
      TakeOutSameFunds(p, s, IdOf(source, v), amount, false);
    case RedelegateOp(delegator, src, dest, amount) =>
      TakeOutSameFunds(p, s, BondId(delegator, src), amount, true);
    case _ =>
  }

  lemma TakeOutSameFunds(p: Params, s: State, id: BondId, amount: Amount, isRedelegation: bool)
    ensures var s' := TakeOut(p, s, id, amount, isRedelegation);
            s'.posBalance == s.posBalance && s'.balances == s.balances
  {
  }

  /** Over every run, bonding and withdrawing only move tokens. */
  lemma {:induction false} RunSupply(p: Params, s: State, ops: seq<Op>)
    ensures Supply(Run(p, s, ops)) == Supply(s)
  {
    hide Step, Supply;
    if ops != [] {
      RunSupply(p, s, ops[..|ops| - 1]);
      StepSupply(p, Run(p, s, ops[..|ops| - 1]), ops[|ops| - 1]);
    }
  }
}
