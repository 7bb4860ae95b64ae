/** When bonded tokens count and when they come back. */
module LedgerRoundTrip {
  import opened Types
  import opened Parameters
  import opened FiniteSums
  import opened Slashing
  import opened BondRemoval
  import opened Redelegations
  import opened Accounts
  import opened UnbondSlashing
  import opened Ledger
  import opened LedgerInvariants

  lemma BondsByUpdate(bonds: map<Epoch, Amount>, at: Epoch, amount: Amount, e: Epoch)
    ensures Tally(BondsBy(bonds[at := Get(bonds, at) + amount], e)) ==
            Tally(BondsBy(bonds, e)) + if at <= e then amount else 0
  {
    var more := bonds[at := Get(bonds, at) + amount];
    if at <= e {
      SumUpdate<Epoch>(BondsBy(bonds, e), at, Get(bonds, at) + amount);
      assert BondsBy(more, e) == BondsBy(bonds, e)[at := Get(bonds, at) + amount];
    } else {
      assert BondsBy(more, e) == BondsBy(bonds, e);
    }
  }

  /** A bond adds its amount from the pipeline epoch on, and to no earlier epoch. */
  lemma BondCountsFromPipeline(p: Params, s: State, source: Option<Address>, v: Address, amount: Amount, e: Epoch)
    requires amount > 0 && Bond(p, s, source, v, amount).Ok?
    ensures var id, after := IdOf(source, v), Bond(p, s, source, v, amount).value;
            Tally(BondsBy(AccountOf(after.accounts, id).bonds, e)) ==
            Tally(BondsBy(AccountOf(s.accounts, id).bonds, e)) + if s.epoch + p.pipelineLen <= e then amount else 0
  {
    hide BondsBy;
    BondsByUpdate(AccountOf(s.accounts, IdOf(source, v)).bonds, s.epoch + p.pipelineLen, amount, e);
  }

  /** The account of someone who bonds and at once unbonds everything. */
  lemma BondThenUnbond(start: Epoch, amount: Amount, withdraw: Epoch)
    requires amount > 0
    ensures var a := Account(map[start := amount], map[], map[], map[]);
            && Tally(a.bonds) == amount
            && Take(a, amount) == Taken(map[start := amount], map[])
            && AfterUnbond(a, amount, withdraw) == Account(map[], map[], map[UnbondKey(start, withdraw) := amount], map[])
  {
    var bonds: map<Epoch, Amount> := map[start := amount];
    SumWithout<Epoch>(bonds, start);
    assert bonds - {start} == map[];
    assert IsMax(bonds.Keys, start);
    FindBondsStep(bonds, amount, start);
    var r := BondsForRemoval({start}, None);
    assert UnbondedAmounts(bonds, r) == bonds && BondsLeft(bonds, r) == map[];
    assert IsMin(bonds.Keys, start);
    assert AddUnbonds(map[], map[], withdraw) == map[];
    assert AddUnbonds(map[], bonds, withdraw) == map[UnbondKey(start, withdraw) := amount];
  }

  lemma NoSlashes(p: Params, slashes: map<Address, seq<Slash>>, v: Address, k: UnbondKey, amount: Amount)
    requires v !in slashes
    ensures WithdrawnAmount(p, slashes, v, k, amount, map[]) == amount
  {
    TotalOfNone();
    assert TokensAfter(p, slashes, map[], k.start, []) == map[];
  }

  /** What a single unbond pays: nothing before its withdrawable epoch, everything from then on. */
  lemma SingleUnbond(p: Params, slashes: map<Address, seq<Slash>>, v: Address, k: UnbondKey, amount: Amount,
                     epoch: Epoch)
    requires v !in slashes
    ensures var a := Account(map[], map[], map[k := amount], map[]);
            && Tally(WithdrawnOf(p, slashes, v, a, epoch)) == (if k.withdraw <= epoch then amount else 0)
            && AfterWithdraw(a, epoch) == if k.withdraw <= epoch then NO_ACCOUNT else a
  {
    var a := Account(map[], map[], map[k := amount], map[]);
    var paid := WithdrawnOf(p, slashes, v, a, epoch);
    if k.withdraw <= epoch {
      NoSlashes(p, slashes, v, k, amount);
      assert Withdrawable(a.unbonds, epoch) == {k};
      assert paid == map[k := amount];
      SumWithout<UnbondKey>(paid, k);
      assert paid - {k} == map[];
      assert a.unbonds - {k} == map[];
    } else {
      assert Withdrawable(a.unbonds, epoch) == {};
      assert paid == map[];
      assert a.unbonds - {} == a.unbonds;
    }
  }

  /** Unbonding all of a single bond. */
  lemma UnbondSingle(p: Params, s: State, source: Option<Address>, v: Address, start: Epoch, amount: Amount)
    requires amount > 0 && start <= s.epoch + p.pipelineLen
    requires AccountOf(s.accounts, IdOf(source, v)) == Account(map[start := amount], map[], map[], map[])
    requires !SourceIsOtherValidator(s, source, v) && v in s.validators && !IsFrozen(p, s, v)
    ensures var r := Unbond(p, s, source, v, amount);
            && r.Ok? && r.value.epoch == s.epoch && r.value.slashes == s.slashes
            && r.value.posBalance == s.posBalance && r.value.balances == s.balances
            && AccountOf(r.value.accounts, IdOf(source, v)) ==
               Account(map[], map[], map[UnbondKey(start, s.epoch + p.WithdrawableEpochOffset()) := amount], map[])
  {
    hide Take, AfterUnbond, SubBonded, SubRedelegated;
    BondThenUnbond(start, amount, s.epoch + p.WithdrawableEpochOffset());
    assert BondsBy(map[start := amount], s.epoch + p.pipelineLen) == map[start := amount];
  }

  /** Withdrawing a single unbond. */
  lemma WithdrawSingle(p: Params, s: State, source: Option<Address>, v: Address, k: UnbondKey, amount: Amount)
    requires v !in s.slashes && amount <= s.posBalance
    requires AccountOf(s.accounts, IdOf(source, v)) == Account(map[], map[], map[k := amount], map[])
    ensures var r, paid := Withdraw(p, s, source, v), if k.withdraw <= s.epoch then amount else 0;
            && r.Ok? && r.value.posBalance == s.posBalance - paid
            && r.value.balances == s.balances[IdOf(source, v).source := Get(s.balances, IdOf(source, v).source) + paid]
            && (k.withdraw <= s.epoch ==> AccountOf(r.value.accounts, IdOf(source, v)) == NO_ACCOUNT)
  {
    hide WithdrawnOf, AfterWithdraw, Tally, WithdrawnAmounts;
    var id := IdOf(source, v);
    var a := AccountOf(s.accounts, id);
    assert k in a.unbonds;
    SingleUnbond(p, s.slashes, v, k, amount, s.epoch);
    WithdrawnHere(p, s, id);
    var r := Withdraw(p, s, source, v);
    assert r.Ok? && r.value.accounts == s.accounts[id := AfterWithdraw(a, s.epoch)];
  }

  lemma WithdrawnHere(p: Params, s: State, id: BondId)
    ensures WithdrawnAmounts(p, s, id) == WithdrawnOf(p, s.slashes, id.validator, AccountOf(s.accounts, id), s.epoch)
  {
  }

  /** Bond, unbond, wait and withdraw. */
  ghost function Trip(p: Params, s: State, source: Option<Address>, v: Address, amount: Amount,
                      wait: nat): Result<State, Error> {
    var bonded := Bond(p, s, source, v, amount);
    if bonded.Err? then bonded
    else
      var unbonded := Unbond(p, bonded.value, source, v, amount);
      if unbonded.Err? then unbonded
      else Withdraw(p, unbonded.value.(epoch := unbonded.value.epoch + wait), source, v)
  }

  /** Bond, unbond and withdraw undo each other: with no slashes, tokens that are bonded from a new account and unbonded in
      the same epoch come back in full, and exactly from the withdrawable offset on; until then nothing is paid. */
  lemma RoundTrip(p: Params, s: State, source: Option<Address>, v: Address, amount: Amount, wait: nat)
    requires amount > 0 && Bond(p, s, source, v, amount).Ok?
    requires IdOf(source, v) !in s.accounts && v !in s.slashes && !IsFrozen(p, s, v)
    ensures var r, paid := Trip(p, s, source, v, amount, wait), if wait >= p.WithdrawableEpochOffset() then amount else 0;
            && r.Ok? && r.value.posBalance == s.posBalance + amount - paid
            && (forall a: Address ::
                  Get(r.value.balances, a) == Get(s.balances, a) - if a == IdOf(source, v).source then amount - paid else 0)
            && (wait >= p.WithdrawableEpochOffset() ==> AccountOf(r.value.accounts, IdOf(source, v)) == NO_ACCOUNT)
  {
    hide Unbond, Withdraw, AddBonded;
    var start, withdraw := s.epoch + p.pipelineLen, s.epoch + p.WithdrawableEpochOffset();
    var bonded := Bond(p, s, source, v, amount).value;
    assert bonded.accounts[IdOf(source, v)] == Account(map[start := amount], map[], map[], map[]);
    UnbondSingle(p, bonded, source, v, start, amount);
    var unbonded := Unbond(p, bonded, source, v, amount).value;
    WithdrawSingle(p, unbonded.(epoch := s.epoch + wait), source, v, UnbondKey(start, withdraw), amount);
  }

  // ---- Unbonds that no slash touches ----

  /** No recorded slash applies to the unbond: none of the validator while the bond contributed, and for its redelegated
      tokens none of their source validators that is applied later. */
  ghost predicate Untouched(p: Params, slashes: map<Address, seq<Slash>>, v: Address, k: UnbondKey, t: Tokens) {
    && (forall x | x in SlashesOf(slashes, v) :: !Keeps(p, WithdrawFilter(p, k.start, k.withdraw), x.epoch))
    && (forall src, b, x | src in t && b in t[src] && x in SlashesOf(slashes, src) ::
          !Keeps(p, RedelegationFilter(p, b, k.start), x.epoch))
  }

  lemma {:induction false} NoneSelected(p: Params, f: Filter, slashes: seq<Slash>)
    requires forall x | x in slashes :: !Keeps(p, f, x.epoch)
    ensures Select(p, f, slashes) == []
    decreases |slashes|
  {
    hide Keeps;
    if slashes != [] {
      NoneSelected(p, f, slashes[..|slashes| - 1]);
    }
  }

  lemma UntouchedInner(p: Params, ofSource: seq<Slash>, inner: map<Epoch, Amount>, start: Epoch)
    requires forall b, x | b in inner && x in ofSource :: !Keeps(p, RedelegationFilter(p, b, start), x.epoch)
    ensures InnerAfter(p, ofSource, inner, start, []) == inner
  {
    hide Keeps, Select;
    forall b | b in inner ensures AfterSlashes(p, Merged(p, ofSource, b, start, []), inner[b]) == inner[b] {
      NoneSelected(p, RedelegationFilter(p, b, start), ofSource);
      assert Merged(p, ofSource, b, start, []) == [];
    }
  }

  lemma UntouchedTokens(p: Params, slashes: map<Address, seq<Slash>>, v: Address, k: UnbondKey, t: Tokens)
    requires Untouched(p, slashes, v, k, t)
    ensures TokensAfter(p, slashes, t, k.start, []) == t
  {
    hide Keeps, InnerAfter;
    forall src | src in t ensures InnerAfter(p, SlashesOf(slashes, src), t[src], k.start, []) == t[src] {
      UntouchedInner(p, SlashesOf(slashes, src), t[src], k.start);
    }
  }

  lemma UntouchedAmount(p: Params, slashes: map<Address, seq<Slash>>, v: Address, k: UnbondKey, amount: Amount,
                        t: Tokens)
    requires Untouched(p, slashes, v, k, t) && Total(t) <= amount
    ensures WithdrawnAmount(p, slashes, v, k, amount, t) == amount
  {
    hide Keeps, Total;
    NoneSelected(p, WithdrawFilter(p, k.start, k.withdraw), SlashesOf(slashes, v));
    UntouchedTokens(p, slashes, v, k, t);
  }

  /** The unbonds that a withdrawal takes. */
  ghost function Due(unbonds: map<UnbondKey, Amount>, epoch: Epoch): map<UnbondKey, Amount> {
    map k | k in Withdrawable(unbonds, epoch) :: unbonds[k]
  }

  ghost predicate AllUntouched(p: Params, s: State, id: BondId) {
    var a := AccountOf(s.accounts, id);
    forall k | k in Withdrawable(a.unbonds, s.epoch) ::
      Untouched(p, s.slashes, id.validator, k, UnbondTokensAt(a.redelegatedUnbonds, k))
  }

  lemma DueIsPaid(p: Params, s: State, id: BondId)
    requires AccountsOk(p, s) && AllUntouched(p, s, id)
    ensures WithdrawnAmounts(p, s, id) == Due(AccountOf(s.accounts, id).unbonds, s.epoch)
  {
    hide Untouched, WithdrawnAmount, Total, Timely;
    var a := AccountOf(s.accounts, id);
    EmptyAccount(p, s.epoch);
    forall k | k in Withdrawable(a.unbonds, s.epoch)
      ensures WithdrawnAmount(p, s.slashes, id.validator, k, a.unbonds[k], UnbondTokensAt(a.redelegatedUnbonds, k)) == a.unbonds[k]
    {
      assert Total(UnbondTokensAt(a.redelegatedUnbonds, k)) <= Get(a.unbonds, k);
      UntouchedAmount(p, s.slashes, id.validator, k, a.unbonds[k], UnbondTokensAt(a.redelegatedUnbonds, k));
    }
  }

  /** In every reachable state: if no recorded slash applies to the withdrawable unbonds, a withdrawal pays exactly what they
      hold, from the PoS account to the source, and leaves the other unbonds. */
  lemma WithdrawnInFull(p: Params, s: State, ops: seq<Op>, source: Option<Address>, v: Address)
    requires Initial(s)
    requires var r, id := Run(p, s, ops), IdOf(source, v);
             AccountOf(r.accounts, id).unbonds != map[] && AllUntouched(p, r, id)
    ensures var r, id := Run(p, s, ops), IdOf(source, v);
            var unbonds, after := AccountOf(r.accounts, id).unbonds, Withdraw(p, r, source, v);
            var paid := Tally(Due(unbonds, r.epoch));
            && after.Ok? && paid <= r.posBalance && after.value.posBalance == r.posBalance - paid
            && (forall a: Address :: Get(after.value.balances, a) == Get(r.balances, a) + if a == id.source then paid else 0)
            && AccountOf(after.value.accounts, id).unbonds == unbonds - Withdrawable(unbonds, r.epoch)
  {
    hide Run, AllUntouched, WithdrawnAmounts, Due, AccountsOk, Solvent, BondedAgrees, RedelegatedAgrees;
    var r := Run(p, s, ops);
    RunInv(p, s, ops);
    DueIsPaid(p, r, IdOf(source, v));
    WithdrawHasFunds(p, r, source, v);
  }
}
