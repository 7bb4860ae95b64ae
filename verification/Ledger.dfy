/** The ledger of bonds, unbonds and redelegations as a state machine: bond, unbond, redelegate,
    withdraw, slash recording and epoch change, with the tokens held by the PoS account. */
module Ledger {
  import opened Types
  import opened Parameters
  import opened FiniteSums
  import opened Slashing
  import opened Redelegations
  import opened Accounts
  import opened UnbondSlashing

  datatype BondId = BondId(source: Address, validator: Address)

  /** A validator's total bonded amount is kept by bond start epoch. */
  datatype BondSlot = BondSlot(validator: Address, start: Epoch)

  /** A validator's total redelegated amount is kept by redelegation epoch, source validator and the
      start epoch of the redelegated bond. */
  datatype RedelegationSlot = RedelegationSlot(validator: Address, epoch: Epoch, src: Address, start: Epoch)

  datatype State = State(
    epoch: Epoch,
    validators: set<Address>,
    accounts: map<BondId, Account>,
    totalBonded: map<BondSlot, Amount>,
    totalRedelegated: map<RedelegationSlot, Amount>,
    slashes: map<Address, seq<Slash>>,
    lastInfraction: map<Address, Epoch>,
    incoming: map<BondId, Epoch>,
    posBalance: Amount,
    balances: map<Address, Amount>)

  datatype Error =
    | SourceMustNotBeAValidator
    | NotAValidator
    | ValidatorIsFrozen
    | UnbondAmountGreaterThanBond
    | NoUnbondFound
    | InsufficientBalance
    | SourceIsDestination
    | DelegatorIsValidator
    | IsChainedRedelegation

  function AccountOf(accounts: map<BondId, Account>, id: BondId): Account {
    if id in accounts then accounts[id] else NO_ACCOUNT
  }

  // ---- The validators' totals ----

  /** Take amounts off a validator's total bonded, start epoch by start epoch. */
  function SubBonded(total: map<BondSlot, Amount>, v: Address, amounts: map<Epoch, Amount>): map<BondSlot, Amount>
    decreases amounts.Keys
  {
    if amounts == map[] then total
    else
      var e := MinKey(amounts.Keys);
      var k := BondSlot(v, e);
      SubBonded(total[k := Monus(Get(total, k), amounts[e])], v, amounts - {e})
  }

  function AddBonded(total: map<BondSlot, Amount>, v: Address, start: Epoch, amount: Amount): map<BondSlot, Amount> {
    total[BondSlot(v, start) := Get(total, BondSlot(v, start)) + amount]
  }

  /** Take redelegated tokens off a validator's total redelegated, entry by entry. */
  function SubEntries(total: map<RedelegationSlot, Amount>, v: Address, epoch: Epoch, src: Address,
                      amounts: map<Epoch, Amount>)
    : map<RedelegationSlot, Amount>
    decreases amounts.Keys
  {
    if amounts == map[] then total
    else
      var e := MinKey(amounts.Keys);
      var k := RedelegationSlot(v, epoch, src, e);
      SubEntries(total[k := Monus(Get(total, k), amounts[e])], v, epoch, src, amounts - {e})
  }

  function SubTokens(total: map<RedelegationSlot, Amount>, v: Address, epoch: Epoch, t: Tokens): map<RedelegationSlot,
                     Amount>
    decreases t.Keys
  {
    if t == map[] then total
    else
      var src := MinKey(t.Keys);
      SubTokens(SubEntries(total, v, epoch, src, t[src]), v, epoch, t - {src})
  }

  function SubRedelegated(total: map<RedelegationSlot, Amount>, v: Address,
                          tokens: map<Epoch, Tokens>): map<RedelegationSlot, Amount>
    decreases tokens.Keys
  {
    if tokens == map[] then total
    else
      var e := MinKey(tokens.Keys);
      SubRedelegated(SubTokens(total, v, e, tokens[e]), v, tokens - {e})
  }

  function AddRedelegated(total: map<RedelegationSlot, Amount>, v: Address, epoch: Epoch, src: Address,
                          amounts: map<Epoch, Amount>)
    : map<RedelegationSlot, Amount>
    decreases amounts.Keys
  {
    if amounts == map[] then total
    else
      var e := MinKey(amounts.Keys);
      var k := RedelegationSlot(v, epoch, src, e);
      AddRedelegated(total[k := Get(total, k) + amounts[e]], v, epoch, src, amounts - {e})
  }

  // ---- Bond ----

  /** A source that is given must not be another validator; without one the validator bonds its own tokens. */
  predicate SourceIsOtherValidator(s: State, source: Option<Address>, v: Address) {
    source.Some? && source.value != v && source.value in s.validators
  }

  function IdOf(source: Option<Address>, v: Address): BondId {
    BondId(if source.Some? then source.value else v, v)
  }

  function BondTo(p: Params, a: Account, epoch: Epoch, amount: Amount): Account {
    a.(bonds := a.bonds[epoch + p.pipelineLen := Get(a.bonds, epoch + p.pipelineLen) + amount])
  }

  ghost function Bond(p: Params, s: State, source: Option<Address>, v: Address, amount: Amount): Result<State, Error> {
    var id := IdOf(source, v);
    if amount == 0 then Ok(s)
    else if SourceIsOtherValidator(s, source, v) then Err(SourceMustNotBeAValidator)
    else if Get(s.balances, id.source) < amount then Err(InsufficientBalance)
    else if v !in s.validators then Err(NotAValidator)
    else Ok(s.(
      balances := s.balances[id.source := s.balances[id.source] - amount],
      posBalance := s.posBalance + amount,
      accounts := s.accounts[id := BondTo(p, AccountOf(s.accounts, id), s.epoch, amount)],
      totalBonded := AddBonded(s.totalBonded, v, s.epoch + p.pipelineLen, amount)))
  }

  // ---- Unbond ----

  predicate IsFrozen(p: Params, s: State, v: Address) {
    v in s.lastInfraction && s.epoch < s.lastInfraction[v] + p.SlashProcessingEpochOffset()
  }

  /** The bonds that contribute to stake by the pipeline epoch. */
  function BondsBy(bonds: map<Epoch, Amount>, epoch: Epoch): map<Epoch, Amount> {
    map e | e in bonds && e <= epoch :: bonds[e]
  }

  ghost function UnbondError(p: Params, s: State, source: Option<Address>, v: Address, amount: Amount): Option<Error> {
    if SourceIsOtherValidator(s, source, v) then Some(SourceMustNotBeAValidator)
    else if v !in s.validators then Some(NotAValidator)
    else if IsFrozen(p, s, v) then Some(ValidatorIsFrozen)
    else if amount > Tally(BondsBy(AccountOf(s.accounts, IdOf(source, v)).bonds, s.epoch + p.pipelineLen)) then
      Some(UnbondAmountGreaterThanBond)
    else None
  }

  /** The delegator's account after an amount is taken out: redelegated tokens leave it, others become an unbond. */
  ghost function AccountAfter(p: Params, s: State, id: BondId, amount: Amount, isRedelegation: bool): Account {
    var a := AccountOf(s.accounts, id);
    if isRedelegation then After(a, amount) else AfterUnbond(a, amount, s.epoch + p.WithdrawableEpochOffset())
  }

  /** The delegator's and the validator's maps after an amount is taken out of the bonds. */
  ghost function TakeOut(p: Params, s: State, id: BondId, amount: Amount, isRedelegation: bool): State {
    var taken := Take(AccountOf(s.accounts, id), amount);
    s.(accounts := s.accounts[id := AccountAfter(p, s, id, amount, isRedelegation)],
       totalBonded := SubBonded(s.totalBonded, id.validator, taken.amounts),
       totalRedelegated := SubRedelegated(s.totalRedelegated, id.validator, taken.redelegated))
  }

  /** The unbonded amounts after slashing, by bond start epoch (`resultSlashing`). */
  ghost function ResultSlashing(p: Params, s: State, id: BondId, amount: Amount): map<Epoch, Amount> {
    var taken := Take(AccountOf(s.accounts, id), amount);
    SlashedUnbonds(p, s.slashes, id.validator, taken.amounts, taken.redelegated)
  }

  ghost function Unbond(p: Params, s: State, source: Option<Address>, v: Address, amount: Amount): Result<State,
                        Error> {
    if amount == 0 then Ok(s)
    else
      var error := UnbondError(p, s, source, v, amount);
      if error.Some? then Err(error.value) else Ok(TakeOut(p, s, IdOf(source, v), amount, false))
  }

  // ---- Redelegate ----

  predicate IsChained(p: Params, s: State, delegator: Address, src: Address) {
    var id := BondId(delegator, src);
    id in s.incoming && s.epoch < s.incoming[id] - 1 + p.SlashProcessingEpochOffset()
  }

  ghost function RedelegateError(p: Params, s: State, delegator: Address, src: Address, dest: Address,
                                 amount: Amount): Option<Error> {
    if src == dest then Some(SourceIsDestination)
    else if delegator in s.validators then Some(DelegatorIsValidator)
    else if src !in s.validators || dest !in s.validators then Some(NotAValidator)
    else if IsChained(p, s, delegator, src) then Some(IsChainedRedelegation)
    else UnbondError(p, s, Some(delegator), src, amount)
  }

  /** An account with more redelegated tokens at the pipeline epoch, before the bond is added. */
  function WithTokens(p: Params, a: Account, epoch: Epoch, src: Address, amounts: map<Epoch, Amount>): Account {
    var e := epoch + p.pipelineLen;
    var tokens := TokensAt(a.redelegated, e);
    a.(redelegated := a.redelegated[e := tokens[src := AddAmounts(At(tokens, src), amounts)]])
  }

  /** The destination account: the slashed amounts by their start epoch at the source validator, and
      one bond of their sum. */
  ghost function RedelegateTo(p: Params, a: Account, epoch: Epoch, src: Address, amounts: map<Epoch, Amount>): Account {
    var b := WithTokens(p, a, epoch, src, amounts);
    if Tally(amounts) == 0 then b else BondTo(p, b, epoch, Tally(amounts))
  }

  ghost function BringIn(p: Params, s: State, delegator: Address, src: Address, dest: Address,
                         amounts: map<Epoch, Amount>): State {
    var id, e := BondId(delegator, dest), s.epoch + p.pipelineLen;
    s.(accounts := s.accounts[id := RedelegateTo(p, AccountOf(s.accounts, id), s.epoch, src, amounts)],
       totalBonded := if Tally(amounts) == 0 then s.totalBonded else AddBonded(s.totalBonded, dest, e, Tally(amounts)),
       totalRedelegated := AddRedelegated(s.totalRedelegated, dest, e, src, amounts),
       incoming := s.incoming[id := e])
  }

  ghost function Redelegate(p: Params, s: State, delegator: Address, src: Address, dest: Address,
                            amount: Amount): Result<State, Error> {
    if amount == 0 then Ok(s)
    else
      var error := RedelegateError(p, s, delegator, src, dest, amount);
      if error.Some? then Err(error.value)
      else
        var id := BondId(delegator, src);
        Ok(BringIn(p, TakeOut(p, s, id, amount, true), delegator, src, dest, ResultSlashing(p, s, id, amount)))
  }

  // ---- Withdraw ----

  function Withdrawable(unbonds: map<UnbondKey, Amount>, epoch: Epoch): set<UnbondKey> {
    set k | k in unbonds && k.withdraw <= epoch
  }

  /** `compute_amount_after_slashing_withdraw`: the slashes of infractions while the bond contributed. */
  ghost function WithdrawnAmounts(p: Params, s: State, id: BondId): map<UnbondKey, Amount> {
    WithdrawnOf(p, s.slashes, id.validator, AccountOf(s.accounts, id), s.epoch)
  }

  ghost function WithdrawnOf(p: Params, slashes: map<Address, seq<Slash>>, v: Address, a: Account,
                             epoch: Epoch): map<UnbondKey, Amount> {
    map k | k in Withdrawable(a.unbonds, epoch) ::
      WithdrawnAmount(p, slashes, v, k, a.unbonds[k], UnbondTokensAt(a.redelegatedUnbonds, k))
  }

  ghost function WithdrawnAmount(p: Params, slashes: map<Address, seq<Slash>>, v: Address, k: UnbondKey,
                                 amount: Amount, t: Tokens): Amount {
    UnbondAfter(p, slashes, k.start, amount, t, Select(p, WithdrawFilter(p, k.start, k.withdraw), SlashesOf(slashes, v)))
  }

  function AfterWithdraw(a: Account, epoch: Epoch): Account {
    var gone := Withdrawable(a.unbonds, epoch);
    a.(unbonds := a.unbonds - gone, redelegatedUnbonds := a.redelegatedUnbonds - gone)
  }

  ghost function Withdraw(p: Params, s: State, source: Option<Address>, v: Address): Result<State, Error> {
    var id := IdOf(source, v);
    var a := AccountOf(s.accounts, id);
    var amount := Tally(WithdrawnAmounts(p, s, id));
    if a.unbonds == map[] then Err(NoUnbondFound)
    else if s.posBalance < amount then Err(InsufficientBalance)
    else Ok(s.(
      accounts := s.accounts[id := AfterWithdraw(a, s.epoch)],
      posBalance := s.posBalance - amount,
      balances := s.balances[id.source := Get(s.balances, id.source) + amount]))
  }

  // ---- Runs ----

  datatype Op =
    | BondOp(source: Option<Address>, v: Address, amount: Amount)
    | UnbondOp(source: Option<Address>, v: Address, amount: Amount)
    | RedelegateOp(delegator: Address, src: Address, dest: Address, amount: Amount)
    | WithdrawOp(source: Option<Address>, v: Address)
    | InfractionOp(v: Address, infraction: Epoch)  // evidence freezes the validator
    | SlashOp(v: Address, slash: Slash)            // a processed slash is recorded with its rate
    | BecomeValidatorOp(v: Address)
    | NewEpochOp

  /** An operation that fails leaves the state as it was. */
  ghost function Step(p: Params, s: State, op: Op): State {
    match op
    case BondOp(source, v, amount) => OrElse(Bond(p, s, source, v, amount), s)
    case UnbondOp(source, v, amount) => OrElse(Unbond(p, s, source, v, amount), s)
    case RedelegateOp(delegator, src, dest, amount) => OrElse(Redelegate(p, s, delegator, src, dest, amount), s)
    case WithdrawOp(source, v) => OrElse(Withdraw(p, s, source, v), s)
    case InfractionOp(v, infraction) => s.(lastInfraction := s.lastInfraction[v := Max(Get(s.lastInfraction, v), infraction)])
    case SlashOp(v, slash) => s.(slashes := s.slashes[v := SlashesOf(s.slashes, v) + [slash]])
    case BecomeValidatorOp(v) => if HasBonds(s, v) then s else s.(validators := s.validators + {v})
    case NewEpochOp => s.(epoch := s.epoch + 1)
  }

  ghost predicate HasBonds(s: State, source: Address) {
    exists id :: id in s.accounts && id.source == source && Tally(s.accounts[id].bonds) > 0
  }

  function OrElse(r: Result<State, Error>, s: State): State {
    if r.Ok? then r.value else s
  }

  ghost function Run(p: Params, s: State, ops: seq<Op>): State {
    if ops == [] then s else Step(p, Run(p, s, ops[..|ops| - 1]), ops[|ops| - 1])
  }

  /** Before anything is bonded: any validators, any balances. */
  predicate Initial(s: State) {
    && s.accounts == map[] && s.totalBonded == map[] && s.totalRedelegated == map[]
    && s.slashes == map[] && s.lastInfraction == map[] && s.incoming == map[]
  }
}
