/** The ledger of bonds and the epoched stakes on the same operations: what a validator's stake is made of. */
module LedgerStake {
  import opened Types
  import opened Parameters
  import opened FiniteSums
  import opened Slashing
  import opened Redelegations
  import opened Accounts
  import opened UnbondSlashing
  import opened Ledger
  import opened LedgerInvariants
  import R = LedgerRoundTrip
  import K = Stake

  /** An operation of the ledger, or the stake that slash processing takes from a validator. */
  datatype Event = Transaction(op: Op) | TakeStake(validator: Address, amounts: map<Epoch, Amount>)

  ghost function Next(p: Params, s: State, event: Event): State {
    if event.Transaction? then Step(p, s, event.op) else s
  }

  /** What unbonded tokens are worth, and by how much the stake falls. */
  ghost function Worth(p: Params, s: State, id: BondId, amount: Amount): Amount {
    Tally(ResultSlashing(p, s, id, amount))
  }

  ghost predicate Unbonds(p: Params, s: State, source: Option<Address>, v: Address, amount: Amount) {
    amount > 0 && UnbondError(p, s, source, v, amount).None?
  }

  ghost predicate Redelegates(p: Params, s: State, delegator: Address, src: Address, dest: Address, amount: Amount) {
    amount > 0 && RedelegateError(p, s, delegator, src, dest, amount).None?
  }

  /** The stake updates of an event: at the pipeline epoch, or at the epochs of a slash. */
  ghost function StakeOps(p: Params, s: State, event: Event): seq<K.Op> {
    match event
    case TakeStake(v, amounts) => [K.SlashStakes(v, amounts)]
    case Transaction(op) =>
      match op
      case BondOp(source, v, amount) =>
        if amount > 0 && Bond(p, s, source, v, amount).Ok? then [K.Change(v, amount, p.pipelineLen)] else []
      case UnbondOp(source, v, amount) =>
        if Unbonds(p, s, source, v, amount)
        then [K.Change(v, -(Worth(p, s, IdOf(source, v), amount) as int), p.pipelineLen)] else []
      case RedelegateOp(delegator, src, dest, amount) =>
        if Redelegates(p, s, delegator, src, dest, amount) then
          var sum := Worth(p, s, BondId(delegator, src), amount);
          [K.Change(src, -(sum as int), p.pipelineLen), K.Change(dest, sum, p.pipelineLen)]
        else []
      case BecomeValidatorOp(v) => if v in s.validators || HasBonds(s, v) then [] else [K.Become(v, p.pipelineLen)]
      case NewEpochOp => [K.NextEpoch]
      case _ => []
  }

  ghost function Reached(p: Params, s: State, events: seq<Event>): State {
    if events == [] then s else Next(p, Reached(p, s, events[..|events| - 1]), events[|events| - 1])
  }

  ghost function AllStakeOps(p: Params, s: State, events: seq<Event>): seq<K.Op> {
    if events == [] then []
    else
      var before := events[..|events| - 1];
      AllStakeOps(p, s, before) + StakeOps(p, Reached(p, s, before), events[|events| - 1])
  }

  /** Slash processing takes stake of a validator from the current to the pipeline epoch. */
  ghost predicate Legal(p: Params, past: nat, s: State, events: seq<Event>) {
    events == [] ||
    (var before, last := events[..|events| - 1], events[|events| - 1];
     && Legal(p, past, s, before)
     && CanTakeStake(p, past, AllStakeOps(p, s, before), last))
  }

  /** What slashing took from the stake of a validator at an epoch, less what unbonds and redelegations already lost of it. */
  ghost function TakenBy(p: Params, s: State, event: Event, v: Address, e: Epoch): int {
    match event
    case TakeStake(w, amounts) => if w == v then K.AmountAt(amounts, e) else 0
    case Transaction(op) =>
      match op
      case UnbondOp(source, w, amount) =>
        if w == v && Unbonds(p, s, source, w, amount) then Worth(p, s, IdOf(source, w), amount) - amount else 0
      case RedelegateOp(delegator, src, dest, amount) =>
        if src == v && Redelegates(p, s, delegator, src, dest, amount) then Worth(p, s, BondId(delegator, src), amount) - amount
        else 0
      case _ => 0
  }

  ghost function Taken(p: Params, s: State, events: seq<Event>, v: Address, e: Epoch): int {
    if events == [] then 0
    else
      var before := events[..|events| - 1];
      Taken(p, s, before, v, e) + TakenBy(p, Reached(p, s, before), events[|events| - 1], v, e)
  }

  // ---- A validator's total bonded up to an epoch ----

  ghost function SlotsUpTo(total: map<BondSlot, Amount>, v: Address, e: Epoch): map<BondSlot, Amount> {
    map k | k in total && k.validator == v && k.start <= e :: total[k]
  }

  ghost function BondedUpTo(total: map<BondSlot, Amount>, v: Address, e: Epoch): Amount {
    Tally(SlotsUpTo(total, v, e))
  }

  lemma PutSlot(total: map<BondSlot, Amount>, k: BondSlot, amount: Amount, v: Address, e: Epoch)
    ensures BondedUpTo(total[k := amount], v, e) ==
            BondedUpTo(total, v, e) + if k.validator == v && k.start <= e then amount - Get(total, k) else 0
  {
    var part := SlotsUpTo(total, v, e);
    if k.validator == v && k.start <= e {
      SumUpdate<BondSlot>(part, k, amount);
      assert SlotsUpTo(total[k := amount], v, e) == part[k := amount];
    } else {
      assert SlotsUpTo(total[k := amount], v, e) == part;
    }
  }

  lemma {:induction false} SubBondedSum(total: map<BondSlot, Amount>, v: Address, amounts: map<Epoch, Amount>,
                                        w: Address,
                                        e: Epoch)
    requires forall b | b in amounts :: amounts[b] <= Get(total, BondSlot(v, b)) && (amounts[b] == 0 || b <= e)
    ensures BondedUpTo(SubBonded(total, v, amounts), w, e) == BondedUpTo(total, w, e) - if w == v then Tally(amounts) else 0
    decreases amounts.Keys
  {
    hide BondedUpTo;
    if amounts != map[] {
      var b := MinKey(amounts.Keys);
      var k := BondSlot(v, b);
      var after := total[k := Monus(Get(total, k), amounts[b])];
      PutSlot(total, k, Monus(Get(total, k), amounts[b]), w, e);
      SubBondedSum(after, v, amounts - {b}, w, e);
      SumWithout<Epoch>(amounts, b);
    }
  }

  /** Taking an amount out of a source's bonds takes it off the validator's total. */
  lemma TakeOutTotal(p: Params, s: State, id: BondId, amount: Amount, isRedelegation: bool, w: Address, e: Epoch)
    requires Inv(p, s) && CanTake(s, id, amount) && s.epoch + p.pipelineLen <= e
    ensures BondedUpTo(TakeOut(p, s, id, amount, isRedelegation).totalBonded, w, e) ==
            BondedUpTo(s.totalBonded, w, e) - if w == id.validator then amount else 0
  {
    hide Take, BondedUpTo, SubBonded, Covered, BondedAgrees, RedelegatedAgrees, Solvent;
    var a := AccountOf(s.accounts, id);
    var taken := Take(a, amount);
    EmptyAccount(p, s.epoch);
    TakenTally(a, amount);
    forall b | b in taken.amounts
      ensures taken.amounts[b] <= Get(s.totalBonded, BondSlot(id.validator, b)) && (taken.amounts[b] == 0 || b <= e)
    {
      BondedCovers(s, id, amount, b);
    }
    SubBondedSum(s.totalBonded, id.validator, taken.amounts, w, e);
  }

  /** What an event changes in the stake of a validator from the pipeline epoch on. */
  ghost function Delta(p: Params, s: State, event: Event, v: Address, e: Epoch): int {
    match event
    case TakeStake(w, amounts) => if w == v then -(K.AmountAt(amounts, e) as int) else 0
    case Transaction(op) =>
      match op
      case BondOp(source, w, amount) => if w == v && amount > 0 && Bond(p, s, source, w, amount).Ok? then amount else 0
      case UnbondOp(source, w, amount) =>
        if w == v && Unbonds(p, s, source, w, amount) then -(Worth(p, s, IdOf(source, w), amount) as int) else 0
      case RedelegateOp(delegator, src, dest, amount) =>
        if Redelegates(p, s, delegator, src, dest, amount) then
          var sum := Worth(p, s, BondId(delegator, src), amount);
          (if dest == v then sum else 0) - if src == v then sum else 0
        else 0
      case _ => 0
  }

  /** A transaction changes a validator's total by what it changes in the stake, plus what slashing had taken. */
  ghost predicate InBalance(p: Params, s: State, after: State, event: Event, v: Address, e: Epoch) {
    BondedUpTo(after.totalBonded, v, e) ==
    BondedUpTo(s.totalBonded, v, e) + TakenBy(p, s, event, v, e) + Delta(p, s, event, v, e)
  }

  lemma NextTotal(p: Params, s: State, event: Event, v: Address, e: Epoch)
    requires Inv(p, s) && s.epoch + p.pipelineLen <= e
    ensures InBalance(p, s, Next(p, s, event), event, v, e)
  {
    hide Inv, InBalance, Bond, Unbond, Redelegate, Withdraw, HasBonds, Max;
    match event
    case TakeStake(_, _) => SameTotal(p, s, s, event, v, e);
    case Transaction(op) =>
      match op
      case BondOp(source, w, amount) => BondTotal(p, s, source, w, amount, v, e);
      case UnbondOp(source, w, amount) => UnbondTotal(p, s, source, w, amount, v, e);
      case RedelegateOp(delegator, src, dest, amount) => RedelegateBalance(p, s, delegator, src, dest, amount, v, e);
      case WithdrawOp(source, w) =>
        WithdrawUnchanged(p, s, source, w);
        SameTotal(p, s, Next(p, s, event), event, v, e);
      case _ => SameTotal(p, s, Next(p, s, event), event, v, e);
  }

  lemma SameTotal(p: Params, s: State, after: State, event: Event, v: Address, e: Epoch)
    requires after.totalBonded == s.totalBonded
    requires event.Transaction? ==> !event.op.BondOp? && !event.op.UnbondOp? && !event.op.RedelegateOp?
    ensures InBalance(p, s, after, event, v, e)
  {
    hide BondedUpTo, K.AmountAt;
  }

  lemma BondTotal(p: Params, s: State, source: Option<Address>, w: Address, amount: Amount, v: Address, e: Epoch)
    requires s.epoch + p.pipelineLen <= e
    ensures var event := Transaction(BondOp(source, w, amount)); InBalance(p, s, Next(p, s, event), event, v, e)
  {
    hide BondedUpTo, BondTo;
    if amount > 0 && Bond(p, s, source, w, amount).Ok? {
      var k := BondSlot(w, s.epoch + p.pipelineLen);
      PutSlot(s.totalBonded, k, Get(s.totalBonded, k) + amount, v, e);
    }
  }

  lemma UnbondTotal(p: Params, s: State, source: Option<Address>, w: Address, amount: Amount, v: Address, e: Epoch)
    requires Inv(p, s) && s.epoch + p.pipelineLen <= e
    ensures var event := Transaction(UnbondOp(source, w, amount)); InBalance(p, s, Next(p, s, event), event, v, e)
  {
    hide BondedUpTo, Inv, TakeOut, Worth, UnbondError;
    if Unbonds(p, s, source, w, amount) {
      UnbondTakes(p, s, source, w, amount);
      TakeOutTotal(p, s, IdOf(source, w), amount, false, v, e);
    }
  }

  lemma RedelegateBalance(p: Params, s: State, delegator: Address, src: Address, dest: Address, amount: Amount,
                          v: Address,
                          e: Epoch)
    requires Inv(p, s) && s.epoch + p.pipelineLen <= e
    ensures var event := Transaction(RedelegateOp(delegator, src, dest, amount));
            InBalance(p, s, Next(p, s, event), event, v, e)
  {
    hide BondedUpTo, Inv, Worth, UnbondError, TakeOut, BringIn;
    if Redelegates(p, s, delegator, src, dest, amount) {
      RedelegateTotal(p, s, delegator, src, dest, amount, v, e);
    }
  }

  lemma UnbondTakes(p: Params, s: State, source: Option<Address>, v: Address, amount: Amount)
    requires Inv(p, s) && Unbonds(p, s, source, v, amount)
    ensures CanTake(s, IdOf(source, v), amount)
  {
    hide AccountsOk, BondedAgrees, RedelegatedAgrees, Solvent;
    AllBondsChecked(p, s, IdOf(source, v));
  }

  lemma RedelegateTotal(p: Params, s: State, delegator: Address, src: Address, dest: Address, amount: Amount,
                        w: Address,
                        e: Epoch)
    requires Inv(p, s) && Redelegates(p, s, delegator, src, dest, amount) && s.epoch + p.pipelineLen <= e
    ensures var id := BondId(delegator, src);
            BondedUpTo(Redelegate(p, s, delegator, src, dest, amount).value.totalBonded, w, e) ==
            BondedUpTo(s.totalBonded, w, e) - (if w == src then amount else 0) + if w == dest then Worth(p, s, id, amount) else 0
  {
    hide BondedUpTo, Inv, ResultSlashing, UnbondError, SubBonded, SubRedelegated, AddRedelegated, AccountAfter, RedelegateTo;
    var id := BondId(delegator, src);
    UnbondTakes(p, s, Some(delegator), src, amount);
    TakeOutTotal(p, s, id, amount, true, w, e);
    var out := TakeOut(p, s, id, amount, true);
    var k := BondSlot(dest, s.epoch + p.pipelineLen);
    PutSlot(out.totalBonded, k, Get(out.totalBonded, k) + Worth(p, s, id, amount), w, e);
  }

  // ---- Runs ----

  /** Appending stake changes that are enabled one after the other. */
  lemma AppendOne(p: Params, past: nat, ops: seq<K.Op>, op: K.Op)
    requires K.Legal(p.pipelineLen, past, ops) && K.Enabled(p.pipelineLen, K.After(p.pipelineLen, past, ops), op)
    ensures K.Legal(p.pipelineLen, past, ops + [op])
    ensures K.After(p.pipelineLen, past, ops + [op]) ==
            K.Step(p.pipelineLen, past, K.After(p.pipelineLen, past, ops), op)
    ensures K.Now(ops + [op]) == K.Now(ops) + if op.NextEpoch? then 1 else 0
  {
    hide K.Legal, K.After, K.Made, K.Effect, K.Enabled, K.Step;
    K.Extend(p.pipelineLen, past, ops, op);
    K.MadeNext(ops, op);
  }

  /** The stakes know the ledger's validators and its epoch. */
  ghost predicate InStep(p: Params, past: nat, s: State, ops: seq<K.Op>) {
    && K.Legal(p.pipelineLen, past, ops) && K.Now(ops) == s.epoch
    && K.After(p.pipelineLen, past, ops).now == s.epoch
    && K.After(p.pipelineLen, past, ops).validators.Keys == s.validators
  }

  ghost predicate CanTakeStake(p: Params, past: nat, ops: seq<K.Op>, event: Event) {
    event.TakeStake? ==>
      && K.Legal(p.pipelineLen, past, ops)
      && K.Enabled(p.pipelineLen, K.After(p.pipelineLen, past, ops), K.SlashStakes(event.validator, event.amounts))
  }

  lemma NextInStep(p: Params, past: nat, s: State, ops: seq<K.Op>, event: Event)
    requires InStep(p, past, s, ops) && CanTakeStake(p, past, ops, event)
    ensures InStep(p, past, Next(p, s, event), ops + StakeOps(p, s, event))
  {
    hide K.Legal, K.After, K.Made, K.Update, K.Slashed, Next, StakeOps, HasBonds;
    var more := StakeOps(p, s, event);
    Unchanged(p, s, event);
    StakeOpsEnabled(p, past, s, ops, event);
    if more == [] {
      assert ops + more == ops;
    } else if |more| == 1 {
      AppendOne(p, past, ops, more[0]);
      assert more == [more[0]];
    } else {
      AppendOne(p, past, ops, more[0]);
      AppendOne(p, past, ops + [more[0]], more[1]);
      assert ops + [more[0]] + [more[1]] == ops + more;
    }
  }

  lemma NextMade(p: Params, s: State, ops: seq<K.Op>, event: Event, v: Address, e: Epoch)
    requires K.Now(ops) == s.epoch && s.epoch + p.pipelineLen <= e
    ensures K.Made(ops + StakeOps(p, s, event), v, e) == K.Made(ops, v, e) + Delta(p, s, event, v, e)
  {
    hide K.Made, K.Effect, StakeOps, Delta, K.Now;
    var more := StakeOps(p, s, event);
    DeltaIs(p, s, event, v, e);
    if more == [] {
      assert ops + more == ops;
    } else if |more| == 1 {
      K.MadeNext(ops, more[0]);
      assert more == [more[0]];
    } else {
      K.MadeNext(ops, more[0]);
      K.MadeNext(ops + [more[0]], more[1]);
      assert ops + [more[0]] + [more[1]] == ops + more;
    }
  }

  ghost function EffectOn(op: K.Op, now: Epoch, v: Address, e: Epoch): int {
    if !op.NextEpoch? && op.validator == v then K.Effect(now, op, e) else 0
  }

  lemma DeltaIs(p: Params, s: State, event: Event, v: Address, e: Epoch)
    requires s.epoch + p.pipelineLen <= e
    ensures var more, delta := StakeOps(p, s, event), Delta(p, s, event, v, e);
            && (|more| == 0 ==> delta == 0)
            && (|more| == 1 ==> delta == EffectOn(more[0], s.epoch, v, e))
            && (|more| == 2 ==> delta == EffectOn(more[0], s.epoch, v, e) + EffectOn(more[1], s.epoch, v, e))
            && |more| <= 2 && (|more| == 2 ==> more[0].Change?)
  {
    hide Worth, Bond, UnbondError, RedelegateError, HasBonds, K.AmountAt;
  }

  /** An event makes no stake change, one, or two by a redelegation; they concern validators. */
  lemma StakeOpsEnabled(p: Params, past: nat, s: State, ops: seq<K.Op>, event: Event)
    requires InStep(p, past, s, ops) && CanTakeStake(p, past, ops, event)
    ensures var more, now := StakeOps(p, s, event), K.After(p.pipelineLen, past, ops);
            && |more| <= 2
            && (more != [] ==> K.Enabled(p.pipelineLen, now, more[0]))
            && (|more| == 2 ==> more[0].Change? && more[1].Change? && more[1].offset == p.pipelineLen && more[1].validator in s.validators)
            && (more != [] ==> (more[0].NextEpoch? <==> event == Transaction(NewEpochOp)))
            && (event == Transaction(NewEpochOp) ==> more == [K.NextEpoch])
            && (more != [] && more[0].Become? <==> Joins(s, event))
            && (Joins(s, event) ==> more == [K.Become(event.op.v, p.pipelineLen)])
  {
    hide K.Legal, K.After, Worth, BondTo, AddBonded, Tally, HasBonds, SourceIsOtherValidator, IsFrozen, IsChained;
  }

  ghost predicate Joins(s: State, event: Event) {
    event.Transaction? && event.op.BecomeValidatorOp? && event.op.v !in s.validators && !HasBonds(s, event.op.v)
  }

  /** What the events do to the validators and the epoch. */
  lemma Unchanged(p: Params, s: State, event: Event)
    ensures Framed(s, event, Next(p, s, event))
  {
    hide Framed, Step;
    if event.TakeStake? {
      FramedSame(s, event, s);
    } else if event.op.InfractionOp? || event.op.SlashOp? || event.op.BecomeValidatorOp? || event.op.NewEpochOp? {
      OtherUnchanged(p, s, event.op);
    } else {
      MoveUnchanged(p, s, event.op);
    }
  }

  ghost predicate Framed(s: State, event: Event, after: State) {
    && after.epoch == s.epoch + (if event == Transaction(NewEpochOp) then 1 else 0)
    && after.validators == if Joins(s, event) then s.validators + {event.op.v} else s.validators
  }

  lemma FramedSame(s: State, event: Event, after: State)
    requires event.Transaction? ==> !event.op.BecomeValidatorOp? && !event.op.NewEpochOp?
    requires after.epoch == s.epoch && after.validators == s.validators
    ensures Framed(s, event, after)
  {
    hide HasBonds;
  }

  lemma OtherUnchanged(p: Params, s: State, op: Op)
    requires op.InfractionOp? || op.SlashOp? || op.BecomeValidatorOp? || op.NewEpochOp?
    ensures Framed(s, Transaction(op), Step(p, s, op))
  {
    hide Bond, Unbond, Redelegate, Withdraw, HasBonds, SlashesOf, Max;
    assert op.BecomeValidatorOp? && op.v in s.validators ==> s.validators + {op.v} == s.validators;
  }

  lemma MoveUnchanged(p: Params, s: State, op: Op)
    requires op.BondOp? || op.UnbondOp? || op.RedelegateOp? || op.WithdrawOp?
    ensures Framed(s, Transaction(op), Step(p, s, op))
  {
    hide Bond, Unbond, Redelegate, Withdraw, Framed;
    match op {
      case BondOp(source, v, amount) => BondUnchanged(p, s, source, v, amount);
      case UnbondOp(source, v, amount) => UnbondUnchanged(p, s, source, v, amount);
      case RedelegateOp(delegator, src, dest, amount) => RedelegateUnchanged(p, s, delegator, src, dest, amount);
      case WithdrawOp(source, v) => WithdrawUnchanged(p, s, source, v);
    }
    FramedSame(s, Transaction(op), Step(p, s, op));
  }

  ghost predicate SameFrame(s: State, r: Result<State, Error>) {
    r.Ok? ==> r.value.epoch == s.epoch && r.value.validators == s.validators
  }

  lemma BondUnchanged(p: Params, s: State, source: Option<Address>, v: Address, amount: Amount)
    ensures SameFrame(s, Bond(p, s, source, v, amount))
  {
    hide BondTo, AddBonded;
  }

  lemma UnbondUnchanged(p: Params, s: State, source: Option<Address>, v: Address, amount: Amount)
    ensures SameFrame(s, Unbond(p, s, source, v, amount))
  {
    hide Take, AccountAfter, SubBonded, SubRedelegated, UnbondError;
  }

  lemma RedelegateUnchanged(p: Params, s: State, delegator: Address, src: Address, dest: Address, amount: Amount)
    ensures SameFrame(s, Redelegate(p, s, delegator, src, dest, amount))
  {
    hide Take, AccountAfter, SubBonded, SubRedelegated, RedelegateError, ResultSlashing, RedelegateTo, AddBonded, AddRedelegated;
  }

  lemma WithdrawUnchanged(p: Params, s: State, source: Option<Address>, v: Address)
    ensures SameFrame(s, Withdraw(p, s, source, v))
    ensures Withdraw(p, s, source, v).Ok? ==> Withdraw(p, s, source, v).value.totalBonded == s.totalBonded
  {
    hide WithdrawnAmounts, AfterWithdraw;
  }

  /** The ledger and the stakes before anything happened. */
  ghost predicate Start(s: State) {
    Initial(s) && s.epoch == 0 && s.validators == {}
  }

  /** Over every run the stake history of a validator is its total bonded less what slashing took. */
  lemma {:induction false} Linked(p: Params, past: nat, s: State, events: seq<Event>)
    requires Start(s) && Legal(p, past, s, events)
    ensures var r, ops := Reached(p, s, events), AllStakeOps(p, s, events);
            && Inv(p, r) && InStep(p, past, r, ops)
            && forall v: Address, e: Epoch | r.epoch + p.pipelineLen <= e ::
                 K.Made(ops, v, e) == BondedUpTo(r.totalBonded, v, e) - Taken(p, s, events, v, e)
    decreases |events|
  {
    hide Inv, InStep, CanTakeStake, Next, StakeOps, TakenBy, Delta, K.Made, BondedUpTo;
    if events == [] {
      StartLinked(p, past, s);
    } else {
      var before, last := events[..|events| - 1], events[|events| - 1];
      Linked(p, past, s, before);
      var r, ops := Reached(p, s, before), AllStakeOps(p, s, before);
      NextInv(p, r, last);
      NextInStep(p, past, r, ops, last);
      InStepNow(p, past, r, ops);
      Unchanged(p, r, last);
      forall v: Address, e: Epoch | Next(p, r, last).epoch + p.pipelineLen <= e
        ensures K.Made(ops + StakeOps(p, r, last), v, e) ==
                BondedUpTo(Next(p, r, last).totalBonded, v, e) - Taken(p, s, events, v, e)
      {
        NextMade(p, r, ops, last, v, e);
        NextTotal(p, r, last, v, e);
      }
    }
  }

  lemma InStepNow(p: Params, past: nat, s: State, ops: seq<K.Op>)
    requires InStep(p, past, s, ops)
    ensures K.Now(ops) == s.epoch
  {
  }

  lemma NextInv(p: Params, s: State, event: Event)
    requires Inv(p, s)
    ensures Inv(p, Next(p, s, event))
  {
    hide Inv, Step;
    if event.Transaction? {
      StepInv(p, s, event.op);
    }
  }

  lemma StartLinked(p: Params, past: nat, s: State)
    requires Start(s)
    ensures Inv(p, s) && InStep(p, past, s, [])
    ensures forall v: Address, e: Epoch :: K.Made([], v, e) == BondedUpTo(s.totalBonded, v, e)
  {
    InitialInv(p, s);
    forall v: Address, e: Epoch ensures BondedUpTo(s.totalBonded, v, e) == 0 {
      assert SlotsUpTo(s.totalBonded, v, e) == map[];
    }
  }

  /** Over every run, from the pipeline epoch on, the stake read for a validator is the tally of its total bonded up to that
      epoch, less what slashing took and was not yet lost by unbonding. */
  lemma StakeIsBonded(p: Params, past: nat, s: State, events: seq<Event>, v: Address, e: Epoch)
    requires Start(s) && Legal(p, past, s, events) && 1 <= past && p.pipelineLen <= past
    requires v in Reached(p, s, events).validators && Reached(p, s, events).epoch + p.pipelineLen <= e
    ensures var r, ops := Reached(p, s, events), AllStakeOps(p, s, events);
            && K.Legal(p.pipelineLen, past, ops) && v in K.After(p.pipelineLen, past, ops).validators
            && K.ReadChange(K.After(p.pipelineLen, past, ops).validators[v], p.pipelineLen, past, e) ==
               BondedUpTo(r.totalBonded, v, e) - Taken(p, s, events, v, e)
  {
    hide Inv, Legal, Reached, AllStakeOps, Taken, BondedUpTo, K.Legal, K.After, K.Made, K.ReadChange;
    Linked(p, past, s, events);
    var ops := AllStakeOps(p, s, events);
    K.CurrentRetained(p.pipelineLen, past, ops, e);
    K.StakeIsHistory(p.pipelineLen, past, ops, v, e);
  }

  // ---- A validator that no slash touches ----

  /** No recorded slash applies to the tokens that are unbonded. */
  ghost predicate NoneApplies(p: Params, s: State, id: BondId, amount: Amount) {
    var taken := Take(AccountOf(s.accounts, id), amount);
    forall b | b in taken.amounts ::
      && (forall x | x in SlashesOf(s.slashes, id.validator) :: !Keeps(p, UnbondFilter(b), x.epoch))
      && SourcesSpare(p, s.slashes, TokensAt(taken.redelegated, b), b)
  }

  /** No slash of a source validator that is applied later applies to the redelegated tokens. */
  ghost predicate SourcesSpare(p: Params, slashes: map<Address, seq<Slash>>, t: Tokens, start: Epoch) {
    forall src, c, x | src in t && c in t[src] && x in SlashesOf(slashes, src) ::
      !Keeps(p, RedelegationFilter(p, c, start), x.epoch)
  }

  lemma SparedUnbond(p: Params, slashes: map<Address, seq<Slash>>, v: Address, start: Epoch, amount: Amount, t: Tokens)
    requires Total(t) <= amount && SourcesSpare(p, slashes, t, start)
    requires forall x | x in SlashesOf(slashes, v) :: !Keeps(p, UnbondFilter(start), x.epoch)
    ensures UnbondAfter(p, slashes, start, amount, t, Select(p, UnbondFilter(start), SlashesOf(slashes, v))) == amount
  {
    hide Keeps, Total, InnerAfter;
    R.NoneSelected(p, UnbondFilter(start), SlashesOf(slashes, v));
    forall src | src in t ensures InnerAfter(p, SlashesOf(slashes, src), t[src], start, []) == t[src] {
      R.UntouchedInner(p, SlashesOf(slashes, src), t[src], start);
    }
    assert TokensAfter(p, slashes, t, start, []) == t;
  }

  /** Then they are worth the whole amount. */
  lemma FullWorth(p: Params, s: State, id: BondId, amount: Amount)
    requires Inv(p, s) && CanTake(s, id, amount) && NoneApplies(p, s, id, amount)
    ensures Worth(p, s, id, amount) == amount
  {
    hide Take, Total, UnbondAfter, Select, Keeps, SourcesSpare, Timely, BondedAgrees, RedelegatedAgrees, Solvent;
    var a := AccountOf(s.accounts, id);
    var taken := Take(a, amount);
    EmptyAccount(p, s.epoch);
    TakenTally(a, amount);
    forall b | b in taken.amounts
      ensures UnbondAfter(p, s.slashes, b, taken.amounts[b], TokensAt(taken.redelegated, b),
                          Select(p, UnbondFilter(b), SlashesOf(s.slashes, id.validator))) == taken.amounts[b]
    {
      AfterCoveredAt(a, amount, b);
      SparedUnbond(p, s.slashes, id.validator, b, taken.amounts[b], TokensAt(taken.redelegated, b));
    }
    assert ResultSlashing(p, s, id, amount) == taken.amounts;
  }

  /** The event neither takes stake of the validator nor unbonds slashed tokens from it. */
  ghost predicate Spares(p: Params, s: State, event: Event, v: Address) {
    match event
    case TakeStake(w, _) => w != v
    case Transaction(op) =>
      match op
      case UnbondOp(source, w, amount) => w == v && Unbonds(p, s, source, w, amount) ==> NoneApplies(p, s, IdOf(source, w), amount)
      case RedelegateOp(delegator, src, dest, amount) =>
        src == v && Redelegates(p, s, delegator, src, dest, amount) ==> NoneApplies(p, s, BondId(delegator, src), amount)
      case _ => true
  }

  ghost predicate Spared(p: Params, s: State, events: seq<Event>, v: Address) {
    events == [] ||
    (var before := events[..|events| - 1];
     Spared(p, s, before, v) && Spares(p, Reached(p, s, before), events[|events| - 1], v))
  }

  lemma NothingTakenBy(p: Params, s: State, event: Event, v: Address, e: Epoch)
    requires Inv(p, s) && Spares(p, s, event, v)
    ensures TakenBy(p, s, event, v, e) == 0
  {
    hide Inv, NoneApplies, Worth, UnbondError, K.AmountAt;
    match event
    case Transaction(UnbondOp(source, w, amount)) =>
      if w == v && Unbonds(p, s, source, w, amount) {
        UnbondTakes(p, s, source, w, amount);
        FullWorth(p, s, IdOf(source, w), amount);
      }
    case Transaction(RedelegateOp(delegator, src, dest, amount)) =>
      if src == v && Redelegates(p, s, delegator, src, dest, amount) {
        UnbondTakes(p, s, Some(delegator), src, amount);
        FullWorth(p, s, BondId(delegator, src), amount);
      }
    case _ =>
  }

  lemma {:induction false} NothingTaken(p: Params, past: nat, s: State, events: seq<Event>, v: Address, e: Epoch)
    requires Start(s) && Legal(p, past, s, events) && Spared(p, s, events, v)
    ensures Taken(p, s, events, v, e) == 0
    decreases |events|
  {
    hide Inv, InStep, Spares, TakenBy, K.Made, BondedUpTo, Next, StakeOps, CanTakeStake;
    if events != [] {
      var before := events[..|events| - 1];
      NothingTaken(p, past, s, before, v, e);
      Linked(p, past, s, before);
      NothingTakenBy(p, Reached(p, s, before), events[|events| - 1], v, e);
    }
  }

  /** The stake of a validator that no slash touched is the tally of its total bonded. */
  lemma StakeOfSpared(p: Params, past: nat, s: State, events: seq<Event>, v: Address, e: Epoch)
    requires Start(s) && Legal(p, past, s, events) && 1 <= past && p.pipelineLen <= past && Spared(p, s, events, v)
    requires v in Reached(p, s, events).validators && Reached(p, s, events).epoch + p.pipelineLen <= e
    ensures var r, ops := Reached(p, s, events), AllStakeOps(p, s, events);
            && K.Legal(p.pipelineLen, past, ops) && v in K.After(p.pipelineLen, past, ops).validators
            && K.ReadStake(K.After(p.pipelineLen, past, ops).validators[v], p.pipelineLen, past, e) ==
               BondedUpTo(r.totalBonded, v, e)
  {
    hide Legal, Spared, Reached, AllStakeOps, Taken, BondedUpTo, K.Legal, K.After, K.ReadChange;
    StakeIsBonded(p, past, s, events, v, e);
    NothingTaken(p, past, s, events, v, e);
  }
}
