/** The ledger together with the recording of slashes: transactions, evidence and new epochs in any order. */
module SlashedLedger {
  import opened Types
  import opened Parameters
  import opened FiniteSums
  import opened Slashing
  import opened BondRemoval
  import opened Redelegations
  import opened Accounts
  import opened UnbondSlashing
  import opened SlashLists
  import opened Ledger
  import opened LedgerInvariants
  import T = SlashTiming

  datatype World = World(ledger: State, timing: T.State)

  datatype Event =
    | Transact(op: Op)
    | Report(ev: T.Evidence)
    | Start(cubicRate: nat)

  predicate IsTransaction(op: Op) {
    op.BondOp? || op.UnbondOp? || op.RedelegateOp? || op.WithdrawOp? || op.BecomeValidatorOp?
  }

  /** Accepted evidence freezes the validator at once; its slash is recorded when it is processed, at the start of an epoch. */
  ghost function Next(p: Params, w: World, event: Event): World {
    match event
    case Transact(op) => if IsTransaction(op) then w.(ledger := Step(p, w.ledger, op)) else w
    case Report(ev) =>
      if T.Accepts(p, w.timing, ev)
      then World(Step(p, w.ledger, InfractionOp(ev.validator, ev.infraction)), T.Enqueue(p, w.timing, ev)) else w
    case Start(cubicRate) =>
      var timing := T.NewEpoch(w.timing, cubicRate);
      World(w.ledger.(epoch := w.ledger.epoch + 1, slashes := timing.recorded), timing)
  }

  ghost function Reached(p: Params, w: World, events: seq<Event>): World {
    if events == [] then w else Next(p, Reached(p, w, events[..|events| - 1]), events[|events| - 1])
  }

  predicate Genesis(w: World) {
    Initial(w.ledger) && w.ledger.epoch == 0 && w.timing == T.GENESIS
  }

  function TimingOps(events: seq<Event>): seq<T.Op> {
    if events == [] then []
    else
      var event := events[|events| - 1];
      TimingOps(events[..|events| - 1])
      + match event
        case Transact(_) => []
        case Report(ev) => [T.Report(ev)]
        case Start(cubicRate) => [T.Start(cubicRate)]
  }

  lemma RunNext(p: Params, s: T.State, ops: seq<T.Op>, op: T.Op)
    ensures T.Run(p, s, ops + [op]) == T.Step(p, T.Run(p, s, ops), op)
  {
    assert (ops + [op])[..|ops|] == ops;
  }

  /** Slash recording goes its own way, whatever the transactions. */
  lemma {:induction false} TimingFollows(p: Params, w: World, events: seq<Event>)
    ensures Reached(p, w, events).timing == T.Run(p, w.timing, TimingOps(events))
    decreases |events|
  {
    hide Step, T.Enqueue, T.NewEpoch;
    if events != [] {
      var before, event := events[..|events| - 1], events[|events| - 1];
      TimingFollows(p, w, before);
      var ops := TimingOps(before);
      match event
      case Transact(_) => assert ops + [] == ops;
      case Report(ev) => RunNext(p, w.timing, ops, T.Report(ev));
      case Start(cubicRate) => RunNext(p, w.timing, ops, T.Start(cubicRate));
    }
  }

  // ---- Recorded slashes are in order ----

  ghost predicate OrderedAt(p: Params, slashes: seq<Slash>, epoch: Epoch) {
    InOrder(slashes) && forall k | 0 <= k < |slashes| :: slashes[k].epoch + p.SlashProcessingEpochOffset() <= epoch
  }

  lemma OrderedGrows(p: Params, before: seq<Slash>, after: seq<Slash>, epoch: Epoch)
    requires OrderedAt(p, before, epoch) && T.GrewBetween(p, before, after, epoch, epoch + 1)
    ensures OrderedAt(p, after, epoch + 1)
  {
    var off := p.SlashProcessingEpochOffset();
    forall k | 0 <= k < |after| ensures after[k].epoch + off <= epoch + 1 {
      assert k < |before| ==> after[k] == before[k];
    }
    forall k | 0 < k < |after| ensures after[k - 1].epoch <= after[k].epoch {
      assert k < |before| ==> after[k] == before[k] && after[k - 1] == before[k - 1];
      assert k >= |before| ==> epoch < after[k].epoch + off;
    }
  }

  /** Both parts are in the same epoch, and the ledger sees the recorded slashes. */
  ghost predicate Synced(p: Params, w: World) {
    && w.ledger.epoch == w.timing.epoch && w.ledger.slashes == w.timing.recorded
    && T.Recorded(p, w.timing)
    && forall v: Address :: OrderedAt(p, SlashesOf(w.ledger.slashes, v), w.ledger.epoch)
  }

  lemma TakeOutKeeps(p: Params, s: State, id: BondId, amount: Amount, isRedelegation: bool)
    ensures var r := TakeOut(p, s, id, amount, isRedelegation);
            && r.epoch == s.epoch && r.slashes == s.slashes && r.lastInfraction == s.lastInfraction
            && r.validators == s.validators && r.incoming == s.incoming
  {
  }

  /** Everything but the accounts, the totals, the balances and the incoming redelegations is as before. */
  ghost predicate SameFrame(s: State, r: State) {
    r.epoch == s.epoch && r.slashes == s.slashes && r.lastInfraction == s.lastInfraction && r.validators == s.validators
  }

  lemma BondFrame(p: Params, s: State, source: Option<Address>, v: Address, amount: Amount, id: BondId)
    ensures var r := OrElse(Bond(p, s, source, v, amount), s);
            && SameFrame(s, r) && r.incoming == s.incoming
            && AccountOf(r.accounts, id).redelegated == AccountOf(s.accounts, id).redelegated
            && AccountOf(r.accounts, id).unbonds == AccountOf(s.accounts, id).unbonds
  {
    hide AddBonded;
  }

  lemma UnbondFrame(p: Params, s: State, source: Option<Address>, v: Address, amount: Amount)
    ensures var r := OrElse(Unbond(p, s, source, v, amount), s);
            && SameFrame(s, r) && r.incoming == s.incoming
  {
    hide TakeOut, UnbondError;
    TakeOutKeeps(p, s, IdOf(source, v), amount, false);
  }

  lemma AfterWithdrawShape(a: Account, epoch: Epoch)
    ensures var b := AfterWithdraw(a, epoch);
            b.redelegated == a.redelegated && b.bonds == a.bonds && b.unbonds.Keys <= a.unbonds.Keys
  {
  }

  lemma WithdrawResult(p: Params, s: State, source: Option<Address>, v: Address)
    ensures var r, id := OrElse(Withdraw(p, s, source, v), s), IdOf(source, v);
            && SameFrame(s, r) && r.incoming == s.incoming
            && (r == s || r.accounts == s.accounts[id := AfterWithdraw(AccountOf(s.accounts, id), s.epoch)])
  {
    hide WithdrawnAmounts, AfterWithdraw;
  }

  lemma WithdrawFrame(p: Params, s: State, source: Option<Address>, v: Address, id: BondId)
    ensures var r := OrElse(Withdraw(p, s, source, v), s);
            && SameFrame(s, r) && r.incoming == s.incoming
            && AccountOf(r.accounts, id).redelegated == AccountOf(s.accounts, id).redelegated
            && AccountOf(r.accounts, id).bonds == AccountOf(s.accounts, id).bonds
            && AccountOf(r.accounts, id).unbonds.Keys <= AccountOf(s.accounts, id).unbonds.Keys
  {
    hide Withdraw, AfterWithdraw, OrElse;
    WithdrawResult(p, s, source, v);
    AfterWithdrawShape(AccountOf(s.accounts, id), s.epoch);
  }

  lemma RedelegateFrame(p: Params, s: State, delegator: Address, src: Address, dest: Address, amount: Amount)
    ensures var r, q := OrElse(Redelegate(p, s, delegator, src, dest, amount), s), Redelegate(p, s, delegator, src, dest, amount);
            && SameFrame(s, r)
            && (q.Ok? && amount > 0 ==> r.incoming == s.incoming[BondId(delegator, dest) := s.epoch + p.pipelineLen])
  {
    hide TakeOut, RedelegateTo, AddRedelegated, AddBonded, ResultSlashing, RedelegateError;
    TakeOutKeeps(p, s, BondId(delegator, src), amount, true);
  }

  lemma BecomeFrame(p: Params, s: State, v: Address)
    ensures var r := Step(p, s, BecomeValidatorOp(v));
            && r == s.(validators := r.validators) && s.validators <= r.validators <= s.validators + {v}
  {
    hide HasBonds;
  }

  lemma TransactionKeeps(p: Params, s: State, op: Op)
    requires IsTransaction(op)
    ensures var r := Step(p, s, op);
            r.epoch == s.epoch && r.slashes == s.slashes && r.lastInfraction == s.lastInfraction
  {
    hide Bond, Unbond, Redelegate, Withdraw, HasBonds, OrElse;
    match op
    case BondOp(source, v, amount) => BondFrame(p, s, source, v, amount, BondId(0, 0));
    case UnbondOp(source, v, amount) => UnbondFrame(p, s, source, v, amount);
    case RedelegateOp(delegator, src, dest, amount) => RedelegateFrame(p, s, delegator, src, dest, amount);
    case WithdrawOp(source, v) => WithdrawFrame(p, s, source, v, BondId(0, 0));
    case BecomeValidatorOp(v) => BecomeFrame(p, s, v);
  }

  lemma NextSynced(p: Params, w: World, event: Event)
    requires Synced(p, w)
    ensures Synced(p, Next(p, w, event))
  {
    hide T.Recorded, OrderedAt, T.Push, T.GrewBetween;
    var timing := w.timing;
    match event {
      case Transact(op) =>
        if IsTransaction(op) {
          hide Step;
          TransactionKeeps(p, w.ledger, op);
        }
      case Report(ev) =>
        if T.Accepts(p, timing, ev) {
          T.EnqueueRecorded(p, timing, ev);
        }
      case Start(cubicRate) =>
        T.NewEpochRecorded(p, timing, cubicRate);
        var after := T.NewEpoch(timing, cubicRate).recorded;
        forall v: Address ensures OrderedAt(p, SlashesOf(after, v), timing.epoch + 1) {
          NewEpochGrows(p, timing, cubicRate, v);
          assert OrderedAt(p, SlashesOf(timing.recorded, v), timing.epoch);
          OrderedGrows(p, SlashesOf(timing.recorded, v), SlashesOf(after, v), timing.epoch);
        }
    }
  }

  lemma NewEpochGrows(p: Params, s: T.State, cubicRate: nat, v: Address)
    requires T.Recorded(p, s)
    ensures T.GrewBetween(p, SlashesOf(s.recorded, v), SlashesOf(T.NewEpoch(s, cubicRate).recorded, v), s.epoch, s.epoch + 1)
  {
    hide T.Push;
    assert T.FiledAt(p, T.EnqueuedAt(s.enqueued, s.epoch + 1), s.epoch + 1);
    T.PushGrows(p, s.recorded, T.EnqueuedAt(s.enqueued, s.epoch + 1), cubicRate, v, s.epoch + 1);
  }

  lemma GenesisSynced(p: Params, w: World)
    requires Genesis(w)
    ensures Synced(p, w)
  {
    T.RunRecorded(p, []);
    T.RunOfNone(p);
  }

  // ---- The ledger's own invariant ----

  lemma NextInv(p: Params, w: World, event: Event)
    requires Inv(p, w.ledger)
    ensures Inv(p, Next(p, w, event).ledger)
  {
    hide Step, T.Enqueue;
    match event {
      case Transact(op) => if IsTransaction(op) { hide Inv; StepInv(p, w.ledger, op); }
      case Report(ev) => if T.Accepts(p, w.timing, ev) { hide Inv; StepInv(p, w.ledger, InfractionOp(ev.validator, ev.infraction)); }
      case Start(cubicRate) =>
        hide Covered, BondedTotal, RedelegatedTotal, TotalOutstanding;
    }
  }

  // ---- Redelegated tokens and the redelegations that brought them ----

  /** Is the operation an accepted redelegation into the given account? */
  ghost predicate Redelegates(p: Params, s: State, op: Op, id: BondId) {
    && op.RedelegateOp? && op.amount > 0 && id == BondId(op.delegator, op.dest)
    && Redelegate(p, s, op.delegator, op.src, op.dest, op.amount).Ok?
  }

  /** Redelegated tokens in an account were brought by a redelegation that ended by the incoming epoch, from another validator. */
  ghost predicate Tracked(s: State, id: BondId, k: RedelegationSlot) {
    EntryAt(AccountOf(s.accounts, id), k) > 0 ==>
      && id in s.incoming && k.epoch <= s.incoming[id]
      && k.src != id.validator && k.src in s.validators
  }

  ghost predicate AllTracked(p: Params, s: State) {
    && (forall id: BondId, k: RedelegationSlot :: Tracked(s, id, k))
    && (forall id | id in s.incoming :: s.incoming[id] <= s.epoch + p.pipelineLen)
  }

  lemma TakeOutEntries(p: Params, s: State, id: BondId, amount: Amount, isRedelegation: bool, other: BondId,
                       k: RedelegationSlot)
    requires amount > 0
    ensures EntryAt(AccountOf(TakeOut(p, s, id, amount, isRedelegation).accounts, other), k)
         <= EntryAt(AccountOf(s.accounts, other), k)
  {
    hide Take, After, AfterUnbond, SubBonded, SubRedelegated, TokensAt, AmountAt;
    UnbondSplit(AccountOf(s.accounts, id), amount, k.epoch);
    AccountAfterBonds(p, s, id, amount, isRedelegation);
  }

  lemma BringInEntries(p: Params, s: State, delegator: Address, src: Address, dest: Address,
                       amounts: map<Epoch, Amount>, other: BondId, k: RedelegationSlot)
    ensures var r := BringIn(p, s, delegator, src, dest, amounts);
            EntryAt(AccountOf(r.accounts, other), k) == EntryAt(AccountOf(s.accounts, other), k)
              + if other == BondId(delegator, dest) && k.epoch == s.epoch + p.pipelineLen && k.src == src
                then Get(amounts, k.start) else 0
  {
    hide AddRedelegated, AddBonded, EntryAt, WithTokens, TakeOut;
    var id := BondId(delegator, dest);
    var a := AccountOf(s.accounts, id);
    WithTokensAt(p, a, s.epoch, src, amounts);
    SameEntries(RedelegateTo(p, a, s.epoch, src, amounts), WithTokens(p, a, s.epoch, src, amounts), k);
  }

  lemma SameAccountEntries(s: State, r: State, id: BondId, k: RedelegationSlot)
    requires AccountOf(r.accounts, id).redelegated == AccountOf(s.accounts, id).redelegated
    ensures EntryAt(AccountOf(r.accounts, id), k) == EntryAt(AccountOf(s.accounts, id), k)
  {
  }

  lemma RedelegationIncoming(p: Params, s: State, op: Op, id: BondId)
    requires Redelegates(p, s, op, id)
    ensures var r := Step(p, s, op);
            r.incoming == s.incoming[id := s.epoch + p.pipelineLen] && r.validators == s.validators
    ensures op.src != op.dest && op.src in s.validators && op.dest in s.validators && op.delegator !in s.validators
  {
    hide TakeOut, BringIn, ResultSlashing, IsChained, UnbondError;
    RedelegateFrame(p, s, op.delegator, op.src, op.dest, op.amount);
  }

  lemma RedelegationTracked(p: Params, s: State, op: Op, id: BondId, k: RedelegationSlot)
    requires AllTracked(p, s) && op.RedelegateOp? && Redelegates(p, s, op, BondId(op.delegator, op.dest))
    ensures Tracked(Step(p, s, op), id, k)
  {
    hide TakeOut, BringIn, ResultSlashing, RedelegateError, EntryAt;
    var src := BondId(op.delegator, op.src);
    RedelegationIncoming(p, s, op, BondId(op.delegator, op.dest));
    TakeOutEntries(p, s, src, op.amount, true, id, k);
    TakeOutKeeps(p, s, src, op.amount, true);
    BringInEntries(p, TakeOut(p, s, src, op.amount, true), op.delegator, op.src, op.dest, ResultSlashing(p, s, src, op.amount), id, k);
    assert Tracked(s, id, k);
  }

  lemma UnbondEntries(p: Params, s: State, source: Option<Address>, v: Address, amount: Amount, id: BondId,
                      k: RedelegationSlot)
    ensures EntryAt(AccountOf(OrElse(Unbond(p, s, source, v, amount), s).accounts, id), k) <= EntryAt(AccountOf(s.accounts, id), k)
  {
    hide TakeOut, EntryAt, UnbondError;
    if amount > 0 {
      TakeOutEntries(p, s, IdOf(source, v), amount, false, id, k);
    }
  }

  /** No other transaction adds redelegated tokens. */
  lemma OtherEntries(p: Params, s: State, op: Op, id: BondId, k: RedelegationSlot)
    requires IsTransaction(op) && !(op.RedelegateOp? && Redelegates(p, s, op, BondId(op.delegator, op.dest)))
    ensures var r := Step(p, s, op);
            && EntryAt(AccountOf(r.accounts, id), k) <= EntryAt(AccountOf(s.accounts, id), k)
            && r.incoming == s.incoming && s.validators <= r.validators
  {
    hide Bond, Unbond, Redelegate, Withdraw, EntryAt, HasBonds, AccountOf, OrElse;
    var r := Step(p, s, op);
    match op
    case UnbondOp(source, v, amount) =>
      UnbondEntries(p, s, source, v, amount, id, k);
      UnbondFrame(p, s, source, v, amount);
    case BondOp(source, v, amount) =>
      BondFrame(p, s, source, v, amount, id);
      SameAccountEntries(s, r, id, k);
    case WithdrawOp(source, v) =>
      WithdrawFrame(p, s, source, v, id);
      SameAccountEntries(s, r, id, k);
    case RedelegateOp(delegator, src, dest, amount) => NoRedelegation(p, s, delegator, src, dest, amount);
    case BecomeValidatorOp(v) => BecomeFrame(p, s, v);
  }

  lemma NoRedelegation(p: Params, s: State, delegator: Address, src: Address, dest: Address, amount: Amount)
    requires amount == 0 || Redelegate(p, s, delegator, src, dest, amount).Err?
    ensures OrElse(Redelegate(p, s, delegator, src, dest, amount), s) == s
  {
    hide TakeOut, BringIn, ResultSlashing, RedelegateError;
  }

  lemma TransactionTracked(p: Params, s: State, op: Op)
    requires AllTracked(p, s) && IsTransaction(op)
    ensures AllTracked(p, Step(p, s, op))
  {
    hide Step, EntryAt, Redelegate;
    var r := Step(p, s, op);
    TransactionKeeps(p, s, op);
    forall id: BondId, k: RedelegationSlot ensures Tracked(r, id, k) {
      assert Tracked(s, id, k);
      if op.RedelegateOp? && Redelegates(p, s, op, BondId(op.delegator, op.dest)) {
        RedelegationTracked(p, s, op, id, k);
      } else {
        OtherEntries(p, s, op, id, k);
      }
    }
    if op.RedelegateOp? && Redelegates(p, s, op, BondId(op.delegator, op.dest)) {
      RedelegationIncoming(p, s, op, BondId(op.delegator, op.dest));
    } else {
      OtherEntries(p, s, op, BondId(0, 0), RedelegationSlot(0, 0, 0, 0));
    }
  }

  lemma SameTracked(p: Params, s: State, r: State)
    requires AllTracked(p, s) && r.accounts == s.accounts && r.incoming == s.incoming && r.validators == s.validators
    requires s.epoch <= r.epoch
    ensures AllTracked(p, r)
  {
    hide EntryAt;
    forall id: BondId, k: RedelegationSlot ensures Tracked(r, id, k) {
      assert Tracked(s, id, k);
    }
  }

  lemma NextTracked(p: Params, w: World, event: Event)
    requires AllTracked(p, w.ledger)
    ensures AllTracked(p, Next(p, w, event).ledger)
  {
    hide AllTracked;
    match event {
      case Transact(op) => if IsTransaction(op) { hide Step; TransactionTracked(p, w.ledger, op); }
      case Report(ev) => SameTracked(p, w.ledger, Next(p, w, event).ledger);
      case Start(cubicRate) => SameTracked(p, w.ledger, Next(p, w, event).ledger);
    }
  }

  // ---- The end epochs of redelegations ----

  /** The end epochs of the redelegations into an account that were accepted in a run. */
  ghost function Ends(p: Params, w: World, events: seq<Event>, id: BondId): set<Epoch> {
    if events == [] then {}
    else
      var before, event := events[..|events| - 1], events[|events| - 1];
      var s := Reached(p, w, before).ledger;
      Ends(p, w, before, id) + if event.Transact? && Redelegates(p, s, event.op, id) then {p.RedelegationEndEpochFromStart(s.epoch)} else {}
  }

  /** The stored epoch is the latest of them. */
  ghost predicate IncomingIsLatest(s: State, id: BondId, ends: set<Epoch>) {
    && (id in s.incoming <==> ends != {})
    && (id in s.incoming ==> s.incoming[id] in ends && forall e | e in ends :: e <= s.incoming[id])
  }

  lemma LatestNextEnd(s: State, r: State, id: BondId, ends: set<Epoch>, e: Epoch)
    requires IncomingIsLatest(s, id, ends) && (id in s.incoming ==> s.incoming[id] <= e)
    requires r.incoming == s.incoming[id := e]
    ensures IncomingIsLatest(r, id, ends + {e})
  {
  }

  lemma NextIncoming(p: Params, w: World, event: Event, id: BondId)
    ensures var s, r := w.ledger, Next(p, w, event).ledger;
            if event.Transact? && Redelegates(p, s, event.op, id) then r.incoming == s.incoming[id := s.epoch + p.pipelineLen]
            else (id in r.incoming <==> id in s.incoming) && (id in s.incoming ==> r.incoming[id] == s.incoming[id])
  {
    hide Redelegate;
    if event.Transact? && IsTransaction(event.op) {
      hide Step;
      var op := event.op;
      if op.RedelegateOp? && Redelegates(p, w.ledger, op, BondId(op.delegator, op.dest)) {
        RedelegationIncoming(p, w.ledger, op, BondId(op.delegator, op.dest));
      } else {
        OtherEntries(p, w.ledger, op, id, RedelegationSlot(0, 0, 0, 0));
      }
    }
  }

  ghost predicate Sound(p: Params, w: World) {
    Synced(p, w) && Inv(p, w.ledger) && AllTracked(p, w.ledger)
  }

  lemma NextSound(p: Params, w: World, event: Event)
    requires Sound(p, w)
    ensures Sound(p, Next(p, w, event))
  {
    hide Synced, Inv, AllTracked, Next;
    NextSynced(p, w, event);
    NextInv(p, w, event);
    NextTracked(p, w, event);
  }

  lemma {:induction false} RunSound(p: Params, w: World, events: seq<Event>)
    requires Genesis(w)
    ensures Sound(p, Reached(p, w, events))
    decreases |events|
  {
    hide Next, Synced, Inv;
    if events == [] {
      GenesisSynced(p, w);
      InitialInv(p, w.ledger);
    } else {
      hide AllTracked;
      RunSound(p, w, events[..|events| - 1]);
      NextSound(p, Reached(p, w, events[..|events| - 1]), events[|events| - 1]);
    }
  }

  lemma {:induction false} RunIncoming(p: Params, w: World, events: seq<Event>, id: BondId)
    requires Genesis(w)
    ensures IncomingIsLatest(Reached(p, w, events).ledger, id, Ends(p, w, events, id))
    decreases |events|
  {
    hide Next, Redelegates, Synced, Inv, Tracked;
    if events != [] {
      var before, event := events[..|events| - 1], events[|events| - 1];
      var v := Reached(p, w, before);
      RunIncoming(p, w, before, id);
      RunSound(p, w, before);
      NextIncoming(p, v, event, id);
      var ends := Ends(p, w, before, id);
      if event.Transact? && Redelegates(p, v.ledger, event.op, id) {
        LatestNextEnd(v.ledger, Next(p, v, event).ledger, id, ends, v.ledger.epoch + p.pipelineLen);
      } else {
        assert ends + {} == ends;
      }
    }
  }

  // ---- Chained redelegations ----

  /** Can a slash for the infraction still be recorded? */
  predicate Pending(p: Params, i: Epoch, epoch: Epoch) {
    epoch < i + p.SlashProcessingEpochOffset()
  }

  /** Is an infraction still pending that was committed before the tokens of some redelegation left their source? */
  ghost predicate AwaitsSlashes(p: Params, ends: set<Epoch>, epoch: Epoch) {
    exists e: Epoch, i: Epoch :: e in ends && i < e && Pending(p, i, epoch)
  }

  /** For every run: the chained-redelegation rule rejects exactly when some earlier redelegation of the delegator into the
      source validator could still meet a slash of the validator from which it came. */
  lemma ChainedExactly(p: Params, w: World, events: seq<Event>, delegator: Address, src: Address)
    requires Genesis(w) && p.pipelineLen > 0
    ensures var s := Reached(p, w, events).ledger;
            IsChained(p, s, delegator, src) <==> AwaitsSlashes(p, Ends(p, w, events, BondId(delegator, src)), s.epoch)
  {
    hide Reached, Ends, Synced, Inv, Tracked;
    var s, id := Reached(p, w, events).ledger, BondId(delegator, src);
    var ends := Ends(p, w, events, id);
    RunIncoming(p, w, events, id);
    RunEnds(p, w, events, id);
    if IsChained(p, s, delegator, src) {
      var e := s.incoming[id];
      assert e in ends && e - 1 < e && Pending(p, e - 1, s.epoch);
    }
  }

  lemma {:induction false} RunEnds(p: Params, w: World, events: seq<Event>, id: BondId)
    ensures forall e | e in Ends(p, w, events, id) :: p.pipelineLen <= e
    decreases |events|
  {
    hide Reached, Redelegates;
    if events != [] {
      RunEnds(p, w, events[..|events| - 1], id);
    }
  }

  /** For every run, every accepted redelegation out of a validator and all redelegated tokens that it takes: no infraction
      before the tokens left their own source is pending any more. */
  lemma ChainsWait(p: Params, w: World, events: seq<Event>, delegator: Address, src: Address, dest: Address,
                   amount: Amount, k: RedelegationSlot)
    requires Genesis(w) && amount > 0
    requires var s := Reached(p, w, events).ledger;
             && Redelegate(p, s, delegator, src, dest, amount).Ok?
             && AmountAt(TokensAt(Take(AccountOf(s.accounts, BondId(delegator, src)), amount).redelegated, k.epoch), k.src, k.start) > 0
    ensures forall i: Epoch | i < k.epoch :: !Pending(p, i, Reached(p, w, events).ledger.epoch)
  {
    hide Reached, Synced, Inv, Take, After, TakeOut, BringIn, ResultSlashing, UnbondError;
    var s, id := Reached(p, w, events).ledger, BondId(delegator, src);
    RunSound(p, w, events);
    UnbondSplit(AccountOf(s.accounts, id), amount, k.epoch);
    assert Tracked(s, id, k);
  }

  lemma {:induction false} RecordedOnce(p: Params, slashes: seq<Slash>, more: seq<Slash>, epoch: Epoch, i: Epoch)
    requires slashes <= more && !Pending(p, i, epoch)
    requires forall j | |slashes| <= j < |more| :: epoch < more[j].epoch + p.SlashProcessingEpochOffset()
    ensures OfEpoch(more, i) == OfEpoch(slashes, i)
    decreases |more|
  {
    if |more| == |slashes| {
      assert more == slashes;
    } else {
      RecordedOnce(p, slashes, more[..|more| - 1], epoch, i);
    }
  }

  /** Once an infraction is not pending, no later event changes the slashes recorded for it. */
  lemma NoMoreRecorded(p: Params, w: World, events: seq<Event>, more: seq<Event>, v: Address, i: Epoch)
    requires Genesis(w) && !Pending(p, i, Reached(p, w, events).ledger.epoch)
    ensures var s := Reached(p, w, events);
            OfEpoch(SlashesOf(Reached(p, s, more).ledger.slashes, v), i) == OfEpoch(SlashesOf(s.ledger.slashes, v), i)
  {
    hide Reached, Inv, AllTracked, T.Recorded, OrderedAt, OfEpoch, T.Run;
    var s := Reached(p, w, events);
    RunSound(p, w, events);
    LaterSynced(p, s, more);
    TimingFollows(p, s, more);
    T.RecordedGrows(p, s.timing, TimingOps(more), v);
    RecordedOnce(p, SlashesOf(s.ledger.slashes, v), SlashesOf(Reached(p, s, more).ledger.slashes, v), s.ledger.epoch, i);
  }

  lemma {:induction false} LaterSynced(p: Params, w: World, more: seq<Event>)
    requires Synced(p, w)
    ensures Synced(p, Reached(p, w, more))
    decreases |more|
  {
    hide Next, Synced;
    if more != [] {
      LaterSynced(p, w, more[..|more| - 1]);
      NextSynced(p, Reached(p, w, more[..|more| - 1]), more[|more| - 1]);
    }
  }

  /** So the slashes for which redelegated tokens are liable are all recorded before they can move on. */
  lemma LiabilitiesSettled(p: Params, w: World, events: seq<Event>, more: seq<Event>, delegator: Address, src: Address,
                           dest: Address, amount: Amount, k: RedelegationSlot, i: Epoch)
    requires Genesis(w) && amount > 0 && Liable(p, k.start, k.epoch, i)
    requires var s := Reached(p, w, events).ledger;
             && Redelegate(p, s, delegator, src, dest, amount).Ok?
             && AmountAt(TokensAt(Take(AccountOf(s.accounts, BondId(delegator, src)), amount).redelegated, k.epoch), k.src, k.start) > 0
    ensures var s := Reached(p, w, events);
            OfEpoch(SlashesOf(Reached(p, s, more).ledger.slashes, k.src), i) == OfEpoch(SlashesOf(s.ledger.slashes, k.src), i)
  {
    hide Reached, Redelegate, Take, OfEpoch;
    ChainsWait(p, w, events, delegator, src, dest, amount, k);
    NoMoreRecorded(p, w, events, more, k.src, i);
  }

  // ---- What an unbond or a redelegation loses ----

  lemma TakenWorth(p: Params, s: State, id: BondId, amount: Amount, e: Epoch)
    requires AccountsOk(p, s) && CanTake(s, id, amount) && InOrder(SlashesOf(s.slashes, id.validator))
    requires e in Take(AccountOf(s.accounts, id), amount).amounts
    ensures var taken := Take(AccountOf(s.accounts, id), amount);
            Worth(p, s.slashes, id.validator, e, None, taken.amounts[e], TokensAt(taken.redelegated, e), ResultSlashing(p, s, id, amount)[e])
  {
    hide Take, After, Total, UnbondAfter, InOrder, Worth, TokensAt;
    var a := AccountOf(s.accounts, id);
    var taken := Take(a, amount);
    EmptyAccount(p, s.epoch);
    AfterCoveredAt(a, amount, e);
    assert Total(TokensAt(taken.redelegated, e)) <= Get(taken.amounts, e);
    UnbondWorth(p, s.slashes, id.validator, UnbondFilter(e), e, None, taken.amounts[e], TokensAt(taken.redelegated, e));
  }

  /** Each bond that is taken from is worth what the slashes recorded of the validator since it started leave of it. */
  ghost predicate TakenLoses(p: Params, s: State, v: Address, taken: Taken, left: map<Epoch, Amount>) {
    && left.Keys == taken.amounts.Keys
    && forall e | e in left ::
         Worth(p, s.slashes, v, e, None, taken.amounts[e], TokensAt(taken.redelegated, e), left[e])
  }

  lemma AllTakenLose(p: Params, s: State, id: BondId, amount: Amount)
    requires AccountsOk(p, s) && CanTake(s, id, amount) && InOrder(SlashesOf(s.slashes, id.validator))
    ensures TakenLoses(p, s, id.validator, Take(AccountOf(s.accounts, id), amount), ResultSlashing(p, s, id, amount))
  {
    hide AccountsOk, CanTake, InOrder, Worth, Take, TokensAt, UnbondAfter, SlashesOf;
    var taken, left := Take(AccountOf(s.accounts, id), amount), ResultSlashing(p, s, id, amount);
    forall e | e in left
      ensures Worth(p, s.slashes, id.validator, e, None, taken.amounts[e], TokensAt(taken.redelegated, e), left[e])
    {
      TakenWorth(p, s, id, amount, e);
    }
  }

  lemma SoundLedger(p: Params, w: World, v: Address)
    requires Sound(p, w)
    ensures AccountsOk(p, w.ledger) && Solvent(w.ledger) && InOrder(SlashesOf(w.ledger.slashes, v))
  {
    hide AccountsOk, BondedAgrees, RedelegatedAgrees, Solvent, AllTracked, T.Recorded, InOrder;
    assert OrderedAt(p, SlashesOf(w.ledger.slashes, v), w.ledger.epoch);
  }

  /** For every run and every accepted unbond: each bond that it takes from is worth, after slashing, what the recorded
      slashes of its validator since it started leave of it, and its redelegated tokens what those of their sources leave. */
  lemma UnbondLoses(p: Params, w: World, events: seq<Event>, source: Option<Address>, v: Address, amount: Amount)
    requires Genesis(w) && amount > 0 && UnbondError(p, Reached(p, w, events).ledger, source, v, amount).None?
    ensures var s, id := Reached(p, w, events).ledger, IdOf(source, v);
            TakenLoses(p, s, v, Take(AccountOf(s.accounts, id), amount), ResultSlashing(p, s, id, amount))
  {
    hide Reached, Sound, TakenLoses, AccountsOk, Solvent, InOrder, SlashesOf, Take, ResultSlashing, BondsBy;
    var s, id := Reached(p, w, events).ledger, IdOf(source, v);
    RunSound(p, w, events);
    SoundLedger(p, Reached(p, w, events), v);
    AllBondsChecked(p, s, id);
    AllTakenLose(p, s, id, amount);
  }

  lemma BroughtIn(p: Params, s: State, delegator: Address, src: Address, dest: Address, amounts: map<Epoch, Amount>)
    ensures var a := AccountOf(s.accounts, BondId(delegator, dest));
            var b := AccountOf(BringIn(p, s, delegator, src, dest, amounts).accounts, BondId(delegator, dest));
            forall e: Epoch :: Get(b.bonds, e) == Get(a.bonds, e) + if e == s.epoch + p.pipelineLen then Tally(amounts) else 0
  {
    hide AddRedelegated, AddBonded, AddAmounts;
  }

  lemma TakeOutOther(p: Params, s: State, id: BondId, amount: Amount, isRedelegation: bool, other: BondId)
    requires other != id
    ensures AccountOf(TakeOut(p, s, id, amount, isRedelegation).accounts, other) == AccountOf(s.accounts, other)
  {
    hide AccountAfter, Take, SubBonded, SubRedelegated;
  }

  /** For every run and every accepted redelegation: what is left of each bond taken from the source validator, and nothing
      else, arrives at the destination, as one bond from the pipeline epoch on and as entries that name the source. */
  lemma RedelegationMoves(p: Params, w: World, events: seq<Event>, delegator: Address, src: Address, dest: Address,
                          amount: Amount)
    returns (left: map<Epoch, Amount>)
    requires Genesis(w) && amount > 0 && Redelegate(p, Reached(p, w, events).ledger, delegator, src, dest, amount).Ok?
    ensures var s := Reached(p, w, events).ledger;
            TakenLoses(p, s, src, Take(AccountOf(s.accounts, BondId(delegator, src)), amount), left)
    ensures var s := Reached(p, w, events).ledger;
            var a := AccountOf(s.accounts, BondId(delegator, dest));
            var b := AccountOf(Redelegate(p, s, delegator, src, dest, amount).value.accounts, BondId(delegator, dest));
            && (forall e: Epoch :: Get(b.bonds, e) == Get(a.bonds, e) + if e == s.epoch + p.pipelineLen then Tally(left) else 0)
            && (forall k: RedelegationSlot ::
                  EntryAt(b, k) == EntryAt(a, k) + if k.epoch == s.epoch + p.pipelineLen && k.src == src then Get(left, k.start) else 0)
  {
    hide Reached, TakenLoses, TakeOut, BringIn, ResultSlashing, EntryAt, Take, IsChained, UnbondError;
    var s, id := Reached(p, w, events).ledger, BondId(delegator, src);
    left := ResultSlashing(p, s, id, amount);
    UnbondLoses(p, w, events, Some(delegator), src, amount);
    var t := TakeOut(p, s, id, amount, true);
    TakeOutOther(p, s, id, amount, true, BondId(delegator, dest));
    TakeOutKeeps(p, s, id, amount, true);
    BroughtIn(p, t, delegator, src, dest, left);
    var b := AccountOf(BringIn(p, t, delegator, src, dest, left).accounts, BondId(delegator, dest));
    forall k: RedelegationSlot
      ensures EntryAt(b, k) == EntryAt(AccountOf(t.accounts, BondId(delegator, dest)), k)
                + if k.epoch == s.epoch + p.pipelineLen && k.src == src then Get(left, k.start) else 0
    {
      BringInEntries(p, t, delegator, src, dest, left, BondId(delegator, dest), k);
    }
  }

  // ---- What a withdrawal pays ----

  /** The bond had started by the end of its contribution, from which on the waiting time counts. */
  predicate KeyOk(p: Params, k: UnbondKey) {
    k.start + p.unbondingLen + p.cubicSlashingWindowLength <= k.withdraw
  }

  ghost predicate KeysOk(p: Params, s: State) {
    forall id: BondId, k | k in AccountOf(s.accounts, id).unbonds :: KeyOk(p, k)
  }

  lemma AfterUnbondKeys(p: Params, epoch: Epoch, a: Account, amount: Amount, k: UnbondKey)
    requires Timely(p, epoch, a) && k in AfterUnbond(a, amount, epoch + p.WithdrawableEpochOffset()).unbonds
    ensures k in a.unbonds || KeyOk(p, k)
  {
    hide Take, After, AddUnbonds, AddRedelegatedUnbonds;
    AfterSameUnbonds(a, amount);
    AddUnbondsAt(a.unbonds, Take(a, amount).amounts, epoch + p.WithdrawableEpochOffset());
    TakenKeys(a, amount);
  }

  lemma TakenKeys(a: Account, amount: Amount)
    ensures Take(a, amount).amounts.Keys <= a.bonds.Keys
  {
    hide FindBonds, PlanOf, NewRedelegatedUnbonds;
  }

  lemma TakeOutKeys(p: Params, s: State, id: BondId, amount: Amount, isRedelegation: bool, other: BondId, k: UnbondKey)
    requires AccountsOk(p, s) && KeysOk(p, s) && amount > 0
    requires k in AccountOf(TakeOut(p, s, id, amount, isRedelegation).accounts, other).unbonds
    ensures KeyOk(p, k)
  {
    hide Covered, KeyOk, Timely, Take, After, AfterUnbond, SubBonded, SubRedelegated;
    var a := AccountOf(s.accounts, id);
    EmptyAccount(p, s.epoch);
    assert k in AccountOf(s.accounts, other).unbonds ==> KeyOk(p, k);
    if other == id {
      if isRedelegation {
        AfterSameUnbonds(a, amount);
      } else {
        AfterUnbondKeys(p, s.epoch, a, amount, k);
      }
    }
  }

  lemma UnbondKeys(p: Params, s: State, source: Option<Address>, v: Address, amount: Amount)
    requires AccountsOk(p, s) && KeysOk(p, s)
    ensures KeysOk(p, OrElse(Unbond(p, s, source, v, amount), s))
  {
    hide TakeOut, UnbondError, AccountsOk, KeyOk, AccountOf;
    var id := IdOf(source, v);
    if amount > 0 {
      var t := TakeOut(p, s, id, amount, false);
      forall other: BondId, k | k in AccountOf(t.accounts, other).unbonds ensures KeyOk(p, k) {
        TakeOutKeys(p, s, id, amount, false, other, k);
      }
    }
  }

  lemma BroughtInKeys(p: Params, s: State, delegator: Address, src: Address, dest: Address,
                      amounts: map<Epoch, Amount>, other: BondId)
    ensures AccountOf(BringIn(p, s, delegator, src, dest, amounts).accounts, other).unbonds == AccountOf(s.accounts, other).unbonds
  {
    hide AddRedelegated, AddBonded, AddAmounts;
  }

  lemma RedelegateKeys(p: Params, s: State, delegator: Address, src: Address, dest: Address, amount: Amount)
    requires AccountsOk(p, s) && KeysOk(p, s)
    ensures KeysOk(p, OrElse(Redelegate(p, s, delegator, src, dest, amount), s))
  {
    hide TakeOut, BringIn, ResultSlashing, RedelegateError, AccountsOk, KeyOk, AccountOf;
    var id := BondId(delegator, src);
    if amount > 0 {
      var t, left := TakeOut(p, s, id, amount, true), ResultSlashing(p, s, id, amount);
      var r := BringIn(p, t, delegator, src, dest, left);
      forall other: BondId, k | k in AccountOf(r.accounts, other).unbonds ensures KeyOk(p, k) {
        BroughtInKeys(p, t, delegator, src, dest, left, other);
        TakeOutKeys(p, s, id, amount, true, other, k);
      }
    }
  }

  lemma TransactionKeys(p: Params, s: State, op: Op)
    requires AccountsOk(p, s) && KeysOk(p, s) && IsTransaction(op)
    ensures KeysOk(p, Step(p, s, op))
  {
    hide Bond, Unbond, Redelegate, Withdraw, HasBonds, OrElse, KeyOk, AccountOf, AccountsOk;
    var r := Step(p, s, op);
    match op
    case BondOp(source, v, amount) =>
      forall id: BondId, k | k in AccountOf(r.accounts, id).unbonds ensures KeyOk(p, k) {
        BondFrame(p, s, source, v, amount, id);
      }
    case UnbondOp(source, v, amount) => UnbondKeys(p, s, source, v, amount);
    case RedelegateOp(delegator, src, dest, amount) => RedelegateKeys(p, s, delegator, src, dest, amount);
    case WithdrawOp(source, v) =>
      forall id: BondId, k | k in AccountOf(r.accounts, id).unbonds ensures KeyOk(p, k) {
        WithdrawFrame(p, s, source, v, id);
      }
    case BecomeValidatorOp(v) => BecomeFrame(p, s, v);
  }

  lemma NextKeys(p: Params, w: World, event: Event)
    requires AccountsOk(p, w.ledger) && KeysOk(p, w.ledger)
    ensures KeysOk(p, Next(p, w, event).ledger)
  {
    hide KeyOk, AccountsOk, T.Enqueue, T.Push;
    if event.Transact? && IsTransaction(event.op) {
      hide Step, KeysOk;
      TransactionKeys(p, w.ledger, event.op);
    }
  }

  lemma {:induction false} RunKeys(p: Params, w: World, events: seq<Event>)
    requires Genesis(w)
    ensures KeysOk(p, Reached(p, w, events).ledger)
    decreases |events|
  {
    hide Next, KeyOk, Synced, AllTracked, AccountsOk, BondedAgrees, RedelegatedAgrees, Solvent;
    if events != [] {
      hide KeysOk;
      RunKeys(p, w, events[..|events| - 1]);
      RunSound(p, w, events[..|events| - 1]);
      NextKeys(p, Reached(p, w, events[..|events| - 1]), events[|events| - 1]);
    }
  }

  lemma WithdrawnWorth(p: Params, s: State, id: BondId, k: UnbondKey)
    requires AccountsOk(p, s) && InOrder(SlashesOf(s.slashes, id.validator)) && KeyOk(p, k)
    requires k in Withdrawable(AccountOf(s.accounts, id).unbonds, s.epoch)
    ensures var a := AccountOf(s.accounts, id);
            Worth(p, s.slashes, id.validator, k.start, Some(k.withdraw - p.unbondingLen - p.cubicSlashingWindowLength),
                  a.unbonds[k], UnbondTokensAt(a.redelegatedUnbonds, k), WithdrawnAmounts(p, s, id)[k])
  {
    hide UnbondAfter, Total, Timely, InOrder, Worth;
    var a := AccountOf(s.accounts, id);
    EmptyAccount(p, s.epoch);
    assert Total(UnbondTokensAt(a.redelegatedUnbonds, k)) <= Get(a.unbonds, k);
    UnbondWorth(p, s.slashes, id.validator, WithdrawFilter(p, k.start, k.withdraw), k.start,
                Some(k.withdraw - p.unbondingLen - p.cubicSlashingWindowLength), a.unbonds[k], UnbondTokensAt(a.redelegatedUnbonds, k));
  }

  /** The amounts are what the unbonds that can be withdrawn are worth after the slashes of their validator while the bond
      contributed to stake, which ended the waiting time before they can be withdrawn. */
  ghost predicate WithdrawnLoses(p: Params, s: State, v: Address, a: Account, paid: map<UnbondKey, Amount>) {
    && (forall k :: k in paid <==> k in a.unbonds && k.withdraw <= s.epoch)
    && (forall k | k in paid ::
          && k.start <= k.withdraw - p.unbondingLen - p.cubicSlashingWindowLength
          && Worth(p, s.slashes, v, k.start, Some(k.withdraw - p.unbondingLen - p.cubicSlashingWindowLength),
                   a.unbonds[k], UnbondTokensAt(a.redelegatedUnbonds, k), paid[k]))
  }

  lemma AllWithdrawnLose(p: Params, s: State, id: BondId)
    requires AccountsOk(p, s) && KeysOk(p, s) && InOrder(SlashesOf(s.slashes, id.validator))
    ensures WithdrawnLoses(p, s, id.validator, AccountOf(s.accounts, id), WithdrawnAmounts(p, s, id))
  {
    hide AccountsOk, InOrder, Worth, WithdrawnAmount, SlashesOf, UnbondTokensAt;
    var a, paid := AccountOf(s.accounts, id), WithdrawnAmounts(p, s, id);
    forall k | k in paid
      ensures KeyOk(p, k)
      ensures Worth(p, s.slashes, id.validator, k.start, Some(k.withdraw - p.unbondingLen - p.cubicSlashingWindowLength),
                    a.unbonds[k], UnbondTokensAt(a.redelegatedUnbonds, k), paid[k])
    {
      WithdrawnWorth(p, s, id, k);
    }
  }

  /** For every run and every withdrawal: it moves to the source exactly the sum of what its withdrawable unbonds are worth,
      each after the slashes of its validator while its bond contributed and of its redelegated tokens' sources. */
  lemma WithdrawalLoses(p: Params, w: World, events: seq<Event>, source: Option<Address>, v: Address)
    returns (paid: map<UnbondKey, Amount>)
    requires Genesis(w) && AccountOf(Reached(p, w, events).ledger.accounts, IdOf(source, v)).unbonds != map[]
    ensures var s := Reached(p, w, events).ledger;
            WithdrawnLoses(p, s, v, AccountOf(s.accounts, IdOf(source, v)), paid)
    ensures var s := Reached(p, w, events).ledger;
            var r := Withdraw(p, s, source, v);
            && r.Ok? && r.value.posBalance == s.posBalance - Tally(paid)
            && forall b: Address :: Get(r.value.balances, b) == Get(s.balances, b) + if b == IdOf(source, v).source then Tally(paid) else 0
  {
    hide Reached, Sound, WithdrawnLoses, AccountsOk, KeysOk, Solvent, InOrder, SlashesOf, WithdrawnAmounts, AfterWithdraw;
    var s, id := Reached(p, w, events).ledger, IdOf(source, v);
    RunSound(p, w, events);
    SoundLedger(p, Reached(p, w, events), v);
    RunKeys(p, w, events);
    AllWithdrawnLose(p, s, id);
    WithdrawHasFunds(p, s, source, v);
    paid := WithdrawnAmounts(p, s, id);
  }

  // ---- Slashes are evidence ----

  lemma {:induction false} CountIsSize(slashes: seq<Slash>, i: Epoch)
    ensures T.CountSlashes(slashes, i) == |OfEpoch(slashes, i)|
    decreases |slashes|
  {
    if slashes != [] {
      CountIsSize(slashes[..|slashes| - 1], i);
    }
  }

  lemma {:induction false} NoMoreEvidence(p: Params, s: T.State, more: seq<T.Op>, v: Address, i: Epoch)
    requires !Pending(p, i, s.epoch)
    ensures T.CountEvidence(T.Run(p, s, more).log, v, i) == T.CountEvidence(s.log, v, i)
    decreases |more|
  {
    if more != [] {
      var before, op := T.Run(p, s, more[..|more| - 1]), more[|more| - 1];
      NoMoreEvidence(p, s, more[..|more| - 1], v, i);
      T.EpochsOnlyGrow(p, s, more[..|more| - 1]);
      if op.Report? && T.Accepts(p, before, op.ev) {
        T.CountOne(before.log, op.ev, v, i);
      }
    }
  }

  /** For every run and every infraction epoch that is not pending: as many slashes are recorded as evidence is ever accepted. */
  lemma SlashesAreEvidence(p: Params, w: World, events: seq<Event>, more: seq<Event>, v: Address, i: Epoch)
    requires Genesis(w) && !Pending(p, i, Reached(p, w, events).ledger.epoch)
    ensures var s := Reached(p, w, events);
            |OfEpoch(SlashesOf(s.ledger.slashes, v), i)| == T.CountEvidence(Reached(p, s, more).timing.log, v, i)
  {
    hide Reached, Inv, AllTracked, OrderedAt, OfEpoch, T.Run, T.Filed, T.FiledAt, T.CountEvidence, T.CountSlashes;
    var s := Reached(p, w, events);
    RunSound(p, w, events);
    TimingFollows(p, s, more);
    NoMoreEvidence(p, s.timing, TimingOps(more), v, i);
    CountIsSize(SlashesOf(s.ledger.slashes, v), i);
    assert T.CountSlashes(SlashesOf(s.timing.recorded, v), i) ==
           if i + p.SlashProcessingEpochOffset() <= s.timing.epoch then T.CountEvidence(s.timing.log, v, i) else 0;
  }

  // ---- Frozen validators ----

  ghost predicate Accused(log: seq<T.Evidence>, v: Address, i: Epoch) {
    exists ev :: ev in log && ev.validator == v && ev.infraction == i
  }

  /** The stored epoch is that of the validator's latest infraction of which evidence was accepted. */
  ghost predicate LastIsLatest(last: map<Address, Epoch>, log: seq<T.Evidence>) {
    && (forall v | v in last :: Accused(log, v, last[v]))
    && (forall ev | ev in log :: ev.validator in last && ev.infraction <= last[ev.validator])
  }

  lemma AccusedMore(log: seq<T.Evidence>, ev: T.Evidence, v: Address, i: Epoch)
    requires Accused(log, v, i)
    ensures Accused(log + [ev], v, i)
  {
    var e :| e in log && e.validator == v && e.infraction == i;
    assert e in log + [ev];
  }

  lemma LastNext(last: map<Address, Epoch>, log: seq<T.Evidence>, ev: T.Evidence)
    requires LastIsLatest(last, log)
    ensures LastIsLatest(last[ev.validator := Max(Get(last, ev.validator), ev.infraction)], log + [ev])
  {
    var next := last[ev.validator := Max(Get(last, ev.validator), ev.infraction)];
    forall v | v in next ensures Accused(log + [ev], v, next[v]) {
      assert ev in log + [ev];
      if v in last {
        AccusedMore(log, ev, v, last[v]);
      }
    }
  }

  lemma {:induction false} RunLast(p: Params, w: World, events: seq<Event>)
    requires Genesis(w)
    ensures LastIsLatest(Reached(p, w, events).ledger.lastInfraction, Reached(p, w, events).timing.log)
    decreases |events|
  {
    if events != [] {
      hide LastIsLatest, T.Push;
      var v, event := Reached(p, w, events[..|events| - 1]), events[|events| - 1];
      RunLast(p, w, events[..|events| - 1]);
      if event.Transact? && IsTransaction(event.op) {
        hide Step;
        TransactionKeeps(p, v.ledger, event.op);
      } else if event.Report? {
        LastNext(v.ledger.lastInfraction, v.timing.log, event.ev);
      }
    }
  }

  /** For every run, a validator is frozen exactly while evidence of one of its infractions has been accepted and the slash for it
      is not recorded yet. */
  lemma FrozenExactly(p: Params, w: World, events: seq<Event>, v: Address)
    requires Genesis(w)
    ensures var s := Reached(p, w, events);
            IsFrozen(p, s.ledger, v) <==> exists ev :: ev in s.timing.log && ev.validator == v && Pending(p, ev.infraction, s.ledger.epoch)
  {
    hide Reached;
    RunLast(p, w, events);
    var s := Reached(p, w, events);
    if IsFrozen(p, s.ledger, v) {
      var ev :| ev in s.timing.log && ev.validator == v && ev.infraction == s.ledger.lastInfraction[v];
      assert Pending(p, ev.infraction, s.ledger.epoch);
    }
  }

  lemma {:induction false} Uncounted(log: seq<T.Evidence>, v: Address, i: Epoch)
    requires forall ev | ev in log :: ev.validator == v ==> ev.infraction != i
    ensures T.CountEvidence(log, v, i) == 0
    decreases |log|
  {
    if log != [] {
      Uncounted(log[..|log| - 1], v, i);
      assert log[|log| - 1] in log;
    }
  }

  /** For every run: when tokens are unbonded or redelegated from a validator, all accepted evidence against it is recorded as
      slashes, for every infraction epoch. */
  lemma UnbondWaits(p: Params, w: World, events: seq<Event>, source: Option<Address>, v: Address, amount: Amount,
                    i: Epoch)
    requires Genesis(w) && UnbondError(p, Reached(p, w, events).ledger, source, v, amount).None?
    ensures var s := Reached(p, w, events);
            |OfEpoch(SlashesOf(s.ledger.slashes, v), i)| == T.CountEvidence(s.timing.log, v, i)
  {
    hide Reached, Inv, AllTracked, OrderedAt, OfEpoch, T.Filed, T.FiledAt, T.CountEvidence, T.CountSlashes, BondsBy;
    var s := Reached(p, w, events);
    RunSound(p, w, events);
    FrozenExactly(p, w, events, v);
    CountIsSize(SlashesOf(s.ledger.slashes, v), i);
    if Pending(p, i, s.ledger.epoch) {
      Uncounted(s.timing.log, v, i);
    }
    assert T.CountSlashes(SlashesOf(s.timing.recorded, v), i) ==
           if i + p.SlashProcessingEpochOffset() <= s.timing.epoch then T.CountEvidence(s.timing.log, v, i) else 0;
  }

  // ---- Validators do not delegate ----

  ghost predicate Bonded(s: State, id: BondId) {
    Tally(AccountOf(s.accounts, id).bonds) > 0
  }

  /** Tokens are bonded to validators only, and by no validator but to itself. */
  ghost predicate Proper(s: State) {
    forall id: BondId | Bonded(s, id) :: id.validator in s.validators && (id.source == id.validator || id.source !in s.validators)
  }

  lemma BondBonded(p: Params, s: State, source: Option<Address>, v: Address, amount: Amount, id: BondId)
    requires Bonded(OrElse(Bond(p, s, source, v, amount), s), id)
    ensures Bonded(s, id) || (id == IdOf(source, v) && v in s.validators && !SourceIsOtherValidator(s, source, v))
  {
    hide AddBonded, BondTo, SourceIsOtherValidator;
  }

  lemma TakeOutBonds(p: Params, s: State, id: BondId, amount: Amount, isRedelegation: bool, other: BondId)
    requires CanTake(s, id, amount) && Bonded(TakeOut(p, s, id, amount, isRedelegation), other)
    ensures Bonded(s, other)
  {
    hide Take, After, AfterUnbond, SubBonded, SubRedelegated;
    TakenTally(AccountOf(s.accounts, id), amount);
    AccountAfterBonds(p, s, id, amount, isRedelegation);
  }

  lemma UnbondBonded(p: Params, s: State, source: Option<Address>, v: Address, amount: Amount, id: BondId)
    requires AccountsOk(p, s) && Bonded(OrElse(Unbond(p, s, source, v, amount), s), id)
    ensures Bonded(s, id)
  {
    hide TakeOut, AccountsOk, Bonded;
    if amount > 0 && Unbond(p, s, source, v, amount).Ok? {
      AllBondsChecked(p, s, IdOf(source, v));
      TakeOutBonds(p, s, IdOf(source, v), amount, false, id);
    }
  }

  lemma BringInBonds(p: Params, s: State, delegator: Address, src: Address, dest: Address, amounts: map<Epoch, Amount>,
                     id: BondId)
    requires Bonded(BringIn(p, s, delegator, src, dest, amounts), id)
    ensures Bonded(s, id) || id == BondId(delegator, dest)
  {
    hide AddRedelegated, AddBonded, RedelegateTo;
  }

  lemma RedelegateBonded(p: Params, s: State, op: Op, id: BondId)
    requires AccountsOk(p, s) && op.RedelegateOp? && Redelegates(p, s, op, BondId(op.delegator, op.dest))
    requires Bonded(Step(p, s, op), id)
    ensures Bonded(s, id) || id == BondId(op.delegator, op.dest)
  {
    hide TakeOut, BringIn, ResultSlashing, AccountsOk, Bonded, IsChained;
    var src := BondId(op.delegator, op.src);
    AllBondsChecked(p, s, src);
    BringInBonds(p, TakeOut(p, s, src, op.amount, true), op.delegator, op.src, op.dest, ResultSlashing(p, s, src, op.amount), id);
    if Bonded(TakeOut(p, s, src, op.amount, true), id) {
      TakeOutBonds(p, s, src, op.amount, true, id);
    }
  }

  lemma BecomeBonded(p: Params, s: State, v: Address, id: BondId)
    requires Bonded(s, id) && id.source == v
    ensures Step(p, s, BecomeValidatorOp(v)) == s
  {
    assert id in s.accounts;
  }

  lemma RedelegateProper(p: Params, s: State, op: Op, id: BondId)
    requires AccountsOk(p, s) && op.RedelegateOp? && Proper(s) && Bonded(Step(p, s, op), id)
    ensures id.validator in s.validators && (id.source == id.validator || id.source !in s.validators)
    ensures Step(p, s, op).validators == s.validators
  {
    hide Redelegate, AccountsOk, Bonded, OrElse;
    RedelegateFrame(p, s, op.delegator, op.src, op.dest, op.amount);
    if Redelegates(p, s, op, BondId(op.delegator, op.dest)) {
      RedelegateBonded(p, s, op, id);
      RedelegationIncoming(p, s, op, BondId(op.delegator, op.dest));
    } else {
      NoRedelegation(p, s, op.delegator, op.src, op.dest, op.amount);
    }
  }

  lemma TransactionProper(p: Params, s: State, op: Op, id: BondId)
    requires AccountsOk(p, s) && IsTransaction(op) && Proper(s) && Bonded(Step(p, s, op), id)
    ensures var r := Step(p, s, op);
            id.validator in r.validators && (id.source == id.validator || id.source !in r.validators)
  {
    hide Bond, Unbond, Redelegate, Withdraw, HasBonds, AccountsOk, Bonded, OrElse;
    match op
    case BondOp(source, v, amount) =>
      BondFrame(p, s, source, v, amount, id);
      BondBonded(p, s, source, v, amount, id);
    case UnbondOp(source, v, amount) =>
      UnbondFrame(p, s, source, v, amount);
      UnbondBonded(p, s, source, v, amount, id);
    case RedelegateOp(delegator, src, dest, amount) => RedelegateProper(p, s, op, id);
    case WithdrawOp(source, v) =>
      WithdrawFrame(p, s, source, v, id);
      SameBonded(s, Step(p, s, op), id);
    case BecomeValidatorOp(v) =>
      BecomeFrame(p, s, v);
      SameBonded(s, Step(p, s, op), id);
      if id.source == v {
        BecomeBonded(p, s, v, id);
      }
  }

  lemma SameBonded(s: State, r: State, id: BondId)
    requires AccountOf(r.accounts, id).bonds == AccountOf(s.accounts, id).bonds
    ensures Bonded(r, id) == Bonded(s, id)
  {
  }

  lemma NextProper(p: Params, w: World, event: Event)
    requires AccountsOk(p, w.ledger) && Proper(w.ledger)
    ensures Proper(Next(p, w, event).ledger)
  {
    hide AccountsOk, Bonded, T.Enqueue, T.Push;
    var s, r := w.ledger, Next(p, w, event).ledger;
    if event.Transact? && IsTransaction(event.op) {
      hide Step;
      forall id: BondId | Bonded(r, id)
        ensures id.validator in r.validators && (id.source == id.validator || id.source !in r.validators)
      {
        TransactionProper(p, s, event.op, id);
      }
    } else {
      forall id: BondId ensures Bonded(r, id) == Bonded(s, id) {
        SameBonded(s, r, id);
      }
    }
  }

  /** For every run: tokens are bonded to validators only, and a validator bonds to no other validator, whether it was one when
      it bonded or became one later. */
  lemma {:induction false} ValidatorsDoNotDelegate(p: Params, w: World, events: seq<Event>)
    requires Genesis(w)
    ensures Proper(Reached(p, w, events).ledger)
    decreases |events|
  {
    if events != [] {
      hide Next, Proper, Synced, AllTracked, AccountsOk, BondedAgrees, RedelegatedAgrees, Solvent;
      ValidatorsDoNotDelegate(p, w, events[..|events| - 1]);
      RunSound(p, w, events[..|events| - 1]);
      NextProper(p, Reached(p, w, events[..|events| - 1]), events[|events| - 1]);
    }
  }

  lemma RedelegationEntries(p: Params, s: State, op: Op, id: BondId, k: RedelegationSlot)
    requires op.RedelegateOp? && Redelegates(p, s, op, BondId(op.delegator, op.dest))
    requires EntryAt(AccountOf(Step(p, s, op).accounts, id), k) > 0
    ensures EntryAt(AccountOf(s.accounts, id), k) > 0 || (id == BondId(op.delegator, op.dest) && k.epoch == s.epoch + p.pipelineLen)
  {
    hide TakeOut, BringIn, ResultSlashing, RedelegateError, EntryAt;
    var src := BondId(op.delegator, op.src);
    TakeOutEntries(p, s, src, op.amount, true, id, k);
    TakeOutKeeps(p, s, src, op.amount, true);
    BringInEntries(p, TakeOut(p, s, src, op.amount, true), op.delegator, op.src, op.dest, ResultSlashing(p, s, src, op.amount), id, k);
  }

  lemma NextEntries(p: Params, w: World, event: Event, id: BondId, k: RedelegationSlot)
    requires EntryAt(AccountOf(Next(p, w, event).ledger.accounts, id), k) > 0
    ensures var s := w.ledger;
            || EntryAt(AccountOf(s.accounts, id), k) > 0
            || (event.Transact? && Redelegates(p, s, event.op, id) && k.epoch == s.epoch + p.pipelineLen)
  {
    hide EntryAt, Redelegate, T.Push;
    if event.Transact? && IsTransaction(event.op) {
      hide Step;
      var op := event.op;
      if op.RedelegateOp? && Redelegates(p, w.ledger, op, BondId(op.delegator, op.dest)) {
        RedelegationEntries(p, w.ledger, op, id, k);
      } else {
        OtherEntries(p, w.ledger, op, id, k);
      }
    }
  }

  lemma {:induction false} EntriesHaveEnds(p: Params, w: World, events: seq<Event>, id: BondId, k: RedelegationSlot)
    requires Genesis(w) && EntryAt(AccountOf(Reached(p, w, events).ledger.accounts, id), k) > 0
    ensures events != [] && k.epoch in Ends(p, w, events, id)
    decreases |events|
  {
    hide Next, Redelegates;
    if events != [] {
      hide EntryAt;
      var before, event := events[..|events| - 1], events[|events| - 1];
      NextEntries(p, Reached(p, w, before), event, id, k);
      if EntryAt(AccountOf(Reached(p, w, before).ledger.accounts, id), k) > 0 {
        EntriesHaveEnds(p, w, before, id, k);
      }
    }
  }

  /** For every run: redelegated tokens came from another validator, in an accepted redelegation that ended in the epoch under
      which they are kept. */
  lemma RedelegatedFromOthers(p: Params, w: World, events: seq<Event>, id: BondId, k: RedelegationSlot)
    requires Genesis(w) && EntryAt(AccountOf(Reached(p, w, events).ledger.accounts, id), k) > 0
    ensures k.src != id.validator && k.src in Reached(p, w, events).ledger.validators && k.epoch in Ends(p, w, events, id)
  {
    hide Reached, Ends, Synced, Inv, EntryAt;
    RunSound(p, w, events);
    EntriesHaveEnds(p, w, events, id, k);
    assert Tracked(Reached(p, w, events).ledger, id, k);
  }
}
