/** The stake of each validator and of all of them together, kept as epoched deltas. `future` is the pipeline length and
    `past` the number of epochs kept. */
module Stake {
  import opened Types
  import opened FiniteSums
  import opened Parameters
  import opened EpochedDelta
  import E = Epoched

  // ---- One delta update ----

  /** `update_validator_deltas`, `update_total_deltas`: the delta already there is read before trimming. */
  ghost function Update(d: Deltas, past: nat, delta: int, current: Epoch, offset: nat): Deltas {
    Set(d, past, GetInt(d.data, current + offset) + delta, current, offset)
  }

  /** Reading before trimming is the same as adding, except when trimming moves a non-zero sum into the very epoch that is
      written, which takes a past window of zero epochs and a zero offset. */
  lemma UpdateIsAddExactly(d: Deltas, past: nat, delta: int, current: Epoch, offset: nat)
    requires Kept(d, past)
    ensures Update(d, past, delta, current, offset) == Add(d, past, delta, current, offset) <==>
            past >= 1 || offset >= 1 || SumBetween(d.data, 0, current) == 0
  {
    var k := current + offset;
    var t := Trim(d, past, current);
    TrimKept(d, past, current);
    if past >= 1 || offset >= 1 {
      UpdateIsAdd(d, past, delta, current, offset);
    } else {
      OverwrittenSum(d, current);
      var set_, add := Update(d, past, delta, current, offset), Add(d, past, delta, current, offset);
      assert set_.data[k] == GetInt(d.data, k) + delta && add.data[k] == GetInt(t.data, k) + delta;
    }
  }

  lemma UpdateIsAdd(d: Deltas, past: nat, delta: int, current: Epoch, offset: nat)
    requires past >= 1 || offset >= 1
    ensures Update(d, past, delta, current, offset) == Add(d, past, delta, current, offset)
  {
    hide SumBetween;
    assert GetInt(Trim(d, past, current).data, current + offset) == GetInt(d.data, current + offset);
  }

  /** With no past window, trimming at `current` moves every earlier delta into `current`. */
  lemma OverwrittenSum(d: Deltas, current: Epoch)
    requires Kept(d, 0)
    ensures GetInt(Trim(d, 0, current).data, current) == GetInt(d.data, current) + SumBetween(d.data, 0, current)
  {
    if d.oldest.Some? && d.oldest.value < current && E.Between(d.data, d.oldest.value, current) != {} {
      SkipBelow(d.data, d.oldest.value, current);
    } else {
      forall k | k in d.data ensures current <= k {
        assert d.oldest.value < current ==> k !in E.Between(d.data, d.oldest.value, current);
      }
      assert Below(d.data, 0, current) == map[];
    }
  }

  // ---- Slashed stakes ----

  /** `slash_delta`: each epoch's slashed amount, less what the earlier epochs already took. */
  ghost function SlashFrom(d: Deltas, past: nat, amounts: map<Epoch, Amount>, rest: set<Epoch>, acc: Amount): Deltas
    requires rest <= amounts.Keys
    decreases rest
  {
    if rest == {} then d
    else
      var e := MinKey(rest);
      SlashFrom(Update(d, past, acc - amounts[e], e, 0), past, amounts, rest - {e}, amounts[e])
  }

  ghost function Slashed(d: Deltas, past: nat, amounts: map<Epoch, Amount>): Deltas {
    SlashFrom(d, past, amounts, amounts.Keys, 0)
  }

  /** The slashed amount that applies at an epoch: the one at the latest epoch not after it. */
  ghost function AmountAt(amounts: map<Epoch, Amount>, e: Epoch): Amount {
    var a := E.LatestAt(amounts, e);
    if a.Some? then a.value else 0
  }

  ghost function TakenAt(amounts: map<Epoch, Amount>, rest: set<Epoch>, acc: Amount, e: Epoch): int
    requires rest <= amounts.Keys
  {
    var due := set k | k in rest && k <= e;
    if due == {} then 0 else amounts[MaxKey(due)] - acc
  }

  // ---- The stakes ----

  datatype State = State(now: Epoch, validators: map<Address, Deltas>, total: Deltas)

  datatype Op =
    | Become(validator: Address, offset: nat)
    | Change(validator: Address, delta: int, offset: nat)
    | SlashStakes(validator: Address, amounts: map<Epoch, Amount>)
    | NextEpoch

  const INITIAL := State(0, map[], EMPTY)

  /** Amounts that do not fall from one epoch to the next; otherwise the subtraction in `slash_delta` panics. */
  ghost predicate Ascending(amounts: map<Epoch, Amount>) {
    forall a, b | a in amounts && b in amounts && a <= b :: amounts[a] <= amounts[b]
  }

  ghost predicate Enabled(future: nat, s: State, op: Op) {
    match op
    case Become(v, offset) => v !in s.validators && offset <= future
    case Change(v, delta, offset) => v in s.validators && offset <= future
    // A slash takes stake from the current epoch to the pipeline epoch, after some stake was recorded.
    case SlashStakes(v, amounts) =>
      && v in s.validators && s.total.lastUpdate.Some?
      && (forall e | e in amounts :: s.now <= e <= s.now + future)
      && Ascending(amounts)
    case NextEpoch => true
  }

  ghost function Step(future: nat, past: nat, s: State, op: Op): State
    requires Enabled(future, s, op)
  {
    match op
    case Become(v, offset) => s.(validators := s.validators[v := Set(EMPTY, past, 0, s.now, offset)])
    case Change(v, delta, offset) =>
      State(s.now, s.validators[v := Update(s.validators[v], past, delta, s.now, offset)],
            Update(s.total, past, delta, s.now, offset))
    case SlashStakes(v, amounts) =>
      State(s.now, s.validators[v := Slashed(s.validators[v], past, amounts)], Slashed(s.total, past, amounts))
    case NextEpoch => s.(now := s.now + 1)
  }

  /** Every operation is enabled where it happens. */
  ghost predicate Legal(future: nat, past: nat, ops: seq<Op>)
    decreases |ops|, 0
  {
    ops == [] || (Legal(future, past, Before(ops)) && Enabled(future, After(future, past, Before(ops)), Last(ops)))
  }

  ghost function After(future: nat, past: nat, ops: seq<Op>): State
    requires Legal(future, past, ops)
    decreases |ops|, 1
  {
    if ops == [] then INITIAL else Step(future, past, After(future, past, Before(ops)), Last(ops))
  }

  function Before(ops: seq<Op>): seq<Op>
    requires ops != []
  {
    ops[..|ops| - 1]
  }

  function Last(ops: seq<Op>): Op
    requires ops != []
  {
    ops[|ops| - 1]
  }

  lemma Extend(future: nat, past: nat, ops: seq<Op>, op: Op)
    requires Legal(future, past, ops) && Enabled(future, After(future, past, ops), op)
    ensures Legal(future, past, ops + [op])
    ensures After(future, past, ops + [op]) == Step(future, past, After(future, past, ops), op)
  {
    hide Enabled, Step;
    assert Before(ops + [op]) == ops && Last(ops + [op]) == op;
  }

  function Now(ops: seq<Op>): Epoch {
    if ops == [] then 0 else Now(Before(ops)) + if Last(ops).NextEpoch? then 1 else 0
  }

  /** What one operation changes in the stake at an epoch. */
  ghost function Effect(now: Epoch, op: Op, e: Epoch): int {
    match op
    case Change(_, delta, offset) => if now + offset <= e then delta else 0
    case SlashStakes(_, amounts) => -(AmountAt(amounts, e) as int)
    case _ => 0
  }

  /** Everything a run ever changed in the stake of one validator at an epoch. */
  ghost function Made(ops: seq<Op>, v: Address, e: Epoch): int {
    if ops == [] then 0
    else
      Made(Before(ops), v, e) +
      if !Last(ops).NextEpoch? && Last(ops).validator == v then Effect(Now(Before(ops)), Last(ops), e) else 0
  }

  /** Everything a run ever changed in any stake at an epoch. */
  ghost function MadeAll(ops: seq<Op>, e: Epoch): int {
    if ops == [] then 0 else MadeAll(Before(ops), e) + Effect(Now(Before(ops)), Last(ops), e)
  }

  // ---- Reads ----

  /** The change read from a handle; the amount is its absolute value. */
  function ReadChange(d: Deltas, future: nat, past: nat, e: Epoch): int {
    OrZero(ReadSum(d, future, past, e))
  }

  /** `read_validator_stake`, `read_total_stake` */
  function ReadStake(d: Deltas, future: nat, past: nat, e: Epoch): Amount {
    var change := ReadChange(d, future, past, e);
    if change < 0 then -change else change
  }

  ghost function Changes(validators: map<Address, Deltas>, future: nat, past: nat, e: Epoch): map<Address, int> {
    map v | v in validators :: ReadChange(validators[v], future, past, e)
  }

  ghost function Stakes(validators: map<Address, Deltas>, future: nat, past: nat, e: Epoch): map<Address, nat> {
    map v | v in validators :: ReadStake(validators[v], future, past, e)
  }

  // ---- The invariant ----

  /** A handle that can be read: nothing is stored before its oldest epoch or after its write window. */
  ghost predicate Readable(future: nat, past: nat, now: Epoch, d: Deltas) {
    && Kept(d, past)
    && (d.oldest.Some? ==> d.oldest.value <= now)
    && (forall k | k in d.data :: d.lastUpdate.Some? && k <= d.lastUpdate.value + future && k <= now + future)
  }

  /** The epochs that no update so far can have trimmed away. */
  function Floor(future: nat, past: nat, now: Epoch): Epoch {
    Monus(now + future, past)
  }

  /** The epochs at which a handle's running sums are those of its whole history. */
  ghost predicate Retains(future: nat, past: nat, now: Epoch, d: Deltas, e: Epoch) {
    d.oldest.None? || d.oldest.value <= e || Floor(future, past, now) <= e
  }

  ghost function MadeBy(ops: seq<Op>, validators: set<Address>, e: Epoch): map<Address, int> {
    map v | v in validators :: Made(ops, v, e)
  }

  ghost predicate ValidatorOk(future: nat, past: nat, ops: seq<Op>, v: Address, d: Deltas) {
    && Readable(future, past, Now(ops), d)
    && d.lastUpdate.Some?
    && forall e | Retains(future, past, Now(ops), d, e) :: SumUpTo(d.data, e) == Made(ops, v, e)
  }

  ghost predicate TotalOk(future: nat, past: nat, ops: seq<Op>, d: Deltas) {
    && Readable(future, past, Now(ops), d)
    && forall e | Retains(future, past, Now(ops), d, e) :: SumUpTo(d.data, e) == MadeAll(ops, e)
  }

  ghost predicate Inv(future: nat, past: nat, ops: seq<Op>, s: State) {
    && s.now == Now(ops)
    && (forall v | v in s.validators :: ValidatorOk(future, past, ops, v, s.validators[v]))
    && TotalOk(future, past, ops, s.total)
    && (forall v, e | v !in s.validators :: Made(ops, v, e) == 0)
    && (forall e :: MadeAll(ops, e) == Sum<Address>(MadeBy(ops, s.validators.Keys, e)))
  }

  // ---- Updates keep handles readable ----

  ghost predicate OldestGrows(d: Deltas, after: Deltas) {
    after.oldest.Some? && (d.oldest.Some? ==> d.oldest.value <= after.oldest.value)
  }

  lemma UpdateReadable(future: nat, past: nat, now: Epoch, d: Deltas, delta: int, current: Epoch, offset: nat)
    requires 1 <= past && future <= past && Readable(future, past, now, d)
    requires now <= current && current + offset <= now + future && (d.lastUpdate.None? ==> current == now)
    ensures Readable(future, past, now, Update(d, past, delta, current, offset))
    ensures Update(d, past, delta, current, offset).lastUpdate == Some(current)
    ensures OldestGrows(d, Update(d, past, delta, current, offset))
  {
    hide Add, Trim, Update;
    UpdateIsAdd(d, past, delta, current, offset);
    AddStep(d, past, Addition(delta, current, offset));
    TrimKept(d, past, current);
    var after := Add(d, past, delta, current, offset);
    forall k | k in after.data ensures k <= current + future && k <= now + future {
      assert k in Trim(d, past, current).data || k == current + offset;
    }
  }

  lemma UpdateSum(future: nat, past: nat, now: Epoch, d: Deltas, delta: int, current: Epoch, offset: nat, e: Epoch)
    requires 1 <= past && Readable(future, past, now, d)
    requires now <= current && current + offset <= now + future
    requires Retains(future, past, now, Update(d, past, delta, current, offset), e)
    ensures SumUpTo(Update(d, past, delta, current, offset).data, e) ==
            SumUpTo(d.data, e) + if current + offset <= e then delta else 0
  {
    hide Trim, SumUpTo;
    UpdateIsAdd(d, past, delta, current, offset);
    if d.oldest.None? {
      EmptySum(e);
      FirstSum(past, Addition(delta, current, offset), e);
      OnlyEmpty(d, past);
    } else {
      TrimKept(d, past, current);
      AddSum(d, past, Addition(delta, current, offset), e);
    }
  }

  lemma OnlyEmpty(d: Deltas, past: nat)
    requires Kept(d, past) && d.oldest.None?
    ensures d == EMPTY
  {
  }

  lemma HasOldest(future: nat, past: nat, now: Epoch, d: Deltas)
    requires Readable(future, past, now, d) && d.lastUpdate.Some?
    ensures d.oldest.Some?
  {
  }

  lemma {:induction false} SlashReadable(future: nat, past: nat, now: Epoch, d: Deltas, amounts: map<Epoch, Amount>,
                                         rest: set<Epoch>, acc: Amount)
    requires 1 <= past && future <= past && Readable(future, past, now, d) && d.lastUpdate.Some?
    requires rest <= amounts.Keys && forall e | e in rest :: now <= e <= now + future
    ensures Readable(future, past, now, SlashFrom(d, past, amounts, rest, acc))
    ensures SlashFrom(d, past, amounts, rest, acc).lastUpdate.Some?
    ensures OldestGrows(d, SlashFrom(d, past, amounts, rest, acc))
    decreases rest
  {
    hide Readable, Update;
    if rest == {} {
      HasOldest(future, past, now, d);
    } else {
      var e := MinKey(rest);
      UpdateReadable(future, past, now, d, acc - amounts[e], e, 0);
      SlashReadable(future, past, now, Update(d, past, acc - amounts[e], e, 0), amounts, rest - {e}, amounts[e]);
    }
  }

  /** The differences telescope: an epoch loses exactly the amount at the latest slashed epoch not after it. */
  lemma {:induction false} SlashSum(future: nat, past: nat, now: Epoch, d: Deltas, amounts: map<Epoch, Amount>,
                                    rest: set<Epoch>, acc: Amount, e: Epoch)
    requires 1 <= past && future <= past && Readable(future, past, now, d) && d.lastUpdate.Some?
    requires rest <= amounts.Keys && forall k | k in rest :: now <= k <= now + future
    requires Retains(future, past, now, SlashFrom(d, past, amounts, rest, acc), e)
    ensures SumUpTo(SlashFrom(d, past, amounts, rest, acc).data, e) == SumUpTo(d.data, e) - TakenAt(amounts, rest, acc, e)
    decreases rest
  {
    hide Readable, Update, SumUpTo, TakenAt;
    if rest == {} {
      TakenNothing(amounts, rest, acc, e);
    } else {
      var k := MinKey(rest);
      var next := Update(d, past, acc - amounts[k], k, 0);
      UpdateReadable(future, past, now, d, acc - amounts[k], k, 0);
      SlashReadable(future, past, now, next, amounts, rest - {k}, amounts[k]);
      UpdateSum(future, past, now, d, acc - amounts[k], k, 0, e);
      SlashSum(future, past, now, next, amounts, rest - {k}, amounts[k], e);
      TakenNext(amounts, rest, acc, e);
    }
  }

  lemma TakenNothing(amounts: map<Epoch, Amount>, rest: set<Epoch>, acc: Amount, e: Epoch)
    requires rest <= amounts.Keys && forall k | k in rest :: e < k
    ensures TakenAt(amounts, rest, acc, e) == 0
  {
  }

  lemma TakenNext(amounts: map<Epoch, Amount>, rest: set<Epoch>, acc: Amount, e: Epoch)
    requires rest <= amounts.Keys && rest != {}
    ensures var k := MinKey(rest);
            TakenAt(amounts, rest, acc, e) ==
            (if k <= e then amounts[k] - acc else 0) + TakenAt(amounts, rest - {k}, amounts[k], e)
  {
    var k := MinKey(rest);
    var due := set j | j in rest && j <= e;
    var next := set j | j in rest - {k} && j <= e;
    if k <= e {
      assert due == next + {k};
      if next == {} {
        assert due == {k};
      } else {
        assert MaxKey(due) == MaxKey(next);
      }
    } else {
      assert due == {} && next == {};
    }
  }

  lemma TakenIsLatest(amounts: map<Epoch, Amount>, e: Epoch)
    ensures TakenAt(amounts, amounts.Keys, 0, e) == AmountAt(amounts, e)
  {
    assert (set k | k in amounts.Keys && k <= e) == E.UpTo(amounts, e);
  }

  lemma SlashedSum(future: nat, past: nat, now: Epoch, d: Deltas, amounts: map<Epoch, Amount>, e: Epoch)
    requires 1 <= past && future <= past && Readable(future, past, now, d) && d.lastUpdate.Some?
    requires forall k | k in amounts :: now <= k <= now + future
    requires Retains(future, past, now, Slashed(d, past, amounts), e)
    ensures SumUpTo(Slashed(d, past, amounts).data, e) == SumUpTo(d.data, e) - AmountAt(amounts, e)
  {
    hide SumUpTo, SlashFrom, TakenAt, AmountAt, Readable;
    SlashSum(future, past, now, d, amounts, amounts.Keys, 0, e);
    TakenIsLatest(amounts, e);
  }

  // ---- Every step keeps the invariant ----

  lemma MadeNext(ops: seq<Op>, op: Op)
    ensures Before(ops + [op]) == ops && Last(ops + [op]) == op
    ensures Now(ops + [op]) == Now(ops) + if op.NextEpoch? then 1 else 0
    ensures forall v, e :: Made(ops + [op], v, e) ==
              Made(ops, v, e) + if !op.NextEpoch? && op.validator == v then Effect(Now(ops), op, e) else 0
    ensures forall e :: MadeAll(ops + [op], e) == MadeAll(ops, e) + Effect(Now(ops), op, e)
  {
    hide Effect;
    assert (ops + [op])[..|ops|] == ops;
  }

  /** The effect of an operation on one validator is its effect on the sum of all. */
  lemma MadeBySum(ops: seq<Op>, op: Op, before: set<Address>, after: set<Address>, e: Epoch)
    requires forall v | v !in before :: Made(ops, v, e) == 0
    requires if op.NextEpoch? then after == before else after == before + {op.validator}
    ensures Sum<Address>(MadeBy(ops + [op], after, e)) == Sum<Address>(MadeBy(ops, before, e)) + Effect(Now(ops), op, e)
  {
    hide Effect, Made;
    MadeNext(ops, op);
    if op.NextEpoch? {
      assert MadeBy(ops + [op], after, e) == MadeBy(ops, before, e);
      NoEffect(Now(ops), op, e);
    } else {
      var v := op.validator;
      SumUpdate<Address>(MadeBy(ops, before, e), v, Made(ops + [op], v, e));
      assert MadeBy(ops + [op], after, e) == MadeBy(ops, before, e)[v := Made(ops + [op], v, e)];
    }
  }

  lemma NoEffect(now: Epoch, op: Op, e: Epoch)
    requires op.NextEpoch? || op.Become?
    ensures Effect(now, op, e) == 0
  {
  }

  /** A validator that the operation does not touch. */
  lemma OtherOk(future: nat, past: nat, ops: seq<Op>, op: Op, v: Address, d: Deltas)
    requires ValidatorOk(future, past, ops, v, d) && (op.NextEpoch? || op.validator != v)
    ensures ValidatorOk(future, past, ops + [op], v, d)
  {
    hide Effect, SumUpTo, Made, Kept;
    MadeNext(ops, op);
  }

  /** A handle after one update with the effect of the operation. */
  lemma EffectOk(future: nat, past: nat, s: State, op: Op, d: Deltas)
    requires 1 <= past && future <= past && Enabled(future, s, op) && (op.Change? || op.SlashStakes?)
    requires Readable(future, past, s.now, d) && (op.SlashStakes? ==> d.lastUpdate.Some?)
    ensures var after := if op.Change? then Update(d, past, op.delta, s.now, op.offset) else Slashed(d, past, op.amounts);
            && Readable(future, past, s.now, after)
            && after.lastUpdate.Some?
            && OldestGrows(d, after)
            && forall e | Retains(future, past, s.now, after, e) ::
                 SumUpTo(after.data, e) == SumUpTo(d.data, e) + Effect(s.now, op, e)
  {
    hide SumUpTo, Readable, Update, SlashFrom, AmountAt;
    if op.Change? {
      UpdateReadable(future, past, s.now, d, op.delta, s.now, op.offset);
      var after := Update(d, past, op.delta, s.now, op.offset);
      forall e | Retains(future, past, s.now, after, e)
        ensures SumUpTo(after.data, e) == SumUpTo(d.data, e) + Effect(s.now, op, e)
      {
        UpdateSum(future, past, s.now, d, op.delta, s.now, op.offset, e);
      }
    } else {
      SlashReadable(future, past, s.now, d, op.amounts, op.amounts.Keys, 0);
      var after := Slashed(d, past, op.amounts);
      forall e | Retains(future, past, s.now, after, e)
        ensures SumUpTo(after.data, e) == SumUpTo(d.data, e) + Effect(s.now, op, e)
      {
        SlashedSum(future, past, s.now, d, op.amounts, e);
      }
    }
  }

  lemma ChangedOk(future: nat, past: nat, ops: seq<Op>, s: State, op: Op)
    requires 1 <= past && future <= past && Enabled(future, s, op) && (op.Change? || op.SlashStakes?)
    requires s.now == Now(ops) && TotalOk(future, past, ops, s.total)
    requires ValidatorOk(future, past, ops, op.validator, s.validators[op.validator])
    ensures var after := Step(future, past, s, op);
            && TotalOk(future, past, ops + [op], after.total)
            && ValidatorOk(future, past, ops + [op], op.validator, after.validators[op.validator])
  {
    hide SumUpTo, Readable, Update, Slashed, Effect, Made, MadeAll;
    MadeNext(ops, op);
    EffectOk(future, past, s, op, s.total);
    EffectOk(future, past, s, op, s.validators[op.validator]);
  }

  lemma BecomeOk(future: nat, past: nat, ops: seq<Op>, s: State, op: Op)
    requires Enabled(future, s, op) && op.Become?
    requires s.now == Now(ops) && TotalOk(future, past, ops, s.total)
    requires forall e :: Made(ops, op.validator, e) == 0
    ensures var after := Step(future, past, s, op);
            && TotalOk(future, past, ops + [op], after.total)
            && ValidatorOk(future, past, ops + [op], op.validator, after.validators[op.validator])
  {
    hide SumUpTo, Made, MadeAll;
    MadeNext(ops, op);
    forall e ensures SumUpTo(Set(EMPTY, past, 0, s.now, op.offset).data, e) == 0 {
      FirstSum(past, Addition(0, s.now, op.offset), e);
    }
  }

  lemma EpochOk(future: nat, past: nat, ops: seq<Op>, s: State, op: Op)
    requires op.NextEpoch? && s.now == Now(ops) && TotalOk(future, past, ops, s.total)
    ensures TotalOk(future, past, ops + [op], s.total)
  {
    hide SumUpTo, MadeAll, Kept;
    MadeNext(ops, op);
  }

  lemma StepInv(future: nat, past: nat, ops: seq<Op>, s: State, op: Op)
    requires 1 <= past && future <= past && Inv(future, past, ops, s) && Enabled(future, s, op)
    ensures Inv(future, past, ops + [op], Step(future, past, s, op))
  {
    var after := Step(future, past, s, op);
    hide ValidatorOk, TotalOk, Update, Slashed, Made, MadeAll, Effect, Set;
    MadeNext(ops, op);
    if op.NextEpoch? {
      EpochOk(future, past, ops, s, op);
    } else if op.Become? {
      BecomeOk(future, past, ops, s, op);
    } else {
      ChangedOk(future, past, ops, s, op);
    }
    forall v | v in after.validators ensures ValidatorOk(future, past, ops + [op], v, after.validators[v]) {
      if op.NextEpoch? || op.validator != v {
        OtherOk(future, past, ops, op, v, s.validators[v]);
      }
    }
    forall e ensures MadeAll(ops + [op], e) == Sum<Address>(MadeBy(ops + [op], after.validators.Keys, e)) {
      MadeBySum(ops, op, s.validators.Keys, after.validators.Keys, e);
    }
  }

  lemma InitialInv(future: nat, past: nat)
    ensures Inv(future, past, [], INITIAL)
  {
    forall e ensures SumUpTo(INITIAL.total.data, e) == 0 && MadeBy([], {}, e) == map[] {
      EmptySum(e);
    }
  }

  lemma {:induction false} RunInv(future: nat, past: nat, ops: seq<Op>)
    requires 1 <= past && future <= past && Legal(future, past, ops)
    ensures Inv(future, past, ops, After(future, past, ops))
    decreases |ops|
  {
    hide Inv, Step, Enabled;
    if ops == [] {
      InitialInv(future, past);
    } else {
      RunInv(future, past, Before(ops));
      StepInv(future, past, Before(ops), After(future, past, Before(ops)), Last(ops));
      assert Before(ops) + [Last(ops)] == ops;
    }
  }

  // ---- What the invariant says about reads ----

  lemma ReadIsRunningSum(future: nat, past: nat, now: Epoch, d: Deltas, e: Epoch)
    requires Readable(future, past, now, d)
    ensures ReadChange(d, future, past, e) == SumUpTo(d.data, e)
  {
    hide SumBetween, ReadSum;
    if d.lastUpdate.Some? {
      ReadIsSum(d, future, past, e);
      var end := d.lastUpdate.value + future;
      if end < e {
        SumSettles(d.data, end, e);
      }
    } else {
      EmptySum(e);
      ReadNothing(d, future, past, e);
    }
  }

  lemma ReadNothing(d: Deltas, future: nat, past: nat, e: Epoch)
    requires d.lastUpdate.None?
    ensures ReadSum(d, future, past, e) == None
  {
  }

  /** In every reachable state the change read for a validator is everything the run ever changed in it up to that epoch:
      trimming is invisible at every epoch the handle retains. */
  lemma StakeIsHistory(future: nat, past: nat, ops: seq<Op>, v: Address, e: Epoch)
    requires 1 <= past && future <= past && Legal(future, past, ops)
    requires v in After(future, past, ops).validators
    requires Retains(future, past, Now(ops), After(future, past, ops).validators[v], e)
    ensures ReadChange(After(future, past, ops).validators[v], future, past, e) == Made(ops, v, e)
  {
    hide ReadChange, SumUpTo, Readable, Made;
    RunInv(future, past, ops);
    ReadIsRunningSum(future, past, Now(ops), After(future, past, ops).validators[v], e);
  }

  ghost predicate AllRetain(future: nat, past: nat, s: State, e: Epoch) {
    && Retains(future, past, s.now, s.total, e)
    && forall v | v in s.validators :: Retains(future, past, s.now, s.validators[v], e)
  }

  /** In every reachable state, at every epoch that all handles retain, the total change is the sum of the validators'; so is
      the total stake, as long as no validator's change is negative there. */
  lemma TotalIsSum(future: nat, past: nat, ops: seq<Op>, e: Epoch)
    requires 1 <= past && future <= past && Legal(future, past, ops)
    requires AllRetain(future, past, After(future, past, ops), e)
    ensures var s := After(future, past, ops);
            && ReadChange(s.total, future, past, e) == Sum<Address>(Changes(s.validators, future, past, e))
            && ((forall v | v in s.validators :: ReadChange(s.validators[v], future, past, e) >= 0) ==>
                  ReadStake(s.total, future, past, e) == Tally<Address>(Stakes(s.validators, future, past, e)))
  {
    hide ReadChange, SumUpTo, Readable, Made, MadeAll;
    var s := After(future, past, ops);
    RunInv(future, past, ops);
    ReadIsRunningSum(future, past, s.now, s.total, e);
    forall v | v in s.validators ensures ReadChange(s.validators[v], future, past, e) == Made(ops, v, e) {
      StakeIsHistory(future, past, ops, v, e);
    }
    assert Changes(s.validators, future, past, e) == MadeBy(ops, s.validators.Keys, e);
    if forall v | v in s.validators :: ReadChange(s.validators[v], future, past, e) >= 0 {
      assert Stakes(s.validators, future, past, e) == Changes(s.validators, future, past, e);
      SumNonNegative<Address>(Changes(s.validators, future, past, e));
    }
  }

  /** The current epoch and every later one is retained by every handle. */
  lemma {:induction false} CurrentRetained(future: nat, past: nat, ops: seq<Op>, e: Epoch)
    requires 1 <= past && future <= past && Legal(future, past, ops) && Now(ops) <= e
    ensures AllRetain(future, past, After(future, past, ops), e)
  {
    hide SumUpTo, Made, MadeAll, Step, After, Legal;
    RunInv(future, past, ops);
  }

  /** A slash takes from the validator's stake at each epoch exactly the amount that applies there. */
  lemma SlashTakesAmount(future: nat, past: nat, ops: seq<Op>, op: Op, e: Epoch)
    requires 1 <= past && future <= past && Legal(future, past, ops) && op.SlashStakes?
    requires Enabled(future, After(future, past, ops), op) && Now(ops) <= e
    ensures var s := After(future, past, ops);
            ReadChange(Step(future, past, s, op).validators[op.validator], future, past, e) ==
            ReadChange(s.validators[op.validator], future, past, e) - AmountAt(op.amounts, e)
  {
    hide ReadChange, SumUpTo, AmountAt, SlashFrom, Made, MadeAll, Legal, After;
    RunInv(future, past, ops);
    var s, v := After(future, past, ops), op.validator;
    SlashReadable(future, past, s.now, s.validators[v], op.amounts, op.amounts.Keys, 0);
    SlashedSum(future, past, s.now, s.validators[v], op.amounts, e);
    ReadIsRunningSum(future, past, s.now, s.validators[v], e);
    ReadIsRunningSum(future, past, s.now, Slashed(s.validators[v], past, op.amounts), e);
  }

  /** The windows of the validator and total deltas, for parameters that pass validation, are large enough. */
  lemma WindowsSuffice(params: Params, maxProposalPeriod: nat)
    requires params.pipelineLen < params.unbondingLen
    ensures var past := Max(params.SlashProcessingEpochOffset(), maxProposalPeriod) + 2;
            && 1 <= past && params.pipelineLen <= past
            && forall now: Epoch :: Floor(params.pipelineLen, past, now) <= now
  {
  }

  // ---- The storage functions ----

  method UpdateDeltas(handle: Store, delta: int, current: Epoch, offset: nat)
    modifies handle
    ensures handle.Value() == Update(old(handle.Value()), handle.past, delta, current, offset)
  {
    var val := GetInt(handle.data, current + offset);
    handle.SetDelta(val + delta, current, offset);
  }

  /** The loop of `process_slashes` over a validator's slashed amounts, in epoch order. */
  method SlashDeltas(validator: Store, total: Store, amounts: map<Epoch, Amount>)
    requires validator != total && validator.past == total.past
    modifies validator, total
    ensures validator.Value() == Slashed(old(validator.Value()), validator.past, amounts)
    ensures total.Value() == Slashed(old(total.Value()), total.past, amounts)
  {
    hide Update;
    var acc: Amount := 0;
    var rest := amounts.Keys;
    while rest != {}
      invariant rest <= amounts.Keys
      invariant SlashFrom(validator.Value(), validator.past, amounts, rest, acc) ==
                Slashed(old(validator.Value()), validator.past, amounts)
      invariant SlashFrom(total.Value(), total.past, amounts, rest, acc) ==
                Slashed(old(total.Value()), total.past, amounts)
      decreases rest
    {
      var e := MinKey(rest);
      var delta: int := amounts[e] - acc;
      acc := amounts[e];
      UpdateDeltas(validator, -delta, e, 0);
      UpdateDeltas(total, -delta, e, 0);
      rest := rest - {e};
    }
  }
}
