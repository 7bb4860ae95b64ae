/** When slashes are recorded: evidence is enqueued for a fixed number of epochs after the infraction
    and processed at the start of that epoch. */
module SlashTiming {
  import opened Types
  import opened Parameters
  import opened FiniteSums
  import opened Slashing
  import opened UnbondSlashing

  /** An infraction with the least rate for its kind. */
  datatype Evidence = Evidence(validator: Address, infraction: Epoch, minRate: nat)

  /** `log` is the history of all evidence that was accepted. */
  datatype State = State(
    epoch: Epoch,
    enqueued: map<Epoch, seq<Evidence>>,
    recorded: map<Address, seq<Slash>>,
    log: seq<Evidence>)

  const GENESIS := State(0, map[], map[], [])

  function EnqueuedAt(enqueued: map<Epoch, seq<Evidence>>, e: Epoch): seq<Evidence> {
    if e in enqueued then enqueued[e] else []
  }

  /** Evidence is of the past and not outdated: within the unbonding length of the infraction. */
  predicate Accepts(p: Params, s: State, ev: Evidence) {
    && ev.infraction <= s.epoch
    && s.epoch < ev.infraction + p.SlashProcessingEpochOffset() - p.cubicSlashingWindowLength
  }

  /** `slash`: enqueue for the processing epoch. */
  function Enqueue(p: Params, s: State, ev: Evidence): State {
    var e := ev.infraction + p.SlashProcessingEpochOffset();
    s.(enqueued := s.enqueued[e := EnqueuedAt(s.enqueued, e) + [ev]], log := s.log + [ev])
  }

  /** The final rate of a slash, never above one. */
  function FinalRate(minRate: nat, cubicRate: nat): nat {
    Min(DEC_ONE, Max(minRate, cubicRate))
  }

  /** Push the slashes of one epoch onto their validators' lists. */
  function Push(recorded: map<Address, seq<Slash>>, evs: seq<Evidence>, cubicRate: nat): map<Address, seq<Slash>> {
    if evs == [] then recorded
    else
      var n := |evs| - 1;
      var before := Push(recorded, evs[..n], cubicRate);
      var ev := evs[n];
      before[ev.validator := SlashesOf(before, ev.validator) + [Slash(ev.infraction, FinalRate(ev.minRate, cubicRate))]]
  }

  /** A new epoch starts with `process_slashes`. */
  function NewEpoch(s: State, cubicRate: nat): State {
    var e := s.epoch + 1;
    s.(epoch := e, recorded := Push(s.recorded, EnqueuedAt(s.enqueued, e), cubicRate))
  }

  datatype Op = Report(ev: Evidence) | Start(cubicRate: nat)

  function Step(p: Params, s: State, op: Op): State {
    match op
    case Report(ev) => if Accepts(p, s, ev) then Enqueue(p, s, ev) else s
    case Start(cubicRate) => NewEpoch(s, cubicRate)
  }

  function Run(p: Params, s: State, ops: seq<Op>): State {
    if ops == [] then s else Step(p, Run(p, s, ops[..|ops| - 1]), ops[|ops| - 1])
  }

  // ---- Counting ----

  function CountEvidence(evs: seq<Evidence>, v: Address, i: Epoch): nat {
    if evs == [] then 0
    else
      var ev := evs[|evs| - 1];
      CountEvidence(evs[..|evs| - 1], v, i) + if ev.validator == v && ev.infraction == i then 1 else 0
  }

  function CountSlashes(slashes: seq<Slash>, i: Epoch): nat {
    if slashes == [] then 0
    else CountSlashes(slashes[..|slashes| - 1], i) + if slashes[|slashes| - 1].epoch == i then 1 else 0
  }

  /** All accepted evidence is enqueued under its processing epoch, and nothing else. */
  ghost predicate Filed(p: Params, s: State) {
    forall v: Address, i: Epoch ::
      CountEvidence(EnqueuedAt(s.enqueued, i + p.SlashProcessingEpochOffset()), v, i) == CountEvidence(s.log, v, i)
  }

  ghost predicate FiledAt(p: Params, evs: seq<Evidence>, e: Epoch) {
    forall k | 0 <= k < |evs| :: evs[k].infraction + p.SlashProcessingEpochOffset() == e
  }

  /** The slashes of an infraction epoch are recorded exactly once it is processed, each as often as
      its evidence was accepted. */
  ghost predicate Processed(p: Params, s: State) {
    forall v: Address, i: Epoch ::
      CountSlashes(SlashesOf(s.recorded, v), i) ==
        if i + p.SlashProcessingEpochOffset() <= s.epoch then CountEvidence(s.log, v, i) else 0
  }

  ghost predicate Recorded(p: Params, s: State) {
    Filed(p, s) && Processed(p, s) && forall e: Epoch :: FiledAt(p, EnqueuedAt(s.enqueued, e), e)
  }

  lemma CountOne(evs: seq<Evidence>, ev: Evidence, v: Address, i: Epoch)
    ensures CountEvidence(evs + [ev], v, i) == CountEvidence(evs, v, i) + if ev.validator == v && ev.infraction == i then 1 else 0
  {
    assert (evs + [ev])[..|evs|] == evs;
  }

  lemma CountOneSlash(slashes: seq<Slash>, s: Slash, i: Epoch)
    ensures CountSlashes(slashes + [s], i) == CountSlashes(slashes, i) + if s.epoch == i then 1 else 0
  {
    assert (slashes + [s])[..|slashes|] == slashes;
  }

  lemma {:induction false} PushCounts(recorded: map<Address, seq<Slash>>, evs: seq<Evidence>, cubicRate: nat,
                                      v: Address, i: Epoch)
    ensures CountSlashes(SlashesOf(Push(recorded, evs, cubicRate), v), i)
         == CountSlashes(SlashesOf(recorded, v), i) + CountEvidence(evs, v, i)
  {
    if evs != [] {
      var n := |evs| - 1;
      PushCounts(recorded, evs[..n], cubicRate, v, i);
      var ev, before := evs[n], Push(recorded, evs[..n], cubicRate);
      CountOneSlash(SlashesOf(before, ev.validator), Slash(ev.infraction, FinalRate(ev.minRate, cubicRate)), i);
    }
  }

  lemma {:induction false} NotCounted(evs: seq<Evidence>, v: Address, i: Epoch)
    requires forall k | 0 <= k < |evs| :: evs[k].infraction != i
    ensures CountEvidence(evs, v, i) == 0
  {
    if evs != [] {
      NotCounted(evs[..|evs| - 1], v, i);
    }
  }

  lemma NewEpochRecorded(p: Params, s: State, cubicRate: nat)
    requires Recorded(p, s)
    ensures Recorded(p, NewEpoch(s, cubicRate))
  {
    hide CountEvidence, CountSlashes, Push;
    var s', e, off := NewEpoch(s, cubicRate), s.epoch + 1, p.SlashProcessingEpochOffset();
    forall v: Address, i: Epoch
      ensures CountSlashes(SlashesOf(s'.recorded, v), i) == if i + off <= e then CountEvidence(s.log, v, i) else 0
    {
      PushCounts(s.recorded, EnqueuedAt(s.enqueued, e), cubicRate, v, i);
      OnlyTheProcessed(p, s, v, i);
      assert CountSlashes(SlashesOf(s.recorded, v), i) == if i + off <= s.epoch then CountEvidence(s.log, v, i) else 0;
    }
  }

  lemma OnlyTheProcessed(p: Params, s: State, v: Address, i: Epoch)
    requires Recorded(p, s)
    ensures CountEvidence(EnqueuedAt(s.enqueued, s.epoch + 1), v, i)
         == if i + p.SlashProcessingEpochOffset() == s.epoch + 1 then CountEvidence(s.log, v, i) else 0
  {
    var e, off := s.epoch + 1, p.SlashProcessingEpochOffset();
    var evs := EnqueuedAt(s.enqueued, e);
    assert FiledAt(p, evs, e);
    if i + off != e {
      NotCounted(evs, v, i);
    }
  }

  lemma EnqueueRecorded(p: Params, s: State, ev: Evidence)
    requires Recorded(p, s) && Accepts(p, s, ev)
    ensures Recorded(p, Enqueue(p, s, ev))
  {
    hide CountEvidence, CountSlashes;
    EnqueueFiled(p, s, ev);
    var s', off := Enqueue(p, s, ev), p.SlashProcessingEpochOffset();
    forall v: Address, i: Epoch
      ensures CountSlashes(SlashesOf(s'.recorded, v), i) == if i + off <= s.epoch then CountEvidence(s'.log, v, i) else 0
    {
      CountOne(s.log, ev, v, i);
      assert CountSlashes(SlashesOf(s.recorded, v), i) == if i + off <= s.epoch then CountEvidence(s.log, v, i) else 0;
    }
    forall e: Epoch ensures FiledAt(p, EnqueuedAt(s'.enqueued, e), e) {
      assert FiledAt(p, EnqueuedAt(s.enqueued, e), e);
    }
  }

  lemma EnqueueFiled(p: Params, s: State, ev: Evidence)
    requires Filed(p, s)
    ensures Filed(p, Enqueue(p, s, ev))
  {
    hide CountEvidence;
    var s', off := Enqueue(p, s, ev), p.SlashProcessingEpochOffset();
    forall v: Address, i: Epoch
      ensures CountEvidence(EnqueuedAt(s'.enqueued, i + off), v, i) == CountEvidence(s'.log, v, i)
    {
      CountOne(s.log, ev, v, i);
      CountOne(EnqueuedAt(s.enqueued, ev.infraction + off), ev, v, i);
      assert CountEvidence(EnqueuedAt(s.enqueued, i + off), v, i) == CountEvidence(s.log, v, i);
    }
  }

  lemma StepRecorded(p: Params, s: State, op: Op)
    requires Recorded(p, s)
    ensures Recorded(p, Step(p, s, op))
  {
    hide Recorded, Enqueue, NewEpoch;
    match op
    case Report(ev) => if Accepts(p, s, ev) { EnqueueRecorded(p, s, ev); }
    case Start(cubicRate) => NewEpochRecorded(p, s, cubicRate);
  }

  /** Over every run, what is recorded of each validator is exactly its accepted evidence whose
      processing epoch has started. */
  lemma {:induction false} RunRecorded(p: Params, ops: seq<Op>)
    ensures Recorded(p, Run(p, GENESIS, ops))
  {
    if ops != [] {
      RunRecorded(p, ops[..|ops| - 1]);
      StepRecorded(p, Run(p, GENESIS, ops[..|ops| - 1]), ops[|ops| - 1]);
    }
  }

  // ---- Rates ----

  ghost predicate RatesOk(recorded: map<Address, seq<Slash>>) {
    forall v: Address, k | 0 <= k < |SlashesOf(recorded, v)| :: SlashesOf(recorded, v)[k].rate <= DEC_ONE
  }

  lemma {:induction false} PushRates(recorded: map<Address, seq<Slash>>, evs: seq<Evidence>, cubicRate: nat)
    requires RatesOk(recorded)
    ensures RatesOk(Push(recorded, evs, cubicRate))
  {
    if evs != [] {
      var before, ev := Push(recorded, evs[..|evs| - 1], cubicRate), evs[|evs| - 1];
      PushRates(recorded, evs[..|evs| - 1], cubicRate);
      var after := Push(recorded, evs, cubicRate);
      forall v: Address, k | 0 <= k < |SlashesOf(after, v)| ensures SlashesOf(after, v)[k].rate <= DEC_ONE {
        assert v != ev.validator ==> SlashesOf(after, v) == SlashesOf(before, v);
        assert k < |SlashesOf(before, v)| ==> SlashesOf(after, v)[k] == SlashesOf(before, v)[k];
      }
    }
  }

  /** Over every run, no recorded slash takes more than everything. */
  lemma {:induction false} RunRates(p: Params, ops: seq<Op>)
    ensures RatesOk(Run(p, GENESIS, ops).recorded)
  {
    hide RatesOk, Push;
    if ops == [] {
      NoRates();
    } else {
      RunRates(p, ops[..|ops| - 1]);
      var s := Run(p, GENESIS, ops[..|ops| - 1]);
      if ops[|ops| - 1].Start? {
        PushRates(s.recorded, EnqueuedAt(s.enqueued, s.epoch + 1), ops[|ops| - 1].cubicRate);
      }
    }
  }

  lemma NoRates()
    ensures RatesOk(map[])
  {
  }

  /** The rates with which the epochs so far were started. */
  function CubicRates(ops: seq<Op>): seq<nat> {
    if ops == [] then []
    else CubicRates(ops[..|ops| - 1]) + if ops[|ops| - 1].Start? then [ops[|ops| - 1].cubicRate] else []
  }

  /** At least the least rate for the kind of infraction and at least the cubic rate, as far as one goes, and no more. */
  predicate RateFor(rate: nat, least: nat, cubic: nat) {
    Min(least, DEC_ONE) <= rate && Min(cubic, DEC_ONE) <= rate && rate <= DEC_ONE && (rate <= least || rate <= cubic)
  }

  ghost predicate RateFrom(evs: seq<Evidence>, v: Address, x: Slash, cubic: nat) {
    exists ev :: ev in evs && ev.validator == v && ev.infraction == x.epoch && RateFor(x.rate, ev.minRate, cubic)
  }

  lemma {:induction false} PushFrom(recorded: map<Address, seq<Slash>>, evs: seq<Evidence>, cubicRate: nat, v: Address,
                                    x: Slash)
    requires x in SlashesOf(Push(recorded, evs, cubicRate), v)
    ensures x in SlashesOf(recorded, v) || RateFrom(evs, v, x, cubicRate)
    decreases |evs|
  {
    if evs != [] {
      var n := |evs| - 1;
      var before := Push(recorded, evs[..n], cubicRate);
      assert evs[n] in evs;
      if x in SlashesOf(before, v) {
        PushFrom(recorded, evs[..n], cubicRate, v, x);
      } else {
        assert RateFor(x.rate, evs[n].minRate, cubicRate);
      }
    }
  }

  /** The slash has the rate of some accepted evidence and of the epoch in which it was processed. */
  ghost predicate Justified(p: Params, rates: seq<nat>, log: seq<Evidence>, v: Address, x: Slash) {
    && x.epoch + p.SlashProcessingEpochOffset() <= |rates|
    && RateFrom(log, v, x, rates[x.epoch + p.SlashProcessingEpochOffset() - 1])
  }

  ghost predicate AllJustified(p: Params, rates: seq<nat>, s: State) {
    && |rates| == s.epoch
    && (forall e: Epoch, ev | ev in EnqueuedAt(s.enqueued, e) :: ev in s.log)
    && (forall v: Address, x | x in SlashesOf(s.recorded, v) :: Justified(p, rates, s.log, v, x))
  }

  lemma JustifiedMore(p: Params, rates: seq<nat>, log: seq<Evidence>, rates': seq<nat>, log': seq<Evidence>, v: Address,
                      x: Slash)
    requires Justified(p, rates, log, v, x) && rates <= rates' && log <= log'
    ensures Justified(p, rates', log', v, x)
  {
    var ev :| ev in log && ev.validator == v && ev.infraction == x.epoch
              && RateFor(x.rate, ev.minRate, rates[x.epoch + p.SlashProcessingEpochOffset() - 1]);
    assert ev in log';
  }

  lemma StartJustified(p: Params, rates: seq<nat>, s: State, cubicRate: nat, v: Address, x: Slash)
    requires Recorded(p, s) && AllJustified(p, rates, s) && x in SlashesOf(NewEpoch(s, cubicRate).recorded, v)
    ensures Justified(p, rates + [cubicRate], s.log, v, x)
  {
    hide Push, Filed, Processed, RateFor;
    var e := s.epoch + 1;
    var evs := EnqueuedAt(s.enqueued, e);
    PushFrom(s.recorded, evs, cubicRate, v, x);
    if x in SlashesOf(s.recorded, v) {
      JustifiedMore(p, rates, s.log, rates + [cubicRate], s.log, v, x);
    } else {
      var ev :| ev in evs && ev.validator == v && ev.infraction == x.epoch && RateFor(x.rate, ev.minRate, cubicRate);
      assert FiledAt(p, evs, e);
      assert ev in s.log;
    }
  }

  lemma StepJustified(p: Params, rates: seq<nat>, s: State, op: Op)
    requires Recorded(p, s) && AllJustified(p, rates, s)
    ensures AllJustified(p, rates + (if op.Start? then [op.cubicRate] else []), Step(p, s, op))
  {
    hide Recorded, Justified, Push;
    match op
    case Report(ev) =>
      assert rates + [] == rates;
      if Accepts(p, s, ev) {
        var s' := Enqueue(p, s, ev);
        forall e: Epoch, x | x in EnqueuedAt(s'.enqueued, e) ensures x in s'.log {
          assert x in EnqueuedAt(s.enqueued, e) ==> x in s.log;
        }
        forall v: Address, x | x in SlashesOf(s'.recorded, v) ensures Justified(p, rates, s'.log, v, x) {
          JustifiedMore(p, rates, s.log, rates, s'.log, v, x);
        }
      }
    case Start(cubicRate) =>
      var s' := NewEpoch(s, cubicRate);
      forall v: Address, x | x in SlashesOf(s'.recorded, v) ensures Justified(p, rates + [cubicRate], s'.log, v, x) {
        StartJustified(p, rates, s, cubicRate, v, x);
      }
  }

  /** Over every run, each recorded slash has at least the least rate of its kind and the cubic rate with which it was
      processed, or takes everything, and no greater rate. */
  lemma {:induction false} RunJustified(p: Params, ops: seq<Op>)
    ensures AllJustified(p, CubicRates(ops), Run(p, GENESIS, ops))
    decreases |ops|
  {
    hide Step, Recorded, Justified;
    if ops != [] {
      hide AllJustified;
      RunJustified(p, ops[..|ops| - 1]);
      RunRecorded(p, ops[..|ops| - 1]);
      StepJustified(p, CubicRates(ops[..|ops| - 1]), Run(p, GENESIS, ops[..|ops| - 1]), ops[|ops| - 1]);
    }
  }

  // ---- No early exit ----

  lemma {:induction false} CountSelect(p: Params, f: Filter, slashes: seq<Slash>, i: Epoch)
    ensures CountSlashes(Select(p, f, slashes), i) == if Keeps(p, f, i) then CountSlashes(slashes, i) else 0
  {
    if slashes != [] {
      var n := |slashes| - 1;
      CountSelect(p, f, slashes[..n], i);
      if Keeps(p, f, slashes[n].epoch) {
        CountOneSlash(Select(p, f, slashes[..n]), slashes[n], i);
      } else {
        assert Select(p, f, slashes) == Select(p, f, slashes[..n]);
      }
    }
  }

  lemma {:induction false} EpochsOnlyGrow(p: Params, s: State, more: seq<Op>)
    ensures s.epoch <= Run(p, s, more).epoch
  {
    if more != [] {
      EpochsOnlyGrow(p, s, more[..|more| - 1]);
    }
  }

  /** Once an unbond made in epoch `unbonded` can be withdrawn, no evidence of an infraction committed
      while it contributed to stake is accepted any more. */
  lemma {:induction false} EvidenceIsComplete(p: Params, s: State, more: seq<Op>, unbonded: Epoch, v: Address, i: Epoch)
    requires unbonded + p.WithdrawableEpochOffset() <= s.epoch
    requires i < unbonded + p.pipelineLen
    ensures CountEvidence(Run(p, s, more).log, v, i) == CountEvidence(s.log, v, i)
  {
    if more != [] {
      var before, op := Run(p, s, more[..|more| - 1]), more[|more| - 1];
      EvidenceIsComplete(p, s, more[..|more| - 1], unbonded, v, i);
      EpochsOnlyGrow(p, s, more[..|more| - 1]);
      if op.Report? && Accepts(p, before, op.ev) {
        CountOne(before.log, op.ev, v, i);
      }
    }
  }

  /** In every run, when an unbond made in epoch `unbonded` of a bond from `start` can be withdrawn, the
      slashes that the withdrawal selects are exactly those of the accepted infractions committed
      while the bond contributed to stake, and no later evidence changes that. */
  lemma NoEarlyExit(p: Params, ops: seq<Op>, more: seq<Op>, unbonded: Epoch, start: Epoch, v: Address, i: Epoch)
    requires unbonded + p.WithdrawableEpochOffset() <= Run(p, GENESIS, ops).epoch
    ensures var s := Run(p, GENESIS, ops);
            var filter := WithdrawFilter(p, start, unbonded + p.WithdrawableEpochOffset());
            CountSlashes(Select(p, filter, SlashesOf(s.recorded, v)), i) ==
              if start <= i < unbonded + p.pipelineLen then CountEvidence(Run(p, s, more).log, v, i) else 0
  {
    hide Run, CountSlashes, CountEvidence, Select;
    var s := Run(p, GENESIS, ops);
    var filter := WithdrawFilter(p, start, unbonded + p.WithdrawableEpochOffset());
    assert filter == Within(start, unbonded + p.pipelineLen);
    CountSelect(p, filter, SlashesOf(s.recorded, v), i);
    if i < unbonded + p.pipelineLen {
      EvidenceIsComplete(p, s, more, unbonded, v, i);
    }
    RunRecorded(p, ops);
    assert CountSlashes(SlashesOf(s.recorded, v), i) ==
      if i + p.SlashProcessingEpochOffset() <= s.epoch then CountEvidence(s.log, v, i) else 0;
  }

  lemma {:induction false} LogOnlyGrows(p: Params, s: State, more: seq<Op>, v: Address, i: Epoch)
    ensures CountEvidence(s.log, v, i) <= CountEvidence(Run(p, s, more).log, v, i)
    decreases |more|
  {
    if more != [] {
      LogOnlyGrows(p, s, more[..|more| - 1], v, i);
      var before, op := Run(p, s, more[..|more| - 1]), more[|more| - 1];
      if op.Report? {
        CountOne(before.log, op.ev, v, i);
      }
    }
  }

  /** Over every run: evidence of an infraction that is reported within the unbonding length of it, and only then, is one more
      slash by the start of its processing epoch. */
  lemma EvidenceIsPunished(p: Params, ops: seq<Op>, ev: Evidence, more: seq<Op>)
    ensures var s := Run(p, GENESIS, ops);
            var reported := Step(p, s, Report(ev));
            var later := Run(p, reported, more);
            if ev.infraction <= s.epoch <= ev.infraction + p.unbondingLen
            then ev.infraction + p.SlashProcessingEpochOffset() <= later.epoch ==>
                   CountSlashes(SlashesOf(later.recorded, ev.validator), ev.infraction) > CountEvidence(s.log, ev.validator, ev.infraction)
            else reported == s
  {
    hide Run, CountEvidence, CountSlashes, Filed, FiledAt, NewEpoch;
    var s := Run(p, GENESIS, ops);
    var reported := Step(p, s, Report(ev));
    var v, i := ev.validator, ev.infraction;
    RunRecorded(p, ops);
    StepRecorded(p, s, Report(ev));
    RecordedGrows(p, reported, more, v);
    LogOnlyGrows(p, reported, more, v, i);
    CountOne(s.log, ev, v, i);
    var later := Run(p, reported, more);
    assert CountSlashes(SlashesOf(later.recorded, v), i) ==
           if i + p.SlashProcessingEpochOffset() <= later.epoch then CountEvidence(later.log, v, i) else 0;
  }

  // ---- Exactly once ----

  /** The list grew, and what was added was processed after `from` and by `to`. */
  ghost predicate GrewBetween(p: Params, before: seq<Slash>, after: seq<Slash>, from: Epoch, to: Epoch) {
    && before <= after
    && forall k | |before| <= k < |after| :: from < after[k].epoch + p.SlashProcessingEpochOffset() <= to
  }

  lemma {:induction false} PushGrows(p: Params, recorded: map<Address, seq<Slash>>, evs: seq<Evidence>, cubicRate: nat,
                                     v: Address, e: Epoch)
    requires FiledAt(p, evs, e) && e > 0
    ensures GrewBetween(p, SlashesOf(recorded, v), SlashesOf(Push(recorded, evs, cubicRate), v), e - 1, e)
  {
    if evs != [] {
      PushGrows(p, recorded, evs[..|evs| - 1], cubicRate, v, e);
    }
  }

  lemma {:induction false} RecordedGrows(p: Params, s: State, more: seq<Op>, v: Address)
    requires Recorded(p, s)
    ensures Recorded(p, Run(p, s, more))
    ensures GrewBetween(p, SlashesOf(s.recorded, v), SlashesOf(Run(p, s, more).recorded, v), s.epoch, Run(p, s, more).epoch)
  {
    hide Push;
    if more != [] {
      var before, op := Run(p, s, more[..|more| - 1]), more[|more| - 1];
      RecordedGrows(p, s, more[..|more| - 1], v);
      StepRecorded(p, before, op);
      EpochsOnlyGrow(p, s, more[..|more| - 1]);
      if op.Start? {
        PushGrows(p, before.recorded, EnqueuedAt(before.enqueued, before.epoch + 1), op.cubicRate, v, before.epoch + 1);
      }
    }
  }

  lemma {:induction false} SelectConcat(p: Params, f: Filter, a: seq<Slash>, b: seq<Slash>)
    ensures Select(p, f, a + b) == Select(p, f, a) + Select(p, f, b)
  {
    if b == [] {
      assert a + b == a;
    } else {
      var n := |b| - 1;
      SelectConcat(p, f, a, b[..n]);
      assert (a + b)[..|a| + n] == a + b[..n];
    }
  }

  lemma {:induction false} SelectSame(p: Params, f: Filter, g: Filter, slashes: seq<Slash>)
    requires forall k | 0 <= k < |slashes| :: Keeps(p, f, slashes[k].epoch) == Keeps(p, g, slashes[k].epoch)
    ensures Select(p, f, slashes) == Select(p, g, slashes)
  {
    if slashes != [] {
      SelectSame(p, f, g, slashes[..|slashes| - 1]);
    }
  }

  lemma {:induction false} SelectNone(p: Params, f: Filter, slashes: seq<Slash>)
    requires forall k | 0 <= k < |slashes| :: !Keeps(p, f, slashes[k].epoch)
    ensures Select(p, f, slashes) == []
  {
    if slashes != [] {
      SelectNone(p, f, slashes[..|slashes| - 1]);
    }
  }

  /** For every redelegation, made in the state that the run `ops` reaches, and every later state: the
      source's slashes that were applied when it was made, followed by those that the redelegation
      window selects later, are all recorded slashes from the bond's start up to the redelegation's
      end, each once. */
  lemma ExactlyOnce(p: Params, ops: seq<Op>, more: seq<Op>, src: Address, bondStart: Epoch)
    ensures var made := Run(p, GENESIS, ops);
            var later := Run(p, made, more);
            var end := p.RedelegationEndEpochFromStart(made.epoch);
            var eager, lazy := UnbondFilter(bondStart), RedelegationFilter(p, bondStart, end);
            && Select(p, lazy, SlashesOf(made.recorded, src)) == []
            && Select(p, eager, SlashesOf(made.recorded, src)) + Select(p, lazy, SlashesOf(later.recorded, src)) ==
                 Select(p, Within(bondStart, end), SlashesOf(later.recorded, src))
  {
    hide Run, Select, Push, Recorded;
    var made := Run(p, GENESIS, ops);
    var later := Run(p, made, more);
    RunRecorded(p, []);
    RunOfNone(p);
    RunRecorded(p, ops);
    RecordedGrows(p, GENESIS, ops, src);
    RecordedGrows(p, made, more, src);
    var old', all := SlashesOf(made.recorded, src), SlashesOf(later.recorded, src);
    SplitOnce(p, old', all[|old'|..], made.epoch, bondStart);
    assert all == old' + all[|old'|..];
  }

  lemma RunOfNone(p: Params)
    ensures Run(p, GENESIS, []) == GENESIS
  {
  }

  lemma SplitOnce(p: Params, early: seq<Slash>, late: seq<Slash>, epoch: Epoch, bondStart: Epoch)
    requires forall k | 0 <= k < |early| :: early[k].epoch + p.SlashProcessingEpochOffset() <= epoch
    requires forall k | 0 <= k < |late| :: epoch < late[k].epoch + p.SlashProcessingEpochOffset()
    ensures var end := epoch + p.pipelineLen;
            && Select(p, RedelegationFilter(p, bondStart, end), early) == []
            && Select(p, UnbondFilter(bondStart), early) + Select(p, RedelegationFilter(p, bondStart, end), early + late) ==
                 Select(p, Within(bondStart, end), early + late)
  {
    hide Select;
    var end := epoch + p.pipelineLen;
    var eager, lazy, all := UnbondFilter(bondStart), RedelegationFilter(p, bondStart, end), Within(bondStart, end);
    SelectConcat(p, lazy, early, late);
    SelectConcat(p, all, early, late);
    SelectNone(p, lazy, early);
    SelectSame(p, eager, all, early);
    SelectSame(p, lazy, all, late);
  }

  // ---- In storage ----

  lemma {:induction false} PushSplit(recorded: map<Address, seq<Slash>>, evs: seq<Evidence>, cubicRate: nat)
    ensures Push(recorded, evs, cubicRate).Keys == recorded.Keys + Push(map[], evs, cubicRate).Keys
    ensures forall v: Address :: SlashesOf(Push(recorded, evs, cubicRate), v)
                              == SlashesOf(recorded, v) + SlashesOf(Push(map[], evs, cubicRate), v)
  {
    if evs != [] {
      PushSplit(recorded, evs[..|evs| - 1], cubicRate);
    }
  }

  class Storage {
    const params: Params
    var epoch: Epoch
    var enqueued: map<Epoch, seq<Evidence>>
    var recorded: map<Address, seq<Slash>>
    ghost var log: seq<Evidence>

    ghost function Current(): State
      reads this
    {
      State(epoch, enqueued, recorded, log)
    }

    constructor (params: Params)
      ensures this.params == params && Current() == GENESIS
    {
      this.params := params;
      epoch, enqueued, recorded, log := 0, map[], map[], [];
    }

    /** Record evidence from a block, then `slash`, unless the evidence is outdated. */
    method ReportEvidence(ev: Evidence)
      modifies this
      ensures Current() == Step(params, old(Current()), Report(ev))
    {
      if ev.infraction <= epoch && epoch < ev.infraction + params.SlashProcessingEpochOffset() - params.cubicSlashingWindowLength {
        var processing := ev.infraction + params.SlashProcessingEpochOffset();
        enqueued := enqueued[processing := EnqueuedAt(enqueued, processing) + [ev]];
        log := log + [ev];
      }
    }

    /** A new epoch: `process_slashes` gives each enqueued slash its final rate, collects them by
        validator, and then writes them to the validators' lists. */
    method StartEpoch(cubicRate: nat)
      modifies this
      ensures Current() == Step(params, old(Current()), Start(cubicRate))
    {
      epoch := epoch + 1;
      var evs := EnqueuedAt(enqueued, epoch);
      var byValidator := CollectSlashes(evs, cubicRate);
      PushSplit(recorded, evs, cubicRate);
      recorded := AppendSlashes(recorded, byValidator);
      assert recorded == Push(old(recorded), evs, cubicRate) by {
        forall v | v in recorded ensures recorded[v] == Push(old(recorded), evs, cubicRate)[v] {
          assert SlashesOf(recorded, v) == SlashesOf(Push(old(recorded), evs, cubicRate), v);
        }
      }
    }
  }

  method CollectSlashes(evs: seq<Evidence>, cubicRate: nat) returns (byValidator: map<Address, seq<Slash>>)
    ensures byValidator == Push(map[], evs, cubicRate)
  {
    byValidator := map[];
    for i := 0 to |evs|
      invariant byValidator == Push(map[], evs[..i], cubicRate)
    {
      PrefixNext(evs, i);
      var ev := evs[i];
      var slash := Slash(ev.infraction, Min(DEC_ONE, Max(ev.minRate, cubicRate)));
      byValidator := byValidator[ev.validator := SlashesOf(byValidator, ev.validator) + [slash]];
    }
    assert evs[..|evs|] == evs;
  }

  method AppendSlashes(recorded: map<Address, seq<Slash>>,
                       more: map<Address, seq<Slash>>) returns (recorded': map<Address, seq<Slash>>)
    ensures recorded'.Keys == recorded.Keys + more.Keys
    ensures forall v: Address :: SlashesOf(recorded', v) == SlashesOf(recorded, v) + SlashesOf(more, v)
  {
    recorded' := recorded;
    var rest := more;
    while rest != map[]
      invariant rest.Keys <= more.Keys && recorded'.Keys == recorded.Keys + (more.Keys - rest.Keys)
      invariant forall v | v in rest :: rest[v] == more[v]
      invariant forall v: Address :: SlashesOf(recorded', v) == SlashesOf(recorded, v) + if v in rest then [] else SlashesOf(more, v)
      decreases rest.Keys
    {
      var v := MinKey(rest.Keys);
      recorded' := recorded'[v := SlashesOf(recorded', v) + rest[v]];
      rest := rest - {v};
    }
  }
}
