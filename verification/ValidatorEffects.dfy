/** What every operation on the validator sets does at the pipeline epoch: to the stakes, to the validator it names and to
    all others. With the top-N property this tells which validators are in which set, up to equal stakes. */
module ValidatorEffects {
  import opened Types
  import opened ValidatorSets
  import VE = ValidatorEpochs
  import opened ValidatorStates

  // ---- The sets of one epoch ----

  predicate InSet(state: ValidatorState) {
    state == Consensus || state == BelowCapacity
  }

  /** Other validators stay as they are, or move between the consensus set and the below-capacity set. */
  ghost predicate SameOthers(a: Sets, b: Sets, v: Address) {
    forall w: Address | w != v :: SameOther(a, b, w)
  }

  ghost predicate SameOther(a: Sets, b: Sets, w: Address) {
    && (w in a.states <==> w in b.states)
    && (w in a.states ==> a.states[w] == b.states[w] || (InSet(a.states[w]) && InSet(b.states[w])))
  }

  lemma OthersChain(a: Sets, b: Sets, c: Sets, v: Address)
    requires SameOthers(a, b, v) && SameOthers(b, c, v)
    ensures SameOthers(a, c, v)
  {
    forall w: Address | w != v ensures SameOther(a, c, w) {
      assert SameOther(a, b, w) && SameOther(b, c, w);
    }
  }

  /** Only the validator's own state is written. */
  lemma OwnState(a: Sets, b: Sets, v: Address)
    requires v in b.states && b.states == a.states[v := b.states[v]]
    ensures SameOthers(a, b, v)
  {
  }

  lemma PromoteEffect(s: Sets, threshold: Amount, v: Address)
    requires Agree(s, threshold)
    ensures Promote(s).stakes == s.stakes && SameOthers(s, Promote(s), v) && SameOther(s, Promote(s), v)
    ensures v in s.states && s.states[v] != BelowCapacity ==> v in Promote(s).states && Promote(s).states[v] == s.states[v]
  {
    hide AttachConsensus, Detach, Agree, FirstOfMax;
    if s.below != map[] {
      var w := s.below[FirstOfMax(s.below)];
      MemberKey(s, threshold, FirstOfMax(s.below));
      MoveUp(s, threshold, w);
    }
  }

  lemma DemoteEffect(s: Sets, threshold: Amount, v: Address)
    requires Agree(s, threshold)
    ensures Demote(s).stakes == s.stakes && SameOthers(s, Demote(s), v) && SameOther(s, Demote(s), v)
  {
    hide AttachBelow, Detach, Agree, LastOfMin;
    if s.consensus != map[] {
      var w := s.consensus[LastOfMin(s.consensus)];
      MemberKey(s, threshold, LastOfMin(s.consensus));
      MoveDown(s, threshold, w);
    }
  }

  lemma AttachEffect(s: Sets, v: Address)
    ensures var r := AttachConsensus(s, v); r.stakes == s.stakes && r.states == s.states[v := Consensus] && SameOthers(s, r, v)
    ensures var r := AttachBelow(s, v); r.stakes == s.stakes && r.states == s.states[v := BelowCapacity] && SameOthers(s, r, v)
  {
    hide NextPosition;
    OwnState(s, AttachConsensus(s, v), v);
    OwnState(s, AttachBelow(s, v), v);
  }

  /** A validator is put into a set, or is below the threshold. */
  lemma PlaceEffect(s: Sets, slots: nat, threshold: Amount, v: Address)
    requires Agree(s, threshold)
    ensures var r := Place(s, slots, threshold, v);
            && r.stakes == s.stakes && SameOthers(s, r, v)
            && v in r.states && if StakeOf(s, v) < threshold then r.states[v] == BelowThreshold else InSet(r.states[v])
  {
    hide Agree, AttachConsensus, AttachBelow, Demote, MinAmount, Count, SameOthers;
    var d := Demote(s);
    DemoteEffect(s, threshold, v);
    AttachEffect(s, v);
    AttachEffect(d, v);
    OthersChain(s, d, AttachConsensus(d, v), v);
    OwnState(s, SetState(s, v, BelowThreshold), v);
  }

  lemma DetachEffect(s: Sets, v: Address, stake: Amount, state: ValidatorState)
    ensures var d := SetStake(Detach(s, v), v, stake);
            && SameOthers(s, d, v) && d.stakes == s.stakes[v := stake]
            && SameOthers(s, SetState(d, v, state), v)
    ensures SameOthers(s, Remove(s, v, state), v) && Remove(s, v, state).stakes == s.stakes
  {
    hide KeyOf;
    var d := SetStake(Detach(s, v), v, stake);
    OwnState(s, d, v);
    OwnState(s, SetState(d, v, state), v);
    OwnState(s, Remove(s, v, state), v);
  }

  /** What a change of stake does: the sets are left alone for a jailed or inactive validator; any other stays in the game. */
  ghost predicate Changed(s: Sets, r: Sets, v: Address, stake: Amount) {
    && r.stakes == s.stakes[v := stake] && SameOthers(s, r, v)
    && v in s.states && v in r.states
    && if Detached(s.states[v]) then r.states[v] == s.states[v] else !Detached(r.states[v])
  }

  lemma ChangeDetached(s: Sets, slots: nat, threshold: Amount, v: Address, stake: Amount)
    requires v in s.states && Detached(s.states[v])
    ensures Changed(s, Change(s, slots, threshold, v, stake), v, stake)
  {
    OwnState(s, SetStake(s, v, stake), v);
  }

  /** The validator leaves its set with a new stake and no other moves. */
  lemma ChangeAlone(s: Sets, slots: nat, threshold: Amount, v: Address, stake: Amount)
    requires slots >= 1 && TopN(s, slots, threshold) && v in s.states && !Detached(s.states[v])
    ensures var d := SetStake(Detach(s, v), v, stake);
            && Changed(s, SetState(d, v, BelowThreshold), v, stake)
            && Changed(s, AttachConsensus(d, v), v, stake)
            && Changed(s, AttachBelow(d, v), v, stake)
            && Changed(s, Place(d, slots, threshold, v), v, stake)
  {
    hide Agree, Ranked, Full, Detach, AttachConsensus, AttachBelow, Place, SameOthers, SameOther;
    var d := SetStake(Detach(s, v), v, stake);
    Left(s, slots, threshold, v, stake);
    DetachEffect(s, v, stake, BelowThreshold);
    AttachEffect(d, v);
    OthersChain(s, d, AttachConsensus(d, v), v);
    OthersChain(s, d, AttachBelow(d, v), v);
    PlaceEffect(d, slots, threshold, v);
    OthersChain(s, d, Place(d, slots, threshold, v), v);
  }

  /** The validator leaves its set with a new stake and another one moves. */
  lemma ChangeWithOther(s: Sets, slots: nat, threshold: Amount, v: Address, stake: Amount)
    requires slots >= 1 && TopN(s, slots, threshold) && v in s.states && !Detached(s.states[v])
    ensures var d := SetStake(Detach(s, v), v, stake);
            && (stake < threshold ==> Changed(s, Promote(SetState(d, v, BelowThreshold)), v, stake))
            && Changed(s, AttachBelow(Promote(d), v), v, stake)
            && Changed(s, AttachConsensus(Demote(d), v), v, stake)
  {
    hide Agree, Ranked, Full, Detach, AttachConsensus, AttachBelow, Demote, Promote, SameOthers, SameOther;
    var d := SetStake(Detach(s, v), v, stake);
    var low, up, down := SetState(d, v, BelowThreshold), Promote(d), Demote(d);
    Left(s, slots, threshold, v, stake);
    DetachEffect(s, v, stake, BelowThreshold);
    PromoteEffect(d, threshold, v);
    AttachEffect(up, v);
    OthersChain(s, d, up, v);
    OthersChain(s, up, AttachBelow(up, v), v);
    DemoteEffect(d, threshold, v);
    AttachEffect(down, v);
    OthersChain(s, d, down, v);
    OthersChain(s, down, AttachConsensus(down, v), v);
    if stake < threshold {
      SetStateAgree(d, threshold, v, BelowThreshold);
      PromoteEffect(low, threshold, v);
      OthersChain(s, low, Promote(low), v);
    }
  }

  lemma ChangeEffect(s: Sets, slots: nat, threshold: Amount, v: Address, stake: Amount)
    requires slots >= 1 && TopN(s, slots, threshold) && v in s.states
    ensures Changed(s, Change(s, slots, threshold, v, stake), v, stake)
  {
    hide Agree, Ranked, Full, Detach, AttachConsensus, AttachBelow, Demote, Promote, Place, SameOthers, MinAmount, MaxAmount;
    if Detached(s.states[v]) {
      ChangeDetached(s, slots, threshold, v, stake);
    } else {
      ChangeAlone(s, slots, threshold, v, stake);
      ChangeWithOther(s, slots, threshold, v, stake);
      OwnState(s, SetStake(s, v, stake), v);
    }
  }

  /** A new validator has no stake and is no more jailed than inactive. */
  lemma BecomeEffect(s: Sets, slots: nat, threshold: Amount, v: Address)
    requires Agree(s, threshold) && v !in s.states
    ensures var r := Become(s, slots, threshold, v);
            && r.stakes == s.stakes[v := 0] && SameOthers(s, r, v) && v in r.states && !Detached(r.states[v])
  {
    hide Agree, Place, SameOthers;
    var b := SetState(SetStake(s, v, 0), v, Inactive);
    PositionHeld(s, threshold, v);
    OutsideAgree(s, threshold, v, 0, Inactive);
    PlaceEffect(b, slots, threshold, v);
    OwnState(s, b, v);
    OthersChain(s, b, Place(b, slots, threshold, v), v);
  }

  /** A validator that is taken out gets the new state, whether or not another takes its place. */
  lemma RetireEffect(s: Sets, slots: nat, threshold: Amount, v: Address, state: ValidatorState)
    requires Agree(s, threshold) && Ranked(s, slots) && v in s.states && Detached(state)
    ensures var r := Retire(s, v, state);
            && r.stakes == s.stakes && SameOthers(s, r, v) && v in r.states && r.states[v] == state
  {
    hide Agree, Ranked, Detach, Promote, SameOthers;
    var d := Remove(s, v, state);
    DetachEffect(s, v, 0, state);
    RemoveKeeps(s, slots, threshold, v, state);
    PromoteEffect(d, threshold, v);
    OthersChain(s, d, Promote(d), v);
  }

  // ---- The sets at the pipeline epoch ----

  /** What an accepted operation does to the validator it names. */
  ghost predicate Effect(c: VE.Config, s: VE.State, op: VE.Op, a: Sets, b: Sets) {
    match op
    case BecomeValidator(v) => b.stakes == a.stakes[v := 0] && v !in a.states && v in b.states && !Detached(b.states[v])
    case ChangeStake(v, stake) => Changed(a, b, v, stake)
    case JailFrom(v, _, _) => b.stakes == a.stakes && v in a.states && v in b.states && b.states[v] == Jailed
    case Unjail(v) =>
      && b.stakes == a.stakes && v in a.states && a.states[v] == Jailed
      && VE.Eligible(c, s, v) && v in b.states && !Detached(b.states[v])
    case Deactivate(v) =>
      b.stakes == a.stakes && v in a.states && !Detached(a.states[v]) && v in b.states && b.states[v] == Inactive
    case Reactivate(v) =>
      && b.stakes == a.stakes && v in a.states && a.states[v] == Inactive && v in b.states
      && if VE.Eligible(c, s, v) then !Detached(b.states[v]) else b.states[v] == Jailed
    case NextEpoch => b == a
  }

  lemma JailedAtPipeline(c: VE.Config, window: seq<Sets>, v: Address, from: nat)
    requires |window| == c.pipeline + 1 && v in window[c.pipeline].states && from <= c.pipeline
    ensures VE.JailedWindow(c, window, v, from)[c.pipeline] == Retire(window[c.pipeline], v, Jailed)
  {
    hide Retire, Remove;
  }

  lemma StepEffect(c: VE.Config, s: VE.State, op: VE.Op)
    requires c.slots >= 1 && VE.Inv(c, s) && VE.Step(c, s, op).Ok?
    ensures |VE.Step(c, s, op).value.window| == c.pipeline + 1
    ensures var a, b := VE.AtPipeline(c, s), VE.AtPipeline(c, VE.Step(c, s, op).value);
            Effect(c, s, op, a, b) && (!op.NextEpoch? ==> SameOthers(a, b, op.validator))
  {
    hide Agree, Ranked, Full, Place, Become, Change, Retire, SameOthers, VE.FirstNot, VE.JailedWindow;
    var sets := VE.AtPipeline(c, s);
    VE.AtPipelineTopN(c, s);
    VE.StepWindow(c, s, op);
    match op
    case BecomeValidator(v) => BecomeEffect(sets, c.slots, c.threshold, v);
    case ChangeStake(v, stake) => ChangeEffect(sets, c.slots, c.threshold, v, stake);
    case JailFrom(v, offset, infraction) =>
      JailedAtPipeline(c, s.window, v, offset);
      RetireEffect(sets, c.slots, c.threshold, v, Jailed);
    case Unjail(v) =>
      assert VE.HasStateAt(s.window, v, Jailed, c.pipeline);
      PlaceEffect(sets, c.slots, c.threshold, v);
    case Deactivate(v) => RetireEffect(sets, c.slots, c.threshold, v, Inactive);
    case Reactivate(v) =>
      assert VE.HasStateAt(s.window, v, Inactive, c.pipeline);
      PlaceEffect(sets, c.slots, c.threshold, v);
      OwnState(sets, SetState(sets, v, Jailed), v);
    case NextEpoch =>
  }

  /** The sets of the pipeline epoch as they are read. */
  function Last(c: VE.Config, s: State): Sets
    requires |s.window| == c.pipeline + 1
  {
    SetsAt(c, s, c.pipeline)
  }

  /** After every run, every operation that is accepted does to the stakes, to the validator it names and to all others at the
      pipeline epoch what it should. */
  lemma RunEffect(c: VE.Config, genesis: seq<VE.GenesisOp>, ops: seq<VE.Op>, op: VE.Op)
    requires c.slots >= 1 && Step(c, After(c, genesis, ops), op).Ok?
    ensures var s := After(c, genesis, ops);
            var a, b := Last(c, s), Last(c, Step(c, s, op).value);
            && Effect(c, Seen(c, s), op, a, b) && (!op.NextEpoch? ==> SameOthers(a, b, op.validator))
            && TopN(b, c.slots, c.threshold)
  {
    hide After, Step, VE.Step, VE.Inv, Matches, TopN, SameOthers, SetsAt, Changed;
    var s := After(c, genesis, ops);
    RunInv(c, genesis, ops);
    var r: VE.State :| VE.Inv(c, r) && Matches(c, s, r);
    StepMatches(c, s, r, op);
    VE.StepInv(c, r, op);
    StepEffect(c, r, op);
    LastMatches(c, s, r);
    LastMatches(c, Step(c, s, op).value, VE.Step(c, r, op).value);
    SameEligible(c, s, r, op);
    VE.AtPipelineTopN(c, VE.Step(c, r, op).value);
  }

  lemma LastMatches(c: VE.Config, s: State, r: VE.State)
    requires Matches(c, s, r)
    ensures |s.window| == c.pipeline + 1 && |r.window| == c.pipeline + 1
    ensures Last(c, s) == VE.AtPipeline(c, r)
  {
    LateMatches(c, s, r, c.pipeline);
  }

  lemma SameEligible(c: VE.Config, s: State, r: VE.State, op: VE.Op)
    requires Matches(c, s, r)
    ensures !op.NextEpoch? ==> VE.Eligible(c, Seen(c, s), op.validator) == VE.Eligible(c, r, op.validator)
  {
  }

  // ---- Jailing ----

  /** The validator is jailed and in no set, and no stake changes. */
  ghost predicate JailedIn(a: Sets, b: Sets, v: Address) {
    b.stakes == a.stakes && SameOthers(a, b, v) && v in b.states && b.states[v] == Jailed && v !in b.positions
  }

  lemma JailedNow(a: Sets, slots: nat, threshold: Amount, v: Address)
    requires Agree(a, threshold) && Ranked(a, slots) && v in a.states
    ensures JailedIn(a, Remove(a, v, Jailed), v)
    ensures slots >= 1 && Full(a, slots) ==> JailedIn(a, Retire(a, v, Jailed), v)
  {
    hide Agree, Ranked, Full, Detach, Promote, SameOthers;
    DetachEffect(a, v, 0, Jailed);
    RemoveKeeps(a, slots, threshold, v, Jailed);
    PositionHeld(Remove(a, v, Jailed), threshold, v);
    if slots >= 1 && Full(a, slots) {
      RetireEffect(a, slots, threshold, v, Jailed);
      RetireTopN(a, slots, threshold, v, Jailed);
      PositionHeld(Retire(a, v, Jailed), threshold, v);
    }
  }

  lemma JailEffect(c: VE.Config, s: VE.State, v: Address, offset: nat, infraction: Option<Epoch>, i: nat)
    requires c.slots >= 1 && VE.Inv(c, s) && VE.Step(c, s, VE.JailFrom(v, offset, infraction)).Ok? && i <= c.pipeline
    ensures var after := VE.Step(c, s, VE.JailFrom(v, offset, infraction)).value.window;
            && |after| == c.pipeline + 1
            && if i < offset then after[i] == s.window[i] else JailedIn(s.window[i], after[i], v)
  {
    hide Agree, Ranked, Full, Retire, Remove, JailedIn;
    VE.AtPipelineTopN(c, s);
    if offset <= i {
      JailedNow(s.window[i], c.slots, c.threshold, v);
    }
  }

  /** After every run, an accepted jailing from an offset on takes the validator out of the sets of exactly the epochs from there
      to the pipeline epoch; its state there is jailed, or no longer kept, which it is in the last three epochs. */
  lemma RunJails(c: VE.Config, genesis: seq<VE.GenesisOp>, ops: seq<VE.Op>, v: Address, offset: nat,
                 infraction: Option<Epoch>, i: nat)
    requires c.slots >= 1 && i <= c.pipeline && Step(c, After(c, genesis, ops), VE.JailFrom(v, offset, infraction)).Ok?
    ensures var s := After(c, genesis, ops);
            var r := Step(c, s, VE.JailFrom(v, offset, infraction)).value;
            if i < offset then r.window[i] == s.window[i]
            else
              var read := StateIn(SetsAt(c, r, i).states, v);
              && v !in r.window[i].positions && r.window[i].stakes == s.window[i].stakes
              && (read == Some(Jailed) || read == None)
              && (c.pipeline <= i + PAST ==> read == Some(Jailed))
  {
    hide After, Step, VE.Step, VE.Inv, Tracked, SetsAt, SameOthers;
    var s, op := After(c, genesis, ops), VE.JailFrom(v, offset, infraction);
    RunInv(c, genesis, ops);
    var t: VE.State :| VE.Inv(c, t) && Matches(c, s, t);
    StepMatches(c, s, t, op);
    JailEffect(c, t, v, offset, infraction, i);
    var r, u := Step(c, s, op).value, VE.Step(c, t, op).value;
    ReadMatches(c, r, u, i, v);
    assert r.window[i] == EntriesOf(u.window[i]) && s.window[i] == EntriesOf(t.window[i]);
  }

  // ---- Who comes back when ----

  /** The infractions for which a validator was jailed in a run. */
  function Infractions(c: VE.Config, genesis: seq<VE.GenesisOp>, ops: seq<VE.Op>, v: Address): set<Epoch> {
    if ops == [] then {}
    else
      var before, op := ops[..|ops| - 1], ops[|ops| - 1];
      Infractions(c, genesis, before, v)
      + if op.JailFrom? && op.validator == v && op.infraction.Some? && Step(c, After(c, genesis, before), op).Ok?
        then {op.infraction.value} else {}
  }

  /** The stored epoch is the latest of them. */
  ghost predicate LastIsLatest(last: map<Address, Epoch>, v: Address, infractions: set<Epoch>) {
    && (v in last <==> infractions != {})
    && (v in last ==> last[v] in infractions && forall i | i in infractions :: i <= last[v])
  }

  lemma StepLast(c: VE.Config, s: State, op: VE.Op, v: Address, infractions: set<Epoch>)
    requires |s.window| == c.pipeline + 1 && Step(c, s, op).Ok? && LastIsLatest(s.lastSlash, v, infractions)
    ensures LastIsLatest(Step(c, s, op).value.lastSlash, v,
              infractions + if op.JailFrom? && op.validator == v && op.infraction.Some? then {op.infraction.value} else {})
  {
    hide Written, Stripped, StatesAt, Place, Become, Change, Retire, VE.FirstNot, VE.JailedWindow, SetsAt;
    assert infractions + {} == infractions;
  }

  lemma {:induction false} RunLast(c: VE.Config, genesis: seq<VE.GenesisOp>, ops: seq<VE.Op>, v: Address)
    ensures LastIsLatest(After(c, genesis, ops).lastSlash, v, Infractions(c, genesis, ops, v))
    decreases |ops|
  {
    hide Step;
    if ops != [] {
      hide LastIsLatest;
      var before, op := ops[..|ops| - 1], ops[|ops| - 1];
      RunLast(c, genesis, before, v);
      var infractions := Infractions(c, genesis, before, v);
      if Step(c, After(c, genesis, before), op).Ok? {
        StepLast(c, After(c, genesis, before), op, v, infractions);
      } else {
        assert infractions + {} == infractions;
      }
    }
  }

  /** After every run, a validator may come back exactly if the slashes for all infractions it was jailed for are processed. */
  lemma EligibleExactly(c: VE.Config, genesis: seq<VE.GenesisOp>, ops: seq<VE.Op>, v: Address)
    ensures var s := After(c, genesis, ops);
            VE.Eligible(c, Seen(c, s), v) <==> forall i | i in Infractions(c, genesis, ops, v) :: i + c.slashProcessing <= s.now
  {
    hide After, Infractions;
    RunLast(c, genesis, ops, v);
  }

  /** After every run: a jailed or inactive validator gets back into the sets only by unjailing or reactivation, only when all
      its infractions are processed, and then below the threshold exactly if its stake is. */
  lemma ComesBack(c: VE.Config, genesis: seq<VE.GenesisOp>, ops: seq<VE.Op>, op: VE.Op, v: Address)
    requires c.slots >= 1 && Step(c, After(c, genesis, ops), op).Ok?
    requires var a, b := Last(c, After(c, genesis, ops)), Last(c, Step(c, After(c, genesis, ops), op).value);
             v in a.states && Detached(a.states[v]) && v in b.states && !Detached(b.states[v])
    ensures op == VE.Unjail(v) || op == VE.Reactivate(v)
    ensures forall i | i in Infractions(c, genesis, ops, v) :: i + c.slashProcessing <= After(c, genesis, ops).now
    ensures var b := Last(c, Step(c, After(c, genesis, ops), op).value);
            b.states[v] == BelowThreshold <==> StakeOf(b, v) < c.threshold
  {
    hide After, Step, SetsAt, Infractions, Agree, Ranked, Full, VE.Eligible;
    RunEffect(c, genesis, ops, op);
    EligibleExactly(c, genesis, ops, v);
    var a, b := Last(c, After(c, genesis, ops)), Last(c, Step(c, After(c, genesis, ops), op).value);
    PositionHeld(b, c.threshold, v);
    assert !op.NextEpoch? && op.validator != v ==> SameOther(a, b, v);
  }
}
