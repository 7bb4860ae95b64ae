/** When the validator states of the whole window can be read: exactly with a pipeline of at most two epochs. */
module TrimmedStates {
  import opened Types
  import opened ValidatorSets
  import E = Epoched
  import VE = ValidatorEpochs
  import opened ValidatorStates

  // ---- A run that loses states ----

  /** The validator that holds the only slot, is displaced and comes back; and the one that displaces it and leaves. */
  const HOLDER: Address := 1
  const VISITOR: Address := 2

  const GENESIS: seq<VE.GenesisOp> :=
    [VE.GenesisValidator(HOLDER), VE.GenesisValidator(VISITOR), VE.GenesisBond(HOLDER, 10)]

  const DISPLACE := VE.ChangeStake(VISITOR, 20)
  const LEAVE := VE.Deactivate(VISITOR)

  function OneSlot(pipeline: nat): VE.Config {
    VE.Config(pipeline, 1, 1, 0)
  }

  /** The sets of genesis: the holder has the slot. */
  const HELD := Sets(map[Key(10, 0) := HOLDER], map[], map[HOLDER := 0],
                     map[HOLDER := Consensus, VISITOR := BelowThreshold], map[HOLDER := 10, VISITOR := 0])

  /** The visitor has it and the holder waits. */
  const DISPLACED := Sets(map[Key(20, 0) := VISITOR], map[Key(10, 0) := HOLDER], map[HOLDER := 0, VISITOR := 0],
                          map[HOLDER := BelowCapacity, VISITOR := Consensus], map[HOLDER := 10, VISITOR := 20])

  lemma NewBelow(s: Sets, v: Address)
    ensures Become(s, 1, 1, v) == Sets(s.consensus, s.below, s.positions, s.states[v := BelowThreshold], s.stakes[v := 0])
  {
    assert s.states[v := Inactive][v := BelowThreshold] == s.states[v := BelowThreshold];
  }

  lemma FirstPosition(m: map<Key, Address>, stake: Amount)
    requires forall k | k in m :: k.stake != stake
    ensures NextPosition(m, stake) == 0
  {
    assert Bucket(m, stake) == {};
  }

  const ALONE := Sets(map[], map[], map[], map[HOLDER := BelowThreshold], map[HOLDER := 0])
  const BOTH := Sets(map[], map[], map[], map[HOLDER := BelowThreshold, VISITOR := BelowThreshold],
                     map[HOLDER := 0, VISITOR := 0])

  lemma HolderBonds()
    ensures SetStake(Detach(BOTH, HOLDER), HOLDER, 10) ==
            Sets(map[], map[], map[], map[HOLDER := Inactive, VISITOR := BelowThreshold], map[HOLDER := 10, VISITOR := 0])
  {
  }

  lemma HolderEnters()
    ensures Become(EMPTY, 1, 1, HOLDER) == ALONE
    ensures Become(ALONE, 1, 1, VISITOR) == BOTH
    ensures Change(BOTH, 1, 1, HOLDER, 10) == HELD
  {
    hide NextPosition, Detach;
    NewBelow(EMPTY, HOLDER);
    NewBelow(ALONE, VISITOR);
    FirstPosition(map[], 10);
    HolderBonds();
    var d := SetStake(Detach(BOTH, HOLDER), HOLDER, 10);
    assert Place(d, 1, 1, HOLDER) == AttachConsensus(d, HOLDER);
  }

  lemma GenesisHeld(pipeline: nat)
    ensures VE.GenesisSets(OneSlot(pipeline), GENESIS) == HELD
    ensures VE.GenesisSets(OneSlot(pipeline), GENESIS[..1]) == ALONE && VE.GenesisSets(OneSlot(pipeline), GENESIS[..2]) == BOTH
  {
    hide Become, Change;
    HolderEnters();
    var c := OneSlot(pipeline);
    assert GENESIS[..1][..0] == [] && GENESIS[..2][..1] == GENESIS[..1];
    assert VE.GenesisSets(c, []) == EMPTY;
    assert VE.GenesisSets(c, GENESIS[..1]) == ALONE;
    assert VE.GenesisSets(c, GENESIS[..2]) == BOTH;
    assert GENESIS[|GENESIS| - 1] == VE.GenesisBond(HOLDER, 10);
  }

  /** The visitor is about to enter. */
  const ENTERING := Sets(map[Key(10, 0) := HOLDER], map[], map[HOLDER := 0],
                         map[HOLDER := Consensus, VISITOR := Inactive], map[HOLDER := 10, VISITOR := 20])

  lemma VisitorEnters()
    ensures SetStake(Detach(HELD, VISITOR), VISITOR, 20) == ENTERING
  {
  }

  lemma HolderIsWorst()
    ensures Key(10, 0) in ENTERING.consensus && LastOfMin(ENTERING.consensus) == Key(10, 0)
    ensures MinAmount(ENTERING.consensus) == 10
    ensures Key(10, 0) in DISPLACED.below && FirstOfMax(DISPLACED.below) == Key(10, 0)
  {
    hide LastOfMin, FirstOfMax, MinAmount, MaxAmount;
    assert Key(10, 0) in ENTERING.consensus && Key(10, 0) in DISPLACED.below;
  }

  lemma HolderDemoted()
    ensures Demote(ENTERING) == Sets(map[], map[Key(10, 0) := HOLDER], map[HOLDER := 0],
                                     map[HOLDER := BelowCapacity, VISITOR := Inactive], ENTERING.stakes)
  {
    hide NextPosition, LastOfMin, FirstOfMax, MinAmount;
    HolderIsWorst();
    FirstPosition(map[], 10);
    assert Detach(ENTERING, HOLDER) ==
           Sets(map[], map[], map[], map[HOLDER := Inactive, VISITOR := Inactive], ENTERING.stakes);
  }

  /** The visitor's bond demotes the holder. */
  lemma VisitorDisplaces()
    ensures Place(ENTERING, 1, 1, VISITOR) == DISPLACED
    ensures Change(HELD, 1, 1, VISITOR, 20) == DISPLACED
  {
    hide NextPosition, LastOfMin, FirstOfMax, MinAmount, Demote, Detach;
    VisitorEnters();
    HolderIsWorst();
    HolderDemoted();
    FirstPosition(map[], 20);
    assert Place(ENTERING, 1, 1, VISITOR) == AttachConsensus(Demote(ENTERING), VISITOR);
  }

  // ---- The holder's handle ----

  /** Consensus from the first epoch on, then below capacity from the pipeline epoch on. */
  function Holding(): Handle {
    E.Discrete(map[0 := Consensus], Some(0), Some(0))
  }

  function Waiting(pipeline: nat): Handle {
    E.Discrete(map[0 := Consensus, pipeline := BelowCapacity], Some(0), Some(0))
  }

  lemma WriteFirst(state: ValidatorState)
    ensures E.Set(E.Discrete(map[], None, None), PAST, state, 0, 0) == E.Discrete(map[0 := state], Some(0), Some(0))
    ensures forall before :: E.Set(E.Discrete(map[0 := before], Some(0), Some(0)), PAST, state, 0, 0) ==
                             E.Discrete(map[0 := state], Some(0), Some(0))
  {
  }

  lemma GenesisHandle(pipeline: nat)
    ensures HandleOf(GenesisHandles(OneSlot(pipeline), GENESIS), HOLDER) == Holding()
  {
    hide Become, Change, AfterBecome, AfterChange, VE.GenesisSets;
    GenesisHeld(pipeline);
    var c, t := OneSlot(pipeline), At(0, 0);
    assert GENESIS[..1][..0] == [] && GENESIS[..2][..1] == GENESIS[..1];
    var none: Handles := map[];
    assert GenesisHandles(c, []) == none && VE.GenesisSets(c, []) == EMPTY by {
      NoGenesis(c);
    }
    var h1, h2 := GenesisHandles(c, GENESIS[..1]), GenesisHandles(c, GENESIS[..2]);
    assert h1 == AfterBecome(EMPTY, 1, 1, HOLDER, none, t);
    assert h2 == AfterBecome(ALONE, 1, 1, VISITOR, h1, t);
    assert GenesisHandles(c, GENESIS) == AfterChange(BOTH, 1, 1, HOLDER, 10, h2, t);
    HolderWrites(h1, h2);
  }

  lemma NoGenesis(c: VE.Config)
    ensures VE.GenesisSets(c, []) == EMPTY && GenesisHandles(c, []) == map[]
  {
  }

  lemma HolderWrites(h1: Handles, h2: Handles)
    requires h1 == AfterBecome(EMPTY, 1, 1, HOLDER, map[], At(0, 0))
    requires h2 == AfterBecome(ALONE, 1, 1, VISITOR, h1, At(0, 0))
    ensures HandleOf(AfterChange(BOTH, 1, 1, HOLDER, 10, h2, At(0, 0)), HOLDER) == Holding()
  {
    hide E.Set, NextPosition, Detach;
    WriteFirst(BelowThreshold);
    WriteFirst(Consensus);
    assert HandleOf(h1, HOLDER) == E.Discrete(map[0 := BelowThreshold], Some(0), Some(0));
    assert HandleOf(h2, HOLDER) == HandleOf(h1, HOLDER);
    HolderBonds();
    assert AfterChange(BOTH, 1, 1, HOLDER, 10, h2, At(0, 0)) == WriteState(h2, HOLDER, Consensus, At(0, 0));
  }

  /** The holder is demoted at the pipeline epoch. */
  lemma DisplaceWrites(pipeline: nat, h: Handles)
    requires HandleOf(h, HOLDER) == Holding()
    ensures HandleOf(AfterChange(HELD, 1, 1, VISITOR, 20, h, At(0, pipeline)), HOLDER) == Waiting(pipeline)
  {
    hide E.Set, NextPosition, LastOfMin, FirstOfMax, MinAmount, Detach;
    var t := At(0, pipeline);
    VisitorEnters();
    HolderIsWorst();
    assert AfterChange(HELD, 1, 1, VISITOR, 20, h, t) == AfterPlace(ENTERING, 1, 1, VISITOR, h, t);
    assert AfterPlace(ENTERING, 1, 1, VISITOR, h, t) == WriteState(AfterDemote(ENTERING, h, t), VISITOR, Consensus, t);
    assert AfterDemote(ENTERING, h, t) == WriteState(h, HOLDER, BelowCapacity, t);
    WriteWaiting(pipeline);
  }

  lemma WriteWaiting(pipeline: nat)
    ensures E.Set(Holding(), PAST, BelowCapacity, 0, pipeline) == Waiting(pipeline)
  {
  }

  /** The promotion writes with the pipeline epoch as the current one. */
  lemma LeaveWrites(pipeline: nat, h: Handles)
    requires HandleOf(h, HOLDER) == Waiting(pipeline)
    ensures HandleOf(WriteState(AfterRemoval(DISPLACED, VISITOR, h, pipeline), VISITOR, Inactive, At(0, pipeline)), HOLDER) ==
            E.Set(Waiting(pipeline), PAST, Consensus, pipeline, 0)
  {
    hide E.Set, NextPosition, LastOfMin, FirstOfMax, MinAmount;
    HolderIsWorst();
    assert Detach(DISPLACED, VISITOR).below == DISPLACED.below;
    assert AfterRemoval(DISPLACED, VISITOR, h, pipeline) == WriteState(h, HOLDER, Consensus, At(pipeline, 0));
  }

  /** That trims the first epoch, and with four epochs to the pipeline the second one too. */
  lemma PromotionTrims(pipeline: nat, e: Epoch)
    requires e + PAST < pipeline
    ensures E.ValueAt(E.Set(Waiting(pipeline), PAST, Consensus, pipeline, 0), pipeline, PAST, e) == None
  {
    var keep: Epoch := pipeline - PAST;
    assert 0 in E.Between(Waiting(pipeline).data, 0, keep);
    var d := E.Set(Waiting(pipeline), PAST, Consensus, pipeline, 0);
    assert forall k | k in d.data :: keep <= k;
    E.WalkDownIsLatest(d.data, keep, e);
    E.LatestIsNone(d.data, e);
  }

  // ---- The run ----

  /** The holder is in the consensus set of the first epochs, but its state there is gone. */
  lemma FailingRun(pipeline: nat, i: nat)
    requires i + PAST < pipeline
    ensures var sets := SetsAt(OneSlot(pipeline), After(OneSlot(pipeline), GENESIS, [DISPLACE, LEAVE]), i);
            && sets.consensus == map[Key(10, 0) := HOLDER] && HOLDER !in sets.states
            && sets.positions == HELD.positions && sets.stakes == HELD.stakes
    ensures After(OneSlot(pipeline), GENESIS, [DISPLACE, LEAVE]).now == 0
  {
    hide Agree, Ranked, Full, Step, VE.GenesisSets, GenesisHandles, E.Set, E.ValueAt, Tracked;
    var c := OneSlot(pipeline);
    var s0 := Initial(c, GENESIS);
    InitialMatches(c, GENESIS);
    GenesisHeld(pipeline);
    GenesisHandle(pipeline);
    var r0 := VE.State(0, seq(pipeline + 1, _ => HELD), map[]);
    var s1 := StepDisplace(pipeline, s0, r0);
    var s2 := StepLeave(pipeline, s1, VE.WithPipeline(c, r0, DISPLACED));
    RunOf(c, s0, s1, s2);
    PromotionTrims(pipeline, i);
    assert s0.window[i] == EntriesOf(HELD);
  }

  lemma RunOf(c: VE.Config, s0: State, s1: State, s2: State)
    requires s0 == Initial(c, GENESIS) && Step(c, s0, DISPLACE) == Ok(s1)
    requires |s1.window| == c.pipeline + 1 && Step(c, s1, LEAVE) == Ok(s2)
    ensures After(c, GENESIS, [DISPLACE, LEAVE]) == s2
  {
    hide Step;
    assert [DISPLACE, LEAVE][..1] == [DISPLACE];
    assert [DISPLACE, LEAVE][..1][..0] == [];
    assert After(c, GENESIS, [DISPLACE, LEAVE][..1]) == s1;
  }

  lemma StepDisplace(pipeline: nat, s: State, r: VE.State) returns (after: State)
    requires VE.Inv(OneSlot(pipeline), r) && Matches(OneSlot(pipeline), s, r)
    requires s.now == 0 && r.window[pipeline] == HELD && HandleOf(s.handles, HOLDER) == Holding()
    ensures Step(OneSlot(pipeline), s, DISPLACE) == Ok(after) && |after.window| == pipeline + 1
    ensures VE.Inv(OneSlot(pipeline), VE.WithPipeline(OneSlot(pipeline), r, DISPLACED))
    ensures Matches(OneSlot(pipeline), after, VE.WithPipeline(OneSlot(pipeline), r, DISPLACED))
    ensures after.now == 0 && HandleOf(after.handles, HOLDER) == Waiting(pipeline)
    ensures forall i | 0 <= i < pipeline :: after.window[i] == s.window[i]
  {
    hide Agree, Ranked, Full, E.Set, Tracked, StatesAt, Step, Written;
    var c := OneSlot(pipeline);
    LateMatches(c, s, r, pipeline);
    DisplaceTaken(c, s);
    DisplaceStep(c, r);
    DisplaceWrites(pipeline, s.handles);
    StepMatches(c, s, r, DISPLACE);
    VE.StepInv(c, r, DISPLACE);
    after := Step(c, s, DISPLACE).value;
    forall i | 0 <= i < pipeline ensures after.window[i] == s.window[i] {
      assert s.window[i] == EntriesOf(r.window[i]);
    }
  }

  lemma DisplaceStep(c: VE.Config, r: VE.State)
    requires |r.window| == c.pipeline + 1 && r.window[c.pipeline] == HELD && c.slots == 1 && c.threshold == 1
    ensures VE.Step(c, r, DISPLACE) == Ok(VE.WithPipeline(c, r, DISPLACED))
  {
    hide Change;
    VisitorDisplaces();
  }

  lemma DisplaceTaken(c: VE.Config, s: State)
    requires |s.window| == c.pipeline + 1 && SetsAt(c, s, c.pipeline) == HELD && c.slots == 1 && c.threshold == 1
    ensures var r := Step(c, s, DISPLACE);
            && r.Ok? && r.value.now == s.now
            && r.value.handles == AfterChange(HELD, 1, 1, VISITOR, 20, s.handles, At(s.now, c.pipeline))
  {
    hide Change, AfterChange, StatesAt, Stripped;
    assert Seen(c, s).window[c.pipeline] == HELD;
  }

  lemma StepLeave(pipeline: nat, s: State, r: VE.State) returns (after: State)
    requires VE.Inv(OneSlot(pipeline), r) && Matches(OneSlot(pipeline), s, r)
    requires s.now == 0 && r.window[pipeline] == DISPLACED && HandleOf(s.handles, HOLDER) == Waiting(pipeline)
    ensures Step(OneSlot(pipeline), s, LEAVE) == Ok(after)
    ensures after.now == 0 && |after.window| == pipeline + 1
    ensures HandleOf(after.handles, HOLDER) == E.Set(Waiting(pipeline), PAST, Consensus, pipeline, 0)
    ensures forall i | 0 <= i < pipeline :: after.window[i] == s.window[i]
  {
    hide Agree, Ranked, Full, Retire, AfterRemoval, WriteState, E.Set, Tracked, StatesAt;
    var c := OneSlot(pipeline);
    LateMatches(c, s, r, pipeline);
    assert Seen(c, s).window[pipeline] == DISPLACED;
    LeaveWrites(pipeline, s.handles);
    after := Step(c, s, LEAVE).value;
    forall i | 0 <= i < pipeline ensures after.window[i] == s.window[i] {
      assert EntriesOf(Seen(c, s).window[i]) == s.window[i];
    }
  }

  // ---- The exact condition ----

  /** Positions, states and sets agree at every epoch of the window, in every reachable state. */
  ghost predicate StatesAgree(pipeline: nat) {
    forall c: VE.Config, genesis: seq<VE.GenesisOp>, ops: seq<VE.Op>, i: nat
      | c.pipeline == pipeline && c.slots >= 1 && i <= pipeline ::
      Agree(SetsAt(c, After(c, genesis, ops), i), c.threshold)
  }

  /** That is so exactly with a pipeline of at most two epochs. */
  lemma StatesAgreeExactly(pipeline: nat)
    ensures StatesAgree(pipeline) <==> pipeline <= 2
  {
    hide SetsAt, After, Agree;
    if pipeline <= 2 {
      forall c: VE.Config, genesis: seq<VE.GenesisOp>, ops: seq<VE.Op>, i: nat
        | c.pipeline == pipeline && c.slots >= 1 && i <= pipeline
        ensures Agree(SetsAt(c, After(c, genesis, ops), i), c.threshold)
      {
        RunTopN(c, genesis, ops, i);
      }
    } else {
      var c := OneSlot(pipeline);
      FailingRun(pipeline, 0);
      var sets := SetsAt(c, After(c, GENESIS, [DISPLACE, LEAVE]), 0);
      assert Key(10, 0) in sets.consensus;
      if Agree(sets, c.threshold) {
        MemberKey(sets, c.threshold, Key(10, 0));
      }
      assert !Agree(SetsAt(c, After(c, GENESIS, [DISPLACE, LEAVE]), 0), c.threshold);
    }
  }

  // ---- Jailing ----

  /** In every reachable state, a validator that is in a set of the next epoch can be jailed from that epoch on. */
  ghost predicate JailingSafe(pipeline: nat) {
    forall c: VE.Config, genesis: seq<VE.GenesisOp>, ops: seq<VE.Op>, v: Address, infraction: Option<Epoch>
      | c.pipeline == pipeline >= 1 && c.slots >= 1 && v in SetsAt(c, After(c, genesis, ops), 1).positions ::
      Step(c, After(c, genesis, ops), VE.JailFrom(v, 1, infraction)).Ok?
  }

  lemma CanBeJailed(c: VE.Config, s: State, v: Address, infraction: Option<Epoch>)
    requires 1 <= c.pipeline <= 3 && Inv(c, s) && |s.window| == c.pipeline + 1 && v in SetsAt(c, s, 1).positions
    ensures Step(c, s, VE.JailFrom(v, 1, infraction)).Ok?
  {
    hide Agree, Ranked, Full, Tracked, StatesAt, VE.JailedWindow;
    var r: VE.State :| VE.Inv(c, r) && Matches(c, s, r);
    LateMatches(c, s, r, 1);
    PositionHeld(r.window[1], c.threshold, v);
    forall i | 1 <= i <= c.pipeline ensures v in Seen(c, s).window[i].states {
      LateMatches(c, s, r, i);
      assert Seen(c, s).window[i] == SetsAt(c, s, i);
    }
  }

  /** With a longer pipeline the missing state is a panic. */
  lemma JailingSafeExactly(pipeline: nat)
    ensures JailingSafe(pipeline) <==> pipeline <= 3
  {
    hide SetsAt, After, Inv, Step;
    if pipeline <= 3 {
      forall c: VE.Config, genesis: seq<VE.GenesisOp>, ops: seq<VE.Op>, v: Address, infraction: Option<Epoch>
        | c.pipeline == pipeline >= 1 && c.slots >= 1 && v in SetsAt(c, After(c, genesis, ops), 1).positions
        ensures Step(c, After(c, genesis, ops), VE.JailFrom(v, 1, infraction)).Ok?
      {
        RunInv(c, genesis, ops);
        CanBeJailed(c, After(c, genesis, ops), v, infraction);
      }
    } else {
      var c := OneSlot(pipeline);
      var s := After(c, GENESIS, [DISPLACE, LEAVE]);
      FailingRun(pipeline, 1);
      CannotBeJailed(c, s, HOLDER);
      assert HOLDER in SetsAt(c, After(c, GENESIS, [DISPLACE, LEAVE]), 1).positions;
      assert Step(c, After(c, GENESIS, [DISPLACE, LEAVE]), VE.JailFrom(HOLDER, 1, None)).Err?;
    }
  }

  lemma CannotBeJailed(c: VE.Config, s: State, v: Address)
    requires c.pipeline >= 1 && |s.window| == c.pipeline + 1 && v !in SetsAt(c, s, 1).states
    ensures Step(c, s, VE.JailFrom(v, 1, None)) == Err(VE.NotAValidator)
  {
    assert Seen(c, s).window[1] == SetsAt(c, s, 1);
  }
}
