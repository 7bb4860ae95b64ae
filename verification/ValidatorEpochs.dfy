/** The validator sets from the current epoch to the pipeline epoch, and the operations on them, with the states of every
    epoch of the window at hand. How the states are stored and what is left of them is the subject of `ValidatorStates`. */
module ValidatorEpochs {
  import opened Types
  import opened ValidatorSets

  /** `window[i]` holds the sets of epoch `now + i`; the last one is the pipeline epoch. */
  datatype State = State(now: Epoch, window: seq<Sets>, lastSlash: map<Address, Epoch>)

  datatype Config = Config(pipeline: nat, slots: nat, threshold: Amount, slashProcessing: nat)

  datatype Error =
    | AlreadyValidator | NotAValidator | AlreadyInactive | ValidatorIsJailed | NotJailed | NotEligible | NotInactive
    | NoStateFound

  datatype Op =
    | BecomeValidator(validator: Address)
    /** A bond, unbond or redelegation that leaves the validator with this stake at the pipeline epoch. */
    | ChangeStake(validator: Address, stake: Amount)
    /** Jailing from an epoch offset on, for an infraction or for missed votes. */
    | JailFrom(validator: Address, offset: nat, infraction: Option<Epoch>)
    | Unjail(validator: Address)
    | Deactivate(validator: Address)
    | Reactivate(validator: Address)
    | NextEpoch

  function AtPipeline(c: Config, s: State): Sets
    requires |s.window| == c.pipeline + 1
  {
    s.window[c.pipeline]
  }

  function WithPipeline(c: Config, s: State, sets: Sets): (r: State)
    requires |s.window| == c.pipeline + 1
    ensures |r.window| == c.pipeline + 1
  {
    s.(window := s.window[c.pipeline := sets])
  }

  predicate HasState(s: State, from: nat, v: Address) {
    forall i | from <= i < |s.window| :: v in s.window[i].states
  }

  /** The first epoch of the window, from an offset on, at which the validator is not in the state. */
  function FirstNot(window: seq<Sets>, v: Address, state: ValidatorState, i: nat): (r: Option<nat>)
    requires i <= |window|
    ensures r.Some? ==> i <= r.value < |window| && !HasStateAt(window, v, state, r.value)
    ensures forall j | i <= j < (if r.Some? then r.value else |window|) :: HasStateAt(window, v, state, j)
    decreases |window| - i
  {
    if i == |window| then None
    else if HasStateAt(window, v, state, i) then FirstNot(window, v, state, i + 1)
    else Some(i)
  }

  predicate HasStateAt(window: seq<Sets>, v: Address, state: ValidatorState, i: nat)
    requires i < |window|
  {
    v in window[i].states && window[i].states[v] == state
  }

  /** A validator can come back once all its slashes are processed. */
  predicate Eligible(c: Config, s: State, v: Address) {
    v in s.lastSlash ==> s.lastSlash[v] + c.slashProcessing <= s.now
  }

  function LastSlash(s: State, v: Address, infraction: Option<Epoch>): map<Address, Epoch> {
    if infraction.Some? && (v !in s.lastSlash || infraction.value > s.lastSlash[v])
    then s.lastSlash[v := infraction.value]
    else s.lastSlash
  }

  /** Jail at every epoch of the window from an offset on; only the pipeline epoch promotes. */
  function JailedWindow(c: Config, window: seq<Sets>, v: Address, from: nat): (r: seq<Sets>)
    requires |window| == c.pipeline + 1 && v in window[c.pipeline].states
    ensures |r| == |window|
  {
    seq(|window|, i requires 0 <= i < |window| =>
      if i < from then window[i]
      else if i < c.pipeline then Remove(window[i], v, Jailed)
      else Retire(window[i], v, Jailed))
  }

  function Step(c: Config, s: State, op: Op): Result<State, Error>
    requires |s.window| == c.pipeline + 1
  {
    var sets := AtPipeline(c, s);
    match op
    case BecomeValidator(v) =>
      if v in sets.states then Err(AlreadyValidator)
      else Ok(WithPipeline(c, s, Become(sets, c.slots, c.threshold, v)))
    case ChangeStake(v, stake) =>
      if v !in sets.states then Err(NotAValidator)
      else Ok(WithPipeline(c, s, Change(sets, c.slots, c.threshold, v, stake)))
    case JailFrom(v, offset, infraction) =>
      // A missing state is a panic.
      if !HasState(s, offset, v) || offset > c.pipeline then Err(NotAValidator)
      else Ok(State(s.now, JailedWindow(c, s.window, v, offset), LastSlash(s, v, infraction)))
    case Unjail(v) =>
      var other := FirstNot(s.window, v, Jailed, 0);
      if other.Some? then Err(if v in s.window[other.value].states then NotJailed else NotAValidator)
      else if !Eligible(c, s, v) then Err(NotEligible)
      else Ok(WithPipeline(c, s, Place(sets, c.slots, c.threshold, v)))
    case Deactivate(v) =>
      if v !in sets.states then Err(NotAValidator)
      else if sets.states[v] == Inactive then Err(AlreadyInactive)
      else if sets.states[v] == Jailed then Err(ValidatorIsJailed)
      else Ok(WithPipeline(c, s, Retire(sets, v, Inactive)))
    case Reactivate(v) =>
      var other := FirstNot(s.window, v, Inactive, 0);
      if other.Some? then Err(if v in s.window[other.value].states then NotInactive else NoStateFound)
      else if !Eligible(c, s, v) then Ok(WithPipeline(c, s, SetState(sets, v, Jailed)))
      else Ok(WithPipeline(c, s, Place(sets, c.slots, c.threshold, v)))
    case NextEpoch => Ok(State(s.now + 1, s.window[1..] + [sets], s.lastSlash))
  }

  // ---- Genesis ----

  datatype GenesisOp = GenesisValidator(validator: Address) | GenesisBond(validator: Address, stake: Amount)

  /** The sets that genesis builds at the first epoch; an impossible operation is skipped. */
  function GenesisSets(c: Config, ops: seq<GenesisOp>): Sets {
    if ops == [] then EMPTY
    else
      var sets := GenesisSets(c, ops[..|ops| - 1]);
      match ops[|ops| - 1]
      case GenesisValidator(v) => if v in sets.states then sets else Become(sets, c.slots, c.threshold, v)
      case GenesisBond(v, stake) => if v !in sets.states then sets else Change(sets, c.slots, c.threshold, v, stake)
  }

  lemma StepWindow(c: Config, s: State, op: Op)
    requires |s.window| == c.pipeline + 1
    ensures Step(c, s, op).Ok? ==> |Step(c, s, op).value.window| == c.pipeline + 1
  {
  }

  // ---- The invariant ----

  /** Positions, states and sets agree and are ranked at every epoch; at the pipeline epoch the consensus set is also full
      before anyone waits. A validator has a state at every epoch once it has one. */
  ghost predicate Inv(c: Config, s: State) {
    && |s.window| == c.pipeline + 1 && Lasting(s.window)
    && (forall i | 0 <= i < |s.window| :: Agree(s.window[i], c.threshold) && Ranked(s.window[i], c.slots))
    && Full(AtPipeline(c, s), c.slots)
  }

  ghost predicate Lasting(window: seq<Sets>) {
    forall i, j, v | 0 <= i <= j < |window| && v in window[i].states :: v in window[j].states
  }

  lemma MovesKeep(s: Sets, v: Address, w: Address)
    requires w in s.states
    ensures w in Promote(s).states && w in Demote(s).states && w in Detach(s, v).states
    ensures w in AttachConsensus(s, v).states && w in AttachBelow(s, v).states
  {
    hide NextPosition, FirstOfMax, LastOfMin;
  }

  lemma PlaceKeeps(s: Sets, slots: nat, threshold: Amount, v: Address, w: Address)
    requires w in s.states
    ensures w in Place(s, slots, threshold, v).states
  {
    hide AttachConsensus, AttachBelow, Demote, Promote, Detach, MinAmount, Count;
    MovesKeep(s, v, w);
    MovesKeep(Demote(s), v, w);
  }

  lemma ChangeIs(s: Sets, slots: nat, threshold: Amount, v: Address, stake: Amount)
    requires v in s.states
    ensures var r, d := Change(s, slots, threshold, v, stake), SetStake(Detach(s, v), v, stake);
            || r == SetStake(s, v, stake) || r == SetState(d, v, BelowThreshold)
            || r == Promote(SetState(d, v, BelowThreshold)) || r == AttachBelow(Promote(d), v)
            || r == AttachConsensus(d, v) || r == AttachConsensus(Demote(d), v) || r == AttachBelow(d, v)
            || r == Place(d, slots, threshold, v)
  {
    hide AttachConsensus, AttachBelow, Demote, Promote, MinAmount, MaxAmount, Place, Detach;
  }

  lemma ChangeKeeps(s: Sets, slots: nat, threshold: Amount, v: Address, stake: Amount, w: Address)
    requires v in s.states && w in s.states
    ensures w in Change(s, slots, threshold, v, stake).states
  {
    hide AttachConsensus, AttachBelow, Demote, Promote, Change, Place, Detach;
    var d := SetStake(Detach(s, v), v, stake);
    ChangeIs(s, slots, threshold, v, stake);
    MovesKeep(s, v, w);
    MovesKeep(d, v, w);
    MovesKeep(SetState(d, v, BelowThreshold), v, w);
    MovesKeep(Promote(d), v, w);
    MovesKeep(Demote(d), v, w);
    PlaceKeeps(d, slots, threshold, v, w);
  }

  lemma BecomeKeeps(s: Sets, slots: nat, threshold: Amount, v: Address, w: Address)
    requires w in s.states
    ensures w in Become(s, slots, threshold, v).states
  {
    hide Place;
    PlaceKeeps(SetState(SetStake(s, v, 0), v, Inactive), slots, threshold, v, w);
  }

  lemma RetireKeeps(s: Sets, v: Address, state: ValidatorState, w: Address)
    requires w in s.states
    ensures v in s.states ==> w in Retire(s, v, state).states
  {
    hide Promote, AttachConsensus, AttachBelow, Demote, Detach;
    MovesKeep(s, v, w);
    MovesKeep(Remove(s, v, state), v, w);
  }

  lemma PipelineInv(c: Config, s: State, sets: Sets)
    requires Inv(c, s) && TopN(sets, c.slots, c.threshold) && forall w | w in AtPipeline(c, s).states :: w in sets.states
    ensures Inv(c, WithPipeline(c, s, sets))
  {
    hide Agree, Ranked, Full;
  }

  lemma AtPipelineTopN(c: Config, s: State)
    requires Inv(c, s)
    ensures TopN(AtPipeline(c, s), c.slots, c.threshold)
  {
    hide Agree, Ranked, Full;
    assert s.window[c.pipeline] == AtPipeline(c, s);
  }

  lemma JailInv(c: Config, s: State, v: Address, from: nat)
    requires c.slots >= 1 && Inv(c, s) && HasState(s, from, v) && from <= c.pipeline
    ensures Inv(c, s.(window := JailedWindow(c, s.window, v, from)))
  {
    hide Agree, Ranked, Full, Remove, Retire;
    var jailed := JailedWindow(c, s.window, v, from);
    AtPipelineTopN(c, s);
    RetireTopN(s.window[c.pipeline], c.slots, c.threshold, v, Jailed);
    forall i | 0 <= i < |jailed| ensures Agree(jailed[i], c.threshold) && Ranked(jailed[i], c.slots) {
      if from <= i < c.pipeline {
        RemoveKeeps(s.window[i], c.slots, c.threshold, v, Jailed);
      }
    }
    JailLasting(c, s.window, v, from);
  }

  lemma RemovedStates(s: Sets, v: Address, state: ValidatorState)
    ensures Remove(s, v, state).states.Keys == s.states.Keys + {v}
  {
  }

  lemma JailLasting(c: Config, window: seq<Sets>, v: Address, from: nat)
    requires |window| == c.pipeline + 1 && Lasting(window) && forall i | from <= i <= c.pipeline :: v in window[i].states
    ensures v in window[c.pipeline].states ==> Lasting(JailedWindow(c, window, v, from))
  {
    hide Retire, Remove;
    if v in window[c.pipeline].states {
      var jailed := JailedWindow(c, window, v, from);
      forall i, j, w | 0 <= i <= j <= c.pipeline && w in jailed[i].states ensures w in jailed[j].states {
        if i < c.pipeline {
          RemovedStates(window[i], v, Jailed);
          RemovedStates(window[j], v, Jailed);
          assert w in window[i].states && w in window[j].states;
          RetireKeeps(window[j], v, Jailed, w);
        }
      }
    }
  }

  lemma EpochInv(c: Config, s: State)
    requires Inv(c, s)
    ensures Inv(c, State(s.now + 1, s.window[1..] + [AtPipeline(c, s)], s.lastSlash))
  {
    hide Agree, Ranked, Full;
    var next := s.window[1..] + [AtPipeline(c, s)];
    forall i | 0 <= i < |next| ensures Agree(next[i], c.threshold) && Ranked(next[i], c.slots) {
      assert next[i] == if i < c.pipeline then s.window[i + 1] else s.window[c.pipeline];
    }
  }

  /** A validator that is jailed or inactive is put back. */
  lemma PlaceBack(c: Config, s: State, v: Address)
    requires c.slots >= 1 && Inv(c, s) && v in AtPipeline(c, s).states && Detached(AtPipeline(c, s).states[v])
    ensures Inv(c, WithPipeline(c, s, Place(AtPipeline(c, s), c.slots, c.threshold, v)))
    ensures Inv(c, WithPipeline(c, s, SetState(AtPipeline(c, s), v, Jailed)))
  {
    hide Agree, Ranked, Full, Place;
    var sets := AtPipeline(c, s);
    AtPipelineTopN(c, s);
    PositionHeld(sets, c.threshold, v);
    PlaceTopN(sets, c.slots, c.threshold, v);
    forall w | w in sets.states ensures w in Place(sets, c.slots, c.threshold, v).states {
      PlaceKeeps(sets, c.slots, c.threshold, v, w);
    }
    PipelineInv(c, s, Place(sets, c.slots, c.threshold, v));
    StateOnly(sets, c.slots, c.threshold, v);
    PipelineInv(c, s, SetState(sets, v, Jailed));
  }

  lemma StateOnly(sets: Sets, slots: nat, threshold: Amount, v: Address)
    requires TopN(sets, slots, threshold) && v in sets.states && v !in sets.positions
    ensures TopN(SetState(sets, v, Jailed), slots, threshold)
  {
    hide Agree;
    SetStateAgree(sets, threshold, v, Jailed);
  }

  lemma StepInv(c: Config, s: State, op: Op)
    requires c.slots >= 1 && Inv(c, s) && Step(c, s, op).Ok?
    ensures Inv(c, Step(c, s, op).value)
  {
    hide Agree, Ranked, Full, Place, Become, Change, Retire, Remove, FirstNot;
    var sets := AtPipeline(c, s);
    AtPipelineTopN(c, s);
    match op
    case BecomeValidator(v) =>
      BecomeTopN(sets, c.slots, c.threshold, v);
      forall w | w in sets.states ensures w in Become(sets, c.slots, c.threshold, v).states {
        BecomeKeeps(sets, c.slots, c.threshold, v, w);
      }
      PipelineInv(c, s, Become(sets, c.slots, c.threshold, v));
    case ChangeStake(v, stake) =>
      ChangeTopN(sets, c.slots, c.threshold, v, stake);
      forall w | w in sets.states ensures w in Change(sets, c.slots, c.threshold, v, stake).states {
        ChangeKeeps(sets, c.slots, c.threshold, v, stake, w);
      }
      PipelineInv(c, s, Change(sets, c.slots, c.threshold, v, stake));
    case JailFrom(v, offset, infraction) => JailInv(c, s, v, offset);
    case Unjail(v) =>
      assert HasStateAt(s.window, v, Jailed, c.pipeline);
      PlaceBack(c, s, v);
    case Deactivate(v) =>
      RetireTopN(sets, c.slots, c.threshold, v, Inactive);
      forall w | w in sets.states ensures w in Retire(sets, v, Inactive).states {
        RetireKeeps(sets, v, Inactive, w);
      }
      PipelineInv(c, s, Retire(sets, v, Inactive));
    case Reactivate(v) =>
      assert HasStateAt(s.window, v, Inactive, c.pipeline);
      PlaceBack(c, s, v);
    case NextEpoch => EpochInv(c, s);
  }

  lemma {:induction false} GenesisTopN(c: Config, ops: seq<GenesisOp>)
    requires c.slots >= 1
    ensures TopN(GenesisSets(c, ops), c.slots, c.threshold)
    decreases |ops|
  {
    hide TopN, Become, Change;
    if ops == [] {
      EmptyTopN(c);
    } else {
      GenesisTopN(c, ops[..|ops| - 1]);
      var sets := GenesisSets(c, ops[..|ops| - 1]);
      match ops[|ops| - 1]
      case GenesisValidator(v) =>
        if v !in sets.states {
          BecomeTopN(sets, c.slots, c.threshold, v);
        }
      case GenesisBond(v, stake) =>
        if v in sets.states {
          ChangeTopN(sets, c.slots, c.threshold, v, stake);
        }
    }
  }

  lemma EmptyTopN(c: Config)
    ensures TopN(EMPTY, c.slots, c.threshold)
  {
  }
}
