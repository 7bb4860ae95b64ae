/** The validator states as they are stored: one handle per validator that holds its states by epoch and is trimmed at every
    write. A promotion, and the jailing of an inactive validator that comes back, write with the pipeline epoch as the
    current one, so they trim epochs that are still in the window. */
module ValidatorStates {
  import opened Types
  import opened ValidatorSets
  import E = Epoched
  import VE = ValidatorEpochs

  type Handle = E.Discrete<ValidatorState>

  type History = map<Epoch, ValidatorState>

  type Handles = map<Address, Handle>

  /** The epochs that a handle keeps behind its last update. */
  const PAST: nat := 2

  /** The current epoch of a write and the offset of the epoch that it is for. */
  datatype Time = At(current: Epoch, offset: nat)

  function HandleOf(h: Handles, v: Address): Handle {
    if v in h then h[v] else E.Discrete(map[], None, None)
  }

  function ReadState(pipeline: nat, h: Handles, v: Address, e: Epoch): Option<ValidatorState> {
    E.ValueAt(HandleOf(h, v), pipeline, PAST, e)
  }

  function WriteState(h: Handles, v: Address, state: ValidatorState, t: Time): Handles {
    h[v := E.Set(HandleOf(h, v), PAST, state, t.current, t.offset)]
  }

  // ---- The states that the operations on the sets write ----

  function AfterPromote(s: Sets, h: Handles, t: Time): Handles {
    if s.below == map[] then h else WriteState(h, s.below[FirstOfMax(s.below)], Consensus, t)
  }

  function AfterDemote(s: Sets, h: Handles, t: Time): Handles {
    if s.consensus == map[] then h else WriteState(h, s.consensus[LastOfMin(s.consensus)], BelowCapacity, t)
  }

  function AfterPlace(s: Sets, slots: nat, threshold: Amount, v: Address, h: Handles, t: Time): Handles {
    var stake := StakeOf(s, v);
    if stake < threshold then WriteState(h, v, BelowThreshold, t)
    else if Count(s.consensus) < slots then WriteState(h, v, Consensus, t)
    else if stake > MinAmount(s.consensus) then WriteState(AfterDemote(s, h, t), v, Consensus, t)
    else WriteState(h, v, BelowCapacity, t)
  }

  /** A validator that stays in the consensus set keeps its state; one that stays below capacity gets it again. */
  function AfterUpdate(s: Sets, slots: nat, threshold: Amount, v: Address, post: Amount, h: Handles, t: Time): Handles
    requires v in s.states
  {
    var pre := StakeOf(s, v);
    if post == pre || (pre < threshold && post < threshold) then h
    else
      var d := SetStake(Detach(s, v), v, post);
      match s.states[v]
      case Consensus =>
        if post < threshold then AfterPromote(d, WriteState(h, v, BelowThreshold, t), t)
        else if post < MaxAmount(d.below) then WriteState(AfterPromote(d, h, t), v, BelowCapacity, t)
        else h
      case BelowCapacity =>
        if post > MinAmount(d.consensus) then WriteState(AfterDemote(d, h, t), v, Consensus, t)
        else if post >= threshold then WriteState(h, v, BelowCapacity, t)
        else WriteState(h, v, BelowThreshold, t)
      case _ => AfterPlace(d, slots, threshold, v, h, t)
  }

  function AfterChange(s: Sets, slots: nat, threshold: Amount, v: Address, post: Amount, h: Handles, t: Time): Handles
    requires v in s.states
  {
    if Detached(s.states[v]) then h else AfterUpdate(s, slots, threshold, v, post, h, t)
  }

  /** A new validator is below the threshold until it is placed. */
  function AfterBecome(s: Sets, slots: nat, threshold: Amount, v: Address, h: Handles, t: Time): Handles {
    AfterPlace(SetState(SetStake(s, v, 0), v, Inactive), slots, threshold, v, WriteState(h, v, BelowThreshold, t), t)
  }

  /** The promotion after a consensus validator left: its write has the pipeline epoch as the current one. */
  function AfterRemoval(s: Sets, v: Address, h: Handles, pipelineEpoch: Epoch): Handles
    requires v in s.states
  {
    if s.states[v] == Consensus then AfterPromote(Detach(s, v), h, At(pipelineEpoch, 0)) else h
  }

  /** A validator is jailed at every offset from one on, up to another one. */
  function AfterJailing(h: Handles, v: Address, now: Epoch, from: nat, upto: nat): Handles
    decreases upto
  {
    if upto <= from then h else WriteState(AfterJailing(h, v, now, from, upto - 1), v, Jailed, At(now, upto - 1))
  }

  // ---- The stored state ----

  /** The sets of one epoch without the states. */
  datatype Entries = Entries(
    consensus: map<Key, Address>,
    below: map<Key, Address>,
    positions: map<Address, Position>,
    stakes: map<Address, Amount>)

  function EntriesOf(s: Sets): Entries {
    Entries(s.consensus, s.below, s.positions, s.stakes)
  }

  datatype State = State(now: Epoch, window: seq<Entries>, handles: Handles, lastSlash: map<Address, Epoch>)

  function StatesAt(pipeline: nat, h: Handles, e: Epoch): map<Address, ValidatorState> {
    map v | v in h && ReadState(pipeline, h, v, e).Some? :: ReadState(pipeline, h, v, e).value
  }

  /** The sets of an epoch of the window with the states that are read for it. */
  function SetsAt(c: VE.Config, s: State, i: nat): Sets
    requires i < |s.window|
  {
    var e := s.window[i];
    Sets(e.consensus, e.below, e.positions, StatesAt(c.pipeline, s.handles, s.now + i), e.stakes)
  }

  /** Everything that the operations read. */
  function Seen(c: VE.Config, s: State): (r: VE.State)
    ensures |r.window| == |s.window|
  {
    VE.State(s.now, seq(|s.window|, i requires 0 <= i < |s.window| => SetsAt(c, s, i)), s.lastSlash)
  }

  function Stripped(window: seq<Sets>): (r: seq<Entries>)
    ensures |r| == |window|
  {
    seq(|window|, i requires 0 <= i < |window| => EntriesOf(window[i]))
  }

  function Written(c: VE.Config, s: State, op: VE.Op): Handles
    requires |s.window| == c.pipeline + 1
  {
    var sets, h, t, pipelineEpoch := SetsAt(c, s, c.pipeline), s.handles, At(s.now, c.pipeline), s.now + c.pipeline;
    match op
    case BecomeValidator(v) => AfterBecome(sets, c.slots, c.threshold, v, h, t)
    case ChangeStake(v, stake) =>
      if v in sets.states then AfterChange(sets, c.slots, c.threshold, v, stake, h, t) else h
    case JailFrom(v, offset, _) =>
      if v in sets.states then AfterJailing(AfterRemoval(sets, v, h, pipelineEpoch), v, s.now, offset, c.pipeline + 1) else h
    case Unjail(v) => AfterPlace(sets, c.slots, c.threshold, v, h, t)
    case Deactivate(v) =>
      if v in sets.states then WriteState(AfterRemoval(sets, v, h, pipelineEpoch), v, Inactive, t) else h
    case Reactivate(v) =>
      if !VE.Eligible(c, Seen(c, s), v) then WriteState(h, v, Jailed, At(pipelineEpoch, 0))
      else AfterPlace(sets, c.slots, c.threshold, v, h, t)
    case NextEpoch => h
  }

  /** The sets change by what is seen; the states change by the writes to their handles. */
  function Step(c: VE.Config, s: State, op: VE.Op): (r: Result<State, VE.Error>)
    requires |s.window| == c.pipeline + 1
    ensures r.Ok? ==> |r.value.window| == c.pipeline + 1
  {
    var seen := VE.Step(c, Seen(c, s), op);
    if seen.Err? then Err(seen.error)
    else
      VE.StepWindow(c, Seen(c, s), op);
      Ok(State(seen.value.now, Stripped(seen.value.window), Written(c, s, op), seen.value.lastSlash))
  }

  // ---- A handle follows the states of one validator ----

  /** The handle agrees with everything ever written; nothing is written past the pipeline epoch, and the oldest epoch kept
      is not past the current one or two epochs before the pipeline epoch. */
  ghost predicate Tracks(pipeline: nat, now: Epoch, d: Handle, history: History) {
    && E.Agrees(d, PAST, history)
    && (forall k | k in history :: k <= now + pipeline)
    && (d.oldest.Some? ==>
          && (forall k | k in history :: k <= d.lastUpdate.value + pipeline)
          && d.oldest.value <= d.lastUpdate.value + pipeline
          && d.oldest.value <= Max(now, Monus(now + pipeline, PAST)))
  }

  lemma TrackWrite(pipeline: nat, now: Epoch, d: Handle, history: History, state: ValidatorState, t: Time)
    requires Tracks(pipeline, now, d, history)
    requires now <= t.current && t.current + t.offset <= now + pipeline
    requires if d.oldest.Some? then d.oldest.value <= t.current + t.offset else t.current == now
    ensures Tracks(pipeline, now, E.Set(d, PAST, state, t.current, t.offset), history[t.current + t.offset := state])
  {
    hide E.Agrees, E.Trim;
    E.SetAgrees(d, PAST, history, E.Write(state, t.current, t.offset));
    assert d.lastUpdate.Some? <==> d.oldest.Some? by {
      AgreesUpdated(d, history);
    }
    E.TrimOldest(d, PAST, t.current);
    E.TrimUpdates(d, PAST, t.current);
  }

  lemma AgreesUpdated(d: Handle, history: History)
    requires E.Agrees(d, PAST, history)
    ensures d.lastUpdate.Some? <==> d.oldest.Some?
    ensures d.oldest.None? ==> history == map[]
  {
  }

  /** The states at the epochs from the current one on, as the history has them. */
  ghost predicate Records(history: History, now: Epoch, states: seq<Option<ValidatorState>>) {
    forall i | 0 <= i < |states| :: E.LatestAt(history, now + i) == states[i]
  }

  /** The handle was written so that the states at the epochs of the window are these. */
  ghost predicate Follows(pipeline: nat, now: Epoch, d: Handle, states: seq<Option<ValidatorState>>) {
    exists history: History :: Tracks(pipeline, now, d, history) && Records(history, now, states)
  }

  /** A read is the state of the epoch; only before the last three epochs of the window it may be missing. */
  lemma FollowsReads(pipeline: nat, now: Epoch, d: Handle, states: seq<Option<ValidatorState>>, i: nat)
    requires Follows(pipeline, now, d, states) && i < |states| && i <= pipeline
    ensures var read := E.ValueAt(d, pipeline, PAST, now + i);
            && (read == states[i] || read == None)
            && (pipeline <= i + PAST ==> read == states[i])
            && (read.Some? ==> d.oldest.Some? && d.oldest.value <= now + i)
  {
    hide E.LatestAt, E.WalkDown;
    var history: History :| Tracks(pipeline, now, d, history) && Records(history, now, states);
    if d.oldest.Some? {
      E.ReadAgrees(d, pipeline, PAST, history, now + i);
      if d.lastUpdate.value + pipeline < now + i {
        E.NoneAbove(history, d.lastUpdate.value + pipeline, now + i);
      }
    } else {
      E.LatestIsNone(history, now + i);
    }
  }

  /** A write for the pipeline epoch. Only a validator that has a state there is written with that epoch as the current one. */
  lemma FollowsWrite(pipeline: nat, now: Epoch, d: Handle, states: seq<Option<ValidatorState>>, state: ValidatorState,
                     t: Time)
    requires Follows(pipeline, now, d, states) && |states| == pipeline + 1
    requires t == At(now, pipeline) || (t == At(now + pipeline, 0) && states[pipeline].Some?)
    ensures Follows(pipeline, now, E.Set(d, PAST, state, t.current, t.offset), states[pipeline := Some(state)])
  {
    hide E.LatestAt, E.Set, Tracks;
    var history: History :| Tracks(pipeline, now, d, history) && Records(history, now, states);
    WriteLands(pipeline, now, d, history, states);
    TrackWrite(pipeline, now, d, history, state, t);
    var after: History, next := history[now + pipeline := state], states[pipeline := Some(state)];
    forall i | 0 <= i <= pipeline ensures E.LatestAt(after, now + i) == next[i] {
      if i < pipeline {
        E.WriteAbove(history, now + i, now + pipeline, state);
      } else {
        E.LatestIs(after, now + pipeline, now + pipeline);
      }
    }
  }

  lemma WriteLands(pipeline: nat, now: Epoch, d: Handle, history: History,
                   states: seq<Option<ValidatorState>>)
    requires Tracks(pipeline, now, d, history) && Records(history, now, states) && |states| == pipeline + 1
    ensures d.oldest.Some? ==> d.oldest.value <= now + pipeline
    ensures states[pipeline].Some? ==> d.oldest.Some?
  {
    assert E.LatestAt(history, now + pipeline) == states[pipeline];
  }

  /** A new epoch begins: the pipeline epoch moves on with its states. */
  lemma FollowsNext(pipeline: nat, now: Epoch, d: Handle, states: seq<Option<ValidatorState>>)
    requires Follows(pipeline, now, d, states) && |states| == pipeline + 1
    ensures Follows(pipeline, now + 1, d, states[1..] + [states[pipeline]])
  {
    hide E.LatestAt, E.Agrees;
    var history: History :| Tracks(pipeline, now, d, history) && Records(history, now, states);
    var next := states[1..] + [states[pipeline]];
    forall i | 0 <= i <= pipeline ensures E.LatestAt(history, now + 1 + i) == next[i] {
      if i == pipeline {
        E.NoneAbove(history, now + pipeline, now + 1 + pipeline);
      } else {
        assert E.LatestAt(history, now + (i + 1)) == states[i + 1];
      }
    }
    assert Tracks(pipeline, now + 1, d, history);
    assert Records(history, now + 1, next);
  }

  /** At genesis the states are written for the first epoch and hold for the whole window. */
  lemma FollowsGenesis(pipeline: nat, d: Handle, state: Option<ValidatorState>)
    requires Follows(0, 0, d, [state])
    ensures Follows(pipeline, 0, d, seq(pipeline + 1, _ => state))
  {
    hide E.LatestAt, E.Agrees;
    var history: History :| Tracks(0, 0, d, history) && Records(history, 0, [state]);
    var states := seq(pipeline + 1, _ => state);
    forall i | 0 <= i <= pipeline ensures E.LatestAt(history, 0 + i) == states[i] {
      assert E.LatestAt(history, 0 + 0) == [state][0];
      E.NoneAbove(history, 0, i);
    }
    assert Tracks(pipeline, 0, d, history);
    assert Records(history, 0, states);
  }

  // ---- Jailing ----

  /** The handle after the validator is jailed at the offsets of a range. */
  function Jailings(d: Handle, now: Epoch, from: nat, upto: nat): Handle
    decreases upto
  {
    if upto <= from then d else E.Set(Jailings(d, now, from, upto - 1), PAST, Jailed, now, upto - 1)
  }

  function JailedFrom(states: seq<Option<ValidatorState>>, from: nat): (r: seq<Option<ValidatorState>>)
    ensures |r| == |states|
  {
    seq(|states|, i requires 0 <= i < |states| => if i < from then states[i] else Some(Jailed))
  }

  /** Jailing from an epoch on that still has its state. */
  lemma {:induction false} JailingsFollow(pipeline: nat, now: Epoch, d: Handle, history: History,
                                          states: seq<Option<ValidatorState>>, from: nat, upto: nat)
      returns (after: History)
    requires Tracks(pipeline, now, d, history) && Records(history, now, states) && |states| == pipeline + 1
    requires from <= upto <= pipeline + 1 && d.oldest.Some? && d.oldest.value <= now + from
    ensures Tracks(pipeline, now, Jailings(d, now, from, upto), after)
    ensures Jailings(d, now, from, upto).oldest.Some? && Jailings(d, now, from, upto).oldest.value <= now + from
    ensures forall i | 0 <= i < upto :: E.LatestAt(after, now + i) == JailedFrom(states, from)[i]
    decreases upto
  {
    hide E.LatestAt, E.Trim, Tracks;
    if upto == from {
      after := history;
    } else {
      var before := JailingsFollow(pipeline, now, d, history, states, from, upto - 1);
      var e := Jailings(d, now, from, upto - 1);
      after := before[now + upto - 1 := Jailed];
      TrackWrite(pipeline, now, e, before, Jailed, At(now, upto - 1));
      assert e.lastUpdate.Some? <==> e.oldest.Some? by {
        TracksUpdated(pipeline, now, e, before);
      }
      E.TrimOldest(e, PAST, now);
      E.LatestIs(after, now + upto - 1, now + upto - 1);
      forall e: Epoch | e < now + upto - 1 ensures E.LatestAt(after, e) == E.LatestAt(before, e) {
        E.WriteAbove(before, e, now + upto - 1, Jailed);
      }
    }
  }

  lemma TracksUpdated(pipeline: nat, now: Epoch, d: Handle, history: History)
    requires Tracks(pipeline, now, d, history)
    ensures d.lastUpdate.Some? <==> d.oldest.Some?
  {
  }

  lemma FollowsJailings(pipeline: nat, now: Epoch, d: Handle, states: seq<Option<ValidatorState>>, from: nat)
    requires Follows(pipeline, now, d, states) && |states| == pipeline + 1
    requires from <= pipeline && d.oldest.Some? && d.oldest.value <= now + from
    ensures Follows(pipeline, now, Jailings(d, now, from, pipeline + 1), JailedFrom(states, from))
  {
    hide E.LatestAt, Tracks;
    var history: History :| Tracks(pipeline, now, d, history) && Records(history, now, states);
    var after := JailingsFollow(pipeline, now, d, history, states, from, pipeline + 1);
    var jailed := JailedFrom(states, from);
    forall i | 0 <= i < |jailed| ensures E.LatestAt(after, now + i) == jailed[i] {
    }
  }

  // ---- All handles ----

  function StateIn(states: map<Address, ValidatorState>, v: Address): Option<ValidatorState> {
    if v in states then Some(states[v]) else None
  }

  /** The states of one validator at the epochs before the pipeline epoch and at the pipeline epoch. */
  function Column(earlier: seq<Sets>, states: map<Address, ValidatorState>,
                  v: Address): (r: seq<Option<ValidatorState>>)
    ensures |r| == |earlier| + 1 && r[|earlier|] == StateIn(states, v)
  {
    seq(|earlier|, i requires 0 <= i < |earlier| => StateIn(earlier[i].states, v)) + [StateIn(states, v)]
  }

  ghost predicate Tracked(now: Epoch, h: Handles, earlier: seq<Sets>, states: map<Address, ValidatorState>) {
    forall v: Address :: Follows(|earlier|, now, HandleOf(h, v), Column(earlier, states, v))
  }

  lemma WriteTracked(now: Epoch, h: Handles, earlier: seq<Sets>, states: map<Address, ValidatorState>, v: Address,
                     state: ValidatorState, t: Time)
    requires Tracked(now, h, earlier, states)
    requires t == At(now, |earlier|) || (t == At(now + |earlier|, 0) && v in states)
    ensures Tracked(now, WriteState(h, v, state, t), earlier, states[v := state])
  {
    hide Follows, E.Set;
    var after, next := WriteState(h, v, state, t), states[v := state];
    forall w: Address ensures Follows(|earlier|, now, HandleOf(after, w), Column(earlier, next, w)) {
      if w == v {
        FollowsWrite(|earlier|, now, HandleOf(h, v), Column(earlier, states, v), state, t);
        assert Column(earlier, next, v) == Column(earlier, states, v)[|earlier| := Some(state)];
      } else {
        assert Column(earlier, next, w) == Column(earlier, states, w);
      }
    }
  }

  // ---- The writes of the operations ----

  /** The time of a write for the pipeline epoch. */
  ghost predicate ForPipeline(now: Epoch, earlier: seq<Sets>, t: Time) {
    t == At(now, |earlier|) || t == At(now + |earlier|, 0)
  }

  lemma PromoteTracked(now: Epoch, h: Handles, earlier: seq<Sets>, states: map<Address, ValidatorState>, s: Sets,
                       threshold: Amount, t: Time)
    requires Tracked(now, h, earlier, states) && ForPipeline(now, earlier, t)
    requires Agree(s, threshold) && forall w | w in s.states && s.states[w] == BelowCapacity :: w in states
    ensures s.below == map[] ==> AfterPromote(s, h, t) == h && Promote(s) == s
    ensures s.below != map[] ==>
              var w := s.below[FirstOfMax(s.below)];
              && w in s.states && s.states[w] == BelowCapacity && Promote(s).states == s.states[w := Consensus]
              && Tracked(now, AfterPromote(s, h, t), earlier, states[w := Consensus])
  {
    hide Tracked, Agree, FirstOfMax, WriteState, AttachConsensus, Detach;
    if s.below != map[] {
      var w := s.below[FirstOfMax(s.below)];
      MemberKey(s, threshold, FirstOfMax(s.below));
      MoveUp(s, threshold, w);
      WriteTracked(now, h, earlier, states, w, Consensus, t);
    }
  }

  lemma DemoteTracked(now: Epoch, h: Handles, earlier: seq<Sets>, states: map<Address, ValidatorState>, s: Sets,
                      threshold: Amount)
    requires Tracked(now, h, earlier, states) && Agree(s, threshold)
    ensures var t := At(now, |earlier|);
            && (s.consensus == map[] ==> AfterDemote(s, h, t) == h && Demote(s) == s)
            && (s.consensus != map[] ==>
                  var w := s.consensus[LastOfMin(s.consensus)];
                  && w in s.states && s.states[w] == Consensus && Demote(s).states == s.states[w := BelowCapacity]
                  && Tracked(now, AfterDemote(s, h, t), earlier, states[w := BelowCapacity]))
  {
    hide Tracked, Agree, LastOfMin, WriteState, AttachBelow, Detach;
    if s.consensus != map[] {
      var w := s.consensus[LastOfMin(s.consensus)];
      MemberKey(s, threshold, LastOfMin(s.consensus));
      MoveDown(s, threshold, w);
      WriteTracked(now, h, earlier, states, w, BelowCapacity, At(now, |earlier|));
    }
  }

  /** Placing a validator that is in no set; `states` are those stored, where the validator's own may differ. */
  lemma PlaceTracked(now: Epoch, h: Handles, earlier: seq<Sets>, states: map<Address, ValidatorState>, s: Sets,
                     slots: nat,
                     threshold: Amount, v: Address)
    requires Tracked(now, h, earlier, states) && Agree(s, threshold)
    requires v in s.states && s.states[v] != Consensus && s.states[v := Inactive] == states[v := Inactive]
    ensures Tracked(now, AfterPlace(s, slots, threshold, v, h, At(now, |earlier|)), earlier,
                    Place(s, slots, threshold, v).states)
  {
    hide Tracked, Agree, LastOfMin, WriteState, MinAmount, Count, AfterDemote, Demote;
    var t, stake := At(now, |earlier|), StakeOf(s, v);
    DemoteTracked(now, h, earlier, states, s, threshold);
    if stake < threshold {
      WriteTracked(now, h, earlier, states, v, BelowThreshold, t);
      Overwritten(s.states, states, v, BelowThreshold);
    } else if Count(s.consensus) < slots {
      AttachedConsensus(s, v);
      WriteTracked(now, h, earlier, states, v, Consensus, t);
      Overwritten(s.states, states, v, Consensus);
    } else if stake > MinAmount(s.consensus) {
      AttachedConsensus(Demote(s), v);
      if s.consensus == map[] {
        WriteTracked(now, h, earlier, states, v, Consensus, t);
        Overwritten(s.states, states, v, Consensus);
      } else {
        var w := s.consensus[LastOfMin(s.consensus)];
        WriteTracked(now, AfterDemote(s, h, t), earlier, states[w := BelowCapacity], v, Consensus, t);
        OverwrittenBoth(s.states, states, w, BelowCapacity, v, Consensus);
      }
    } else {
      AttachedBelow(s, v);
      WriteTracked(now, h, earlier, states, v, BelowCapacity, t);
      Overwritten(s.states, states, v, BelowCapacity);
    }
  }

  /** Maps that differ at most at one key agree once it is overwritten. */
  lemma Overwritten(a: map<Address, ValidatorState>, b: map<Address, ValidatorState>, v: Address, x: ValidatorState)
    requires a[v := Inactive] == b[v := Inactive]
    ensures a[v := x] == b[v := x]
  {
    assert a[v := Inactive][v := x] == a[v := x];
    assert b[v := Inactive][v := x] == b[v := x];
  }

  lemma OverwrittenBoth(a: map<Address, ValidatorState>, b: map<Address, ValidatorState>, w: Address, x: ValidatorState,
                        v: Address, y: ValidatorState)
    requires a[v := Inactive] == b[v := Inactive]
    ensures a[w := x][v := y] == b[w := x][v := y]
  {
    assert a[v := Inactive][w := x][v := y] == a[w := x][v := y];
    assert b[v := Inactive][w := x][v := y] == b[w := x][v := y];
  }

  lemma UpdateConsensusTracked(now: Epoch, h: Handles, earlier: seq<Sets>, s: Sets, slots: nat, threshold: Amount,
                               v: Address,
                               post: Amount)
    requires Tracked(now, h, earlier, s.states) && TopN(s, slots, threshold) && v in s.states && s.states[v] == Consensus
    requires post != StakeOf(s, v) && (post >= threshold || StakeOf(s, v) >= threshold)
    ensures Tracked(now, AfterUpdate(s, slots, threshold, v, post, h, At(now, |earlier|)), earlier,
                    Update(s, slots, threshold, v, post).states)
  {
    hide Tracked, Agree, FirstOfMax, WriteState, Count, Detach, Promote, AttachConsensus, AttachBelow, AfterPromote;
    var t, d := At(now, |earlier|), SetStake(Detach(s, v), v, post);
    Left(s, slots, threshold, v, post);
    Taken(s, threshold, v);
    Overwritten(d.states, s.states, v, Inactive);
    if post < threshold {
      var removed, written := SetState(d, v, BelowThreshold), WriteState(h, v, BelowThreshold, t);
      WriteTracked(now, h, earlier, s.states, v, BelowThreshold, t);
      Overwritten(d.states, s.states, v, BelowThreshold);
      SetStateAgree(d, threshold, v, BelowThreshold);
      PromoteTracked(now, written, earlier, removed.states, removed, threshold, t);
      SamePromoted(d, removed, written, t);
    } else if post < MaxAmount(d.below) {
      var w := d.below[FirstOfMax(d.below)];
      PromoteTracked(now, h, earlier, s.states, d, threshold, t);
      WriteTracked(now, AfterPromote(d, h, t), earlier, s.states[w := Consensus], v, BelowCapacity, t);
      OverwrittenBoth(d.states, s.states, w, Consensus, v, BelowCapacity);
      AttachedBelow(Promote(d), v);
    } else {
      AttachedConsensus(d, v);
      Overwritten(d.states, s.states, v, Consensus);
      assert s.states[v := Consensus] == s.states;
    }
  }

  lemma SamePromoted(a: Sets, b: Sets, h: Handles, t: Time)
    requires a.below == b.below
    ensures AfterPromote(a, h, t) == AfterPromote(b, h, t)
  {
  }

  lemma UpdateBelowTracked(now: Epoch, h: Handles, earlier: seq<Sets>, s: Sets, slots: nat, threshold: Amount,
                           v: Address,
                           post: Amount)
    requires slots >= 1
    requires Tracked(now, h, earlier, s.states) && TopN(s, slots, threshold) && v in s.states && s.states[v] == BelowCapacity
    requires post != StakeOf(s, v) && (post >= threshold || StakeOf(s, v) >= threshold)
    ensures Tracked(now, AfterUpdate(s, slots, threshold, v, post, h, At(now, |earlier|)), earlier,
                    Update(s, slots, threshold, v, post).states)
  {
    hide Tracked, Agree, LastOfMin, WriteState, MinAmount, Detach, Demote, AttachConsensus, AttachBelow, AfterDemote;
    var t, d := At(now, |earlier|), SetStake(Detach(s, v), v, post);
    Left(s, slots, threshold, v, post);
    Taken(s, threshold, v);
    Overwritten(d.states, s.states, v, Inactive);
    if post > MinAmount(d.consensus) {
      DemoteTracked(now, h, earlier, s.states, d, threshold);
      var w := d.consensus[LastOfMin(d.consensus)];
      WriteTracked(now, AfterDemote(d, h, t), earlier, s.states[w := BelowCapacity], v, Consensus, t);
      OverwrittenBoth(d.states, s.states, w, BelowCapacity, v, Consensus);
      AttachedConsensus(Demote(d), v);
    } else if post >= threshold {
      WriteTracked(now, h, earlier, s.states, v, BelowCapacity, t);
      Overwritten(d.states, s.states, v, BelowCapacity);
      AttachedBelow(d, v);
    } else {
      WriteTracked(now, h, earlier, s.states, v, BelowThreshold, t);
      Overwritten(d.states, s.states, v, BelowThreshold);
    }
  }

  lemma ChangeTracked(now: Epoch, h: Handles, earlier: seq<Sets>, s: Sets, slots: nat, threshold: Amount, v: Address,
                      post: Amount)
    requires slots >= 1 && Tracked(now, h, earlier, s.states) && TopN(s, slots, threshold) && v in s.states
    ensures Tracked(now, AfterChange(s, slots, threshold, v, post, h, At(now, |earlier|)), earlier,
                    Change(s, slots, threshold, v, post).states)
  {
    hide Tracked, Agree, Ranked, Full, WriteState, MinAmount, MaxAmount, Detach, Demote, Promote, AttachConsensus, AttachBelow,
         AfterDemote, AfterPromote, AfterPlace, Place;
    if !Detached(s.states[v]) && post != StakeOf(s, v) && (post >= threshold || StakeOf(s, v) >= threshold) {
      match s.states[v]
      case Consensus => UpdateConsensusTracked(now, h, earlier, s, slots, threshold, v, post);
      case BelowCapacity => UpdateBelowTracked(now, h, earlier, s, slots, threshold, v, post);
      case BelowThreshold =>
        var d := SetStake(Detach(s, v), v, post);
        Left(s, slots, threshold, v, post);
        Taken(s, threshold, v);
        Overwritten(d.states, s.states, v, Inactive);
        PlaceTracked(now, h, earlier, s.states, d, slots, threshold, v);
    }
  }

  lemma BecomeTracked(now: Epoch, h: Handles, earlier: seq<Sets>, s: Sets, slots: nat, threshold: Amount, v: Address)
    requires slots >= 1 && Tracked(now, h, earlier, s.states) && TopN(s, slots, threshold) && v !in s.states
    ensures Tracked(now, AfterBecome(s, slots, threshold, v, h, At(now, |earlier|)), earlier,
                    Become(s, slots, threshold, v).states)
  {
    hide Tracked, Agree, Ranked, Full, WriteState, AfterPlace, Place;
    var t, placed := At(now, |earlier|), SetState(SetStake(s, v, 0), v, Inactive);
    PositionHeld(s, threshold, v);
    OutsideAgree(s, threshold, v, 0, Inactive);
    WriteTracked(now, h, earlier, s.states, v, BelowThreshold, t);
    assert s.states[v := BelowThreshold][v := Inactive] == placed.states[v := Inactive];
    PlaceTracked(now, WriteState(h, v, BelowThreshold, t), earlier, s.states[v := BelowThreshold], placed, slots, threshold, v);
  }

  lemma PromoteElsewhere(s: Sets, h: Handles, t: Time, v: Address)
    requires s.below != map[] && s.below[FirstOfMax(s.below)] != v
    ensures HandleOf(AfterPromote(s, h, t), v) == HandleOf(h, v)
  {
  }

  /** A validator leaves the sets of the pipeline epoch: the states of the others, with a promotion if there is one. */
  lemma RemovalTracked(now: Epoch, h: Handles, earlier: seq<Sets>, s: Sets, slots: nat, threshold: Amount, v: Address,
                       state: ValidatorState)
      returns (others: map<Address, ValidatorState>)
    requires Tracked(now, h, earlier, s.states) && TopN(s, slots, threshold) && v in s.states && Detached(state)
    ensures Tracked(now, AfterRemoval(s, v, h, now + |earlier|), earlier, others)
    ensures v in others && Retire(s, v, state).states == others[v := state]
    ensures HandleOf(AfterRemoval(s, v, h, now + |earlier|), v) == HandleOf(h, v)
  {
    hide Tracked, Agree, Ranked, Full, E.Set, Detach, Promote, AfterPromote, FirstOfMax;
    var t := At(now + |earlier|, 0);
    Taken(s, threshold, v);
    RemoveKeeps(s, slots, threshold, v, state);
    var removed := Remove(s, v, state);
    Overwritten(Detach(s, v).states, s.states, v, state);
    if s.states[v] == Consensus {
      PromoteTracked(now, h, earlier, s.states, removed, threshold, t);
      SamePromoted(Detach(s, v), removed, h, t);
      if removed.below != map[] {
        var w := removed.below[FirstOfMax(removed.below)];
        PromoteElsewhere(removed, h, t, v);
        others := s.states[w := Consensus];
        assert s.states[v := state][w := Consensus] == others[v := state];
        return;
      }
    }
    others := s.states;
  }

  // ---- The stored state and the sets with the states of every epoch ----

  /** Nothing is lost but states of early epochs: the sets are the same, and the handles follow the states. */
  ghost predicate Matches(c: VE.Config, s: State, r: VE.State) {
    && |r.window| == c.pipeline + 1 && s.window == Stripped(r.window)
    && s.now == r.now && s.lastSlash == r.lastSlash
    && Tracked(s.now, s.handles, r.window[..c.pipeline], r.window[c.pipeline].states)
  }

  lemma ReadMatches(c: VE.Config, s: State, r: VE.State, i: nat, v: Address)
    requires Matches(c, s, r) && i <= c.pipeline
    ensures var read := StateIn(SetsAt(c, s, i).states, v);
            && (read == StateIn(r.window[i].states, v) || read == None)
            && (c.pipeline <= i + PAST ==> read == StateIn(r.window[i].states, v))
            && (read.Some? ==> var d := HandleOf(s.handles, v); d.oldest.Some? && d.oldest.value <= s.now + i)
  {
    hide E.ValueAt, Follows;
    var states := Column(r.window[..c.pipeline], r.window[c.pipeline].states, v);
    FollowsReads(c.pipeline, s.now, HandleOf(s.handles, v), states, i);
    assert states[i] == StateIn(r.window[i].states, v);
    if v !in s.handles {
      NothingRead(c.pipeline, s.now + i);
    }
  }

  lemma NothingRead(pipeline: nat, e: Epoch)
    ensures E.ValueAt<ValidatorState>(E.Discrete(map[], None, None), pipeline, PAST, e) == None
  {
  }

  /** In the last three epochs of the window everything is read as it was written. */
  lemma LateMatches(c: VE.Config, s: State, r: VE.State, i: nat)
    requires Matches(c, s, r) && i <= c.pipeline <= i + PAST
    ensures SetsAt(c, s, i) == r.window[i]
  {
    hide Tracked, ReadState;
    forall v: Address ensures StateIn(SetsAt(c, s, i).states, v) == StateIn(r.window[i].states, v) {
      ReadMatches(c, s, r, i, v);
    }
    SameStates(SetsAt(c, s, i).states, r.window[i].states);
    assert s.window[i] == EntriesOf(r.window[i]);
  }

  lemma SameStates(a: map<Address, ValidatorState>, b: map<Address, ValidatorState>)
    requires forall v: Address :: StateIn(a, v) == StateIn(b, v)
    ensures a == b
  {
    forall v: Address ensures v in a <==> v in b {
      assert StateIn(a, v) == StateIn(b, v);
    }
    forall v | v in a ensures a[v] == b[v] {
      assert StateIn(a, v) == StateIn(b, v);
    }
  }

  /** An operation that changes the sets of the pipeline epoch only. */
  lemma PipelineMatches(c: VE.Config, s: State, r: VE.State, sets: Sets, h: Handles)
    requires Matches(c, s, r) && Tracked(s.now, h, r.window[..c.pipeline], sets.states)
    ensures Matches(c, State(s.now, Stripped(VE.WithPipeline(c, Seen(c, s), sets).window), h, s.lastSlash),
                    VE.WithPipeline(c, r, sets))
  {
    hide Tracked, StatesAt;
    var after := VE.WithPipeline(c, r, sets).window;
    assert after[..c.pipeline] == r.window[..c.pipeline];
    assert Stripped(VE.WithPipeline(c, Seen(c, s), sets).window) == Stripped(after);
  }

  lemma {:induction false} JailingElsewhere(h: Handles, v: Address, now: Epoch, from: nat, upto: nat, w: Address)
    ensures HandleOf(AfterJailing(h, v, now, from, upto), w) ==
            if w == v then Jailings(HandleOf(h, v), now, from, upto) else HandleOf(h, w)
    decreases upto
  {
    hide E.Set;
    if upto > from {
      JailingElsewhere(h, v, now, from, upto - 1, w);
      JailingElsewhere(h, v, now, from, upto - 1, v);
    }
  }

  lemma RemoveEntries(a: Sets, b: Sets, v: Address, state: ValidatorState)
    requires EntriesOf(a) == EntriesOf(b)
    ensures EntriesOf(Remove(a, v, state)) == EntriesOf(Remove(b, v, state))
  {
  }

  lemma JailedColumn(c: VE.Config, window: seq<Sets>, v: Address, from: nat, others: map<Address, ValidatorState>,
                     w: Address)
    requires |window| == c.pipeline + 1 && v in window[c.pipeline].states && from <= c.pipeline && v in others
    requires Retire(window[c.pipeline], v, Jailed).states == others[v := Jailed]
    ensures var jailed, before := VE.JailedWindow(c, window, v, from), Column(window[..c.pipeline], others, w);
            Column(jailed[..c.pipeline], jailed[c.pipeline].states, w) ==
            if w == v then JailedFrom(before, from) else before
  {
    hide Retire;
    var jailed, before := VE.JailedWindow(c, window, v, from), Column(window[..c.pipeline], others, w);
    var after := Column(jailed[..c.pipeline], jailed[c.pipeline].states, w);
    forall i | 0 <= i <= c.pipeline ensures after[i] == if w == v && from <= i then Some(Jailed) else before[i] {
      if i < c.pipeline {
        assert after[i] == StateIn(jailed[i].states, w) && before[i] == StateIn(window[i].states, w);
      }
    }
  }

  lemma JailMatches(c: VE.Config, s: State, r: VE.State, v: Address, from: nat)
    requires VE.Inv(c, r) && Matches(c, s, r) && from <= c.pipeline && VE.HasState(Seen(c, s), from, v)
    ensures VE.HasState(r, from, v) && v in SetsAt(c, s, c.pipeline).states
    ensures var sets := SetsAt(c, s, c.pipeline);
            var h := AfterJailing(AfterRemoval(sets, v, s.handles, s.now + c.pipeline), v, s.now, from, c.pipeline + 1);
            Matches(c, State(s.now, Stripped(VE.JailedWindow(c, Seen(c, s).window, v, from)), h, s.lastSlash),
                    r.(window := VE.JailedWindow(c, r.window, v, from)))
  {
    hide Tracked, StatesAt, Agree, Ranked, Full, Retire, Remove, E.Set, VE.Inv;
    LateMatches(c, s, r, c.pipeline);
    forall i | from <= i <= c.pipeline ensures v in r.window[i].states {
      ReadMatches(c, s, r, i, v);
      assert Seen(c, s).window[i] == SetsAt(c, s, i);
    }
    assert Seen(c, s).window[c.pipeline] == SetsAt(c, s, c.pipeline);
    assert Seen(c, s).window[from] == SetsAt(c, s, from);
    ReadMatches(c, s, r, from, v);
    JailedEntries(c, s, r, v, from);
    JailTracked(c, s, r, v, from);
  }

  lemma JailedEntries(c: VE.Config, s: State, r: VE.State, v: Address, from: nat)
    requires |r.window| == c.pipeline + 1 && s.window == Stripped(r.window)
    requires v in r.window[c.pipeline].states && SetsAt(c, s, c.pipeline) == r.window[c.pipeline]
    ensures Seen(c, s).window[c.pipeline] == r.window[c.pipeline]
    ensures Stripped(VE.JailedWindow(c, Seen(c, s).window, v, from)) == Stripped(VE.JailedWindow(c, r.window, v, from))
  {
    hide StatesAt, Retire, Remove;
    var seen := Seen(c, s).window;
    var a, b := VE.JailedWindow(c, seen, v, from), VE.JailedWindow(c, r.window, v, from);
    forall i | 0 <= i <= c.pipeline ensures EntriesOf(a[i]) == EntriesOf(b[i]) {
      assert EntriesOf(seen[i]) == s.window[i] == EntriesOf(r.window[i]);
      RemoveEntries(seen[i], r.window[i], v, Jailed);
    }
  }

  lemma JailTracked(c: VE.Config, s: State, r: VE.State, v: Address, from: nat)
    requires VE.Inv(c, r) && Matches(c, s, r) && from <= c.pipeline && v in r.window[c.pipeline].states
    requires var d := HandleOf(s.handles, v); d.oldest.Some? && d.oldest.value <= s.now + from
    ensures var jailed, sets := VE.JailedWindow(c, r.window, v, from), r.window[c.pipeline];
            Tracked(s.now, AfterJailing(AfterRemoval(sets, v, s.handles, s.now + c.pipeline), v, s.now, from, c.pipeline + 1),
                    jailed[..c.pipeline], jailed[c.pipeline].states)
  {
    hide Follows, Agree, Ranked, Full, Retire, Remove, AfterRemoval, AfterJailing, Jailings, JailedFrom, E.Set;
    var sets, earlier := r.window[c.pipeline], r.window[..c.pipeline];
    VE.AtPipelineTopN(c, r);
    var others := RemovalTracked(s.now, s.handles, earlier, sets, c.slots, c.threshold, v, Jailed);
    var h := AfterRemoval(sets, v, s.handles, s.now + c.pipeline);
    var after := AfterJailing(h, v, s.now, from, c.pipeline + 1);
    var jailed := VE.JailedWindow(c, r.window, v, from);
    FollowsJailings(c.pipeline, s.now, HandleOf(h, v), Column(earlier, others, v), from);
    forall w: Address ensures
        Follows(c.pipeline, s.now, HandleOf(after, w), Column(jailed[..c.pipeline], jailed[c.pipeline].states, w)) {
      JailingElsewhere(h, v, s.now, from, c.pipeline + 1, w);
      JailedColumn(c, r.window, v, from, others, w);
    }
  }

  lemma EpochMatches(c: VE.Config, s: State, r: VE.State)
    requires Matches(c, s, r)
    ensures var next := VE.State(r.now + 1, r.window[1..] + [r.window[c.pipeline]], r.lastSlash);
            var seen := Seen(c, s).window;
            Matches(c, State(s.now + 1, Stripped(seen[1..] + [seen[c.pipeline]]), s.handles, s.lastSlash), next)
  {
    hide Follows, StatesAt;
    var after, seen := r.window[1..] + [r.window[c.pipeline]], Seen(c, s).window;
    assert Stripped(seen[1..] + [seen[c.pipeline]]) == Stripped(after);
    forall v: Address ensures
        Follows(c.pipeline, s.now + 1, HandleOf(s.handles, v), Column(after[..c.pipeline], after[c.pipeline].states, v)) {
      var before := Column(r.window[..c.pipeline], r.window[c.pipeline].states, v);
      FollowsNext(c.pipeline, s.now, HandleOf(s.handles, v), before);
      assert Column(after[..c.pipeline], after[c.pipeline].states, v) == before[1..] + [before[c.pipeline]];
    }
  }

  /** A validator that is read in one state at every epoch is in it. */
  lemma AllMatch(c: VE.Config, s: State, r: VE.State, v: Address, state: ValidatorState)
    requires Matches(c, s, r) && VE.FirstNot(Seen(c, s).window, v, state, 0).None?
    ensures VE.FirstNot(r.window, v, state, 0).None?
    ensures v in r.window[c.pipeline].states && r.window[c.pipeline].states[v] == state
  {
    hide Tracked, VE.FirstNot, StatesAt;
    forall i | 0 <= i <= c.pipeline ensures VE.HasStateAt(r.window, v, state, i) {
      assert VE.HasStateAt(Seen(c, s).window, v, state, i);
      ReadMatches(c, s, r, i, v);
    }
    assert VE.HasStateAt(r.window, v, state, c.pipeline);
    assert forall i | 0 <= i < |r.window| :: VE.HasStateAt(r.window, v, state, i);
  }

  lemma PlaceMatches(c: VE.Config, s: State, r: VE.State, v: Address)
    requires c.slots >= 1 && VE.Inv(c, r) && Matches(c, s, r)
    requires v in r.window[c.pipeline].states && Detached(r.window[c.pipeline].states[v])
    ensures var sets := r.window[c.pipeline];
            var placed := Place(sets, c.slots, c.threshold, v);
            var h := AfterPlace(sets, c.slots, c.threshold, v, s.handles, At(s.now, c.pipeline));
            Matches(c, State(s.now, Stripped(VE.WithPipeline(c, Seen(c, s), placed).window), h, s.lastSlash),
                    VE.WithPipeline(c, r, placed))
    ensures var jailed, h := SetState(r.window[c.pipeline], v, Jailed), WriteState(s.handles, v, Jailed, At(s.now + c.pipeline, 0));
            Matches(c, State(s.now, Stripped(VE.WithPipeline(c, Seen(c, s), jailed).window), h, s.lastSlash),
                    VE.WithPipeline(c, r, jailed))
  {
    hide Agree, Ranked, Full, Tracked, Place, AfterPlace, WriteState;
    var sets, earlier := r.window[c.pipeline], r.window[..c.pipeline];
    VE.AtPipelineTopN(c, r);
    PlaceTracked(s.now, s.handles, earlier, sets.states, sets, c.slots, c.threshold, v);
    PipelineMatches(c, s, r, Place(sets, c.slots, c.threshold, v),
                    AfterPlace(sets, c.slots, c.threshold, v, s.handles, At(s.now, c.pipeline)));
    var back := At(s.now + c.pipeline, 0);
    WriteTracked(s.now, s.handles, earlier, sets.states, v, Jailed, back);
    PipelineMatches(c, s, r, SetState(sets, v, Jailed), WriteState(s.handles, v, Jailed, back));
  }

  lemma ChangeMatches(c: VE.Config, s: State, r: VE.State, v: Address, stake: Amount)
    requires c.slots >= 1 && VE.Inv(c, r) && Matches(c, s, r)
    ensures var sets := r.window[c.pipeline];
            v in sets.states ==>
              var changed := Change(sets, c.slots, c.threshold, v, stake);
              var h := AfterChange(sets, c.slots, c.threshold, v, stake, s.handles, At(s.now, c.pipeline));
              Matches(c, State(s.now, Stripped(VE.WithPipeline(c, Seen(c, s), changed).window), h, s.lastSlash),
                      VE.WithPipeline(c, r, changed))
    ensures var sets := r.window[c.pipeline];
            v !in sets.states ==>
              var become := Become(sets, c.slots, c.threshold, v);
              var h := AfterBecome(sets, c.slots, c.threshold, v, s.handles, At(s.now, c.pipeline));
              Matches(c, State(s.now, Stripped(VE.WithPipeline(c, Seen(c, s), become).window), h, s.lastSlash),
                      VE.WithPipeline(c, r, become))
  {
    hide Agree, Ranked, Full, Tracked, Change, AfterChange, Become, AfterBecome;
    var sets, earlier, t := r.window[c.pipeline], r.window[..c.pipeline], At(s.now, c.pipeline);
    VE.AtPipelineTopN(c, r);
    if v in sets.states {
      ChangeTracked(s.now, s.handles, earlier, sets, c.slots, c.threshold, v, stake);
      PipelineMatches(c, s, r, Change(sets, c.slots, c.threshold, v, stake),
                      AfterChange(sets, c.slots, c.threshold, v, stake, s.handles, t));
    } else {
      BecomeTracked(s.now, s.handles, earlier, sets, c.slots, c.threshold, v);
      PipelineMatches(c, s, r, Become(sets, c.slots, c.threshold, v),
                      AfterBecome(sets, c.slots, c.threshold, v, s.handles, t));
    }
  }

  lemma DeactivateMatches(c: VE.Config, s: State, r: VE.State, v: Address)
    requires VE.Inv(c, r) && Matches(c, s, r) && v in r.window[c.pipeline].states
    ensures var sets := r.window[c.pipeline];
            var retired := Retire(sets, v, Inactive);
            var h := WriteState(AfterRemoval(sets, v, s.handles, s.now + c.pipeline), v, Inactive, At(s.now, c.pipeline));
            Matches(c, State(s.now, Stripped(VE.WithPipeline(c, Seen(c, s), retired).window), h, s.lastSlash),
                    VE.WithPipeline(c, r, retired))
  {
    hide Agree, Ranked, Full, Tracked, Retire, WriteState, AfterRemoval;
    var sets, earlier := r.window[c.pipeline], r.window[..c.pipeline];
    VE.AtPipelineTopN(c, r);
    var others := RemovalTracked(s.now, s.handles, earlier, sets, c.slots, c.threshold, v, Inactive);
    var removed := AfterRemoval(sets, v, s.handles, s.now + c.pipeline);
    WriteTracked(s.now, removed, earlier, others, v, Inactive, At(s.now, c.pipeline));
    PipelineMatches(c, s, r, Retire(sets, v, Inactive), WriteState(removed, v, Inactive, At(s.now, c.pipeline)));
  }

  /** An operation that goes through on the stored state goes through with every state at hand, with the same sets; the
      handles then follow the new states. */
  lemma StepMatches(c: VE.Config, s: State, r: VE.State, op: VE.Op)
    requires c.slots >= 1 && VE.Inv(c, r) && Matches(c, s, r) && Step(c, s, op).Ok?
    ensures VE.Step(c, r, op).Ok? && Matches(c, Step(c, s, op).value, VE.Step(c, r, op).value)
  {
    hide Agree, Ranked, Full, Tracked, Stripped, StatesAt, VE.Inv, VE.FirstNot, VE.JailedWindow, Place, Change, Become, Retire,
         WriteState, AfterPlace, AfterChange, AfterBecome, AfterRemoval, AfterJailing;
    LateMatches(c, s, r, c.pipeline);
    assert Seen(c, s).window[c.pipeline] == SetsAt(c, s, c.pipeline);
    match op
    case BecomeValidator(v) => ChangeMatches(c, s, r, v, 0);
    case ChangeStake(v, stake) => ChangeMatches(c, s, r, v, stake);
    case JailFrom(v, offset, infraction) => JailMatches(c, s, r, v, offset);
    case Unjail(v) =>
      AllMatch(c, s, r, v, Jailed);
      PlaceMatches(c, s, r, v);
    case Deactivate(v) => DeactivateMatches(c, s, r, v);
    case Reactivate(v) =>
      AllMatch(c, s, r, v, Inactive);
      PlaceMatches(c, s, r, v);
    case NextEpoch => EpochMatches(c, s, r);
  }

  // ---- Runs ----

  /** The states that genesis writes, at the first epoch. */
  function GenesisHandles(c: VE.Config, ops: seq<VE.GenesisOp>): Handles {
    if ops == [] then map[]
    else
      var before := ops[..|ops| - 1];
      var sets, h, t := VE.GenesisSets(c, before), GenesisHandles(c, before), At(0, 0);
      match ops[|ops| - 1]
      case GenesisValidator(v) => if v in sets.states then h else AfterBecome(sets, c.slots, c.threshold, v, h, t)
      case GenesisBond(v, stake) =>
        if v !in sets.states then h else AfterChange(sets, c.slots, c.threshold, v, stake, h, t)
  }

  /** The genesis sets are copied to every epoch up to the pipeline epoch. */
  function Initial(c: VE.Config, ops: seq<VE.GenesisOp>): (s: State)
    ensures |s.window| == c.pipeline + 1
  {
    var entries := EntriesOf(VE.GenesisSets(c, ops));
    State(0, seq(c.pipeline + 1, _ => entries), GenesisHandles(c, ops), map[])
  }

  /** A run; a failing operation changes nothing. */
  function After(c: VE.Config, genesis: seq<VE.GenesisOp>, ops: seq<VE.Op>): (s: State)
    ensures |s.window| == c.pipeline + 1
  {
    if ops == [] then Initial(c, genesis)
    else
      var s := After(c, genesis, ops[..|ops| - 1]);
      var r := Step(c, s, ops[|ops| - 1]);
      if r.Ok? then r.value else s
  }

  /** The invariant of the stored state. */
  ghost predicate Inv(c: VE.Config, s: State) {
    exists r: VE.State :: VE.Inv(c, r) && Matches(c, s, r)
  }

  lemma {:induction false} GenesisTracked(c: VE.Config, ops: seq<VE.GenesisOp>)
    requires c.slots >= 1
    ensures Tracked(0, GenesisHandles(c, ops), [], VE.GenesisSets(c, ops).states)
    decreases |ops|
  {
    hide TopN, Become, Change, AfterBecome, AfterChange, Tracked;
    if ops == [] {
      EmptyTracked();
    } else {
      var before := ops[..|ops| - 1];
      GenesisTracked(c, before);
      VE.GenesisTopN(c, before);
      var sets, h := VE.GenesisSets(c, before), GenesisHandles(c, before);
      match ops[|ops| - 1]
      case GenesisValidator(v) =>
        if v !in sets.states {
          BecomeTracked(0, h, [], sets, c.slots, c.threshold, v);
        }
      case GenesisBond(v, stake) =>
        if v in sets.states {
          ChangeTracked(0, h, [], sets, c.slots, c.threshold, v, stake);
        }
    }
  }

  lemma EmptyTracked()
    ensures Tracked(0, map[], [], map[])
  {
    hide E.LatestAt;
    forall v: Address ensures Follows(0, 0, HandleOf(map[], v), Column([], map[], v)) {
      var history: History := map[];
      E.LatestIsNone(history, 0);
      assert Tracks(0, 0, HandleOf(map[], v), history) && Records(history, 0, Column([], map[], v));
    }
  }

  lemma InitialMatches(c: VE.Config, genesis: seq<VE.GenesisOp>)
    requires c.slots >= 1
    ensures var sets := VE.GenesisSets(c, genesis);
            var r := VE.State(0, seq(c.pipeline + 1, _ => sets), map[]);
            VE.Inv(c, r) && Matches(c, Initial(c, genesis), r)
  {
    hide Agree, Ranked, Full, Follows, VE.GenesisSets, GenesisHandles;
    var sets, s := VE.GenesisSets(c, genesis), Initial(c, genesis);
    var r := VE.State(0, seq(c.pipeline + 1, _ => sets), map[]);
    VE.GenesisTopN(c, genesis);
    GenesisTracked(c, genesis);
    forall v: Address ensures
        Follows(c.pipeline, 0, HandleOf(s.handles, v), Column(r.window[..c.pipeline], r.window[c.pipeline].states, v)) {
      var state := StateIn(sets.states, v);
      assert Column([], sets.states, v) == [state];
      FollowsGenesis(c.pipeline, HandleOf(s.handles, v), state);
      assert Column(r.window[..c.pipeline], r.window[c.pipeline].states, v) == seq(c.pipeline + 1, _ => state);
    }
    assert s.window == Stripped(r.window);
  }

  lemma StepInv(c: VE.Config, s: State, op: VE.Op)
    requires c.slots >= 1 && Inv(c, s) && Step(c, s, op).Ok?
    ensures Inv(c, Step(c, s, op).value)
  {
    hide Step, VE.Step, VE.Inv, Matches;
    var r: VE.State :| VE.Inv(c, r) && Matches(c, s, r);
    StepMatches(c, s, r, op);
    VE.StepInv(c, r, op);
  }

  lemma {:induction false} RunInv(c: VE.Config, genesis: seq<VE.GenesisOp>, ops: seq<VE.Op>)
    requires c.slots >= 1
    ensures Inv(c, After(c, genesis, ops))
    decreases |ops|
  {
    hide Step, VE.Inv, Matches;
    if ops == [] {
      InitialMatches(c, genesis);
    } else {
      RunInv(c, genesis, ops[..|ops| - 1]);
      var s, op := After(c, genesis, ops[..|ops| - 1]), ops[|ops| - 1];
      if Step(c, s, op).Ok? {
        StepInv(c, s, op);
      }
    }
  }

  // ---- What holds in every window ----

  /** The sets agree with states of which only some are at hand. */
  ghost predicate AgreePartly(s: Sets, threshold: Amount) {
    exists states: map<Address, ValidatorState> ::
      Agree(s.(states := states), threshold) && forall v | v in s.states :: v in states && states[v] == s.states[v]
  }

  lemma InvSets(c: VE.Config, s: State, i: nat)
    requires Inv(c, s) && i <= c.pipeline && |s.window| == c.pipeline + 1
    ensures i == c.pipeline ==> TopN(SetsAt(c, s, i), c.slots, c.threshold)
    ensures Ranked(SetsAt(c, s, i), c.slots) && AgreePartly(SetsAt(c, s, i), c.threshold)
    ensures c.pipeline <= i + PAST ==> Agree(SetsAt(c, s, i), c.threshold)
  {
    hide Agree, Full, Tracked, StatesAt;
    var r: VE.State :| VE.Inv(c, r) && Matches(c, s, r);
    if i == c.pipeline {
      VE.AtPipelineTopN(c, r);
    }
    if c.pipeline <= i + PAST {
      LateMatches(c, s, r, i);
    }
    var sets := SetsAt(c, s, i);
    forall v | v in sets.states ensures v in r.window[i].states && r.window[i].states[v] == sets.states[v] {
      ReadMatches(c, s, r, i, v);
    }
    assert s.window[i] == EntriesOf(r.window[i]);
    assert sets.(states := r.window[i].states) == r.window[i];
  }

  /** After every run from every genesis, with at least one slot, the sets at the pipeline epoch are the top ones: the
      consensus set has at most as many members as slots, is full if anyone waits below capacity, and none of its members
      has less stake than one that waits; members meet the threshold; positions and states name exactly the members. At the
      earlier epochs the set may be less than full; states agree in the last three epochs of the window, and before that
      those that are still there agree. */
  lemma RunTopN(c: VE.Config, genesis: seq<VE.GenesisOp>, ops: seq<VE.Op>, i: nat)
    requires c.slots >= 1 && i <= c.pipeline
    ensures var sets := SetsAt(c, After(c, genesis, ops), i);
            && (i == c.pipeline ==> TopN(sets, c.slots, c.threshold))
            && Ranked(sets, c.slots) && AgreePartly(sets, c.threshold)
            && (c.pipeline <= i + PAST ==> Agree(sets, c.threshold))
  {
    hide After, Inv, SetsAt, TopN, Ranked, Agree, AgreePartly;
    RunInv(c, genesis, ops);
    InvSets(c, After(c, genesis, ops), i);
  }
}
