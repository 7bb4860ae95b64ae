/** The storage operations on validator sets, step by step. */
module ValidatorStorage {
  import opened Types
  import opened ValidatorSets
  import VE = ValidatorEpochs
  import E = Epoched
  import opened ValidatorStates

  // ---- The moves as the code makes them: positions and states are overwritten, not taken out and put back ----

  lemma PromoteSteps(s: Sets, k: Key)
    requires s.below != map[] && k == FirstOfMax(s.below) && EntryOk(s, k, s.below[k], BelowCapacity)
    requires k in s.consensus ==> s.consensus[k] != s.below[k]
    ensures var v, p := s.below[k], NextPosition(s.consensus, k.stake);
            Promote(s) == Sets(s.consensus[Key(k.stake, p) := v], s.below - {k}, s.positions[v := p],
                               s.states[v := Consensus], s.stakes)
  {
    hide NextPosition, FirstOfMax;
    var v, p := s.below[k], NextPosition(s.consensus, k.stake);
    assert (s.positions - {v})[v := p] == s.positions[v := p];
    assert s.states[v := Inactive][v := Consensus] == s.states[v := Consensus];
  }

  lemma DemoteSteps(s: Sets, k: Key)
    requires s.consensus != map[] && k == LastOfMin(s.consensus) && EntryOk(s, k, s.consensus[k], Consensus)
    ensures var v, p := s.consensus[k], NextPosition(s.below, k.stake);
            Demote(s) == Sets(s.consensus - {k}, s.below[Key(k.stake, p) := v], s.positions[v := p],
                              s.states[v := BelowCapacity], s.stakes)
  {
    hide NextPosition, LastOfMin;
    var v, p := s.consensus[k], NextPosition(s.below, k.stake);
    assert (s.positions - {v})[v := p] == s.positions[v := p];
    assert s.states[v := Inactive][v := BelowCapacity] == s.states[v := BelowCapacity];
  }

  /** The worst consensus entry and the best below-capacity entry of sets that agree. */
  lemma Ends(s: Sets, threshold: Amount)
    requires Agree(s, threshold)
    ensures s.consensus != map[] ==> EntryOk(s, LastOfMin(s.consensus), s.consensus[LastOfMin(s.consensus)], Consensus)
    ensures s.below != map[] ==>
              var k := FirstOfMax(s.below);
              EntryOk(s, k, s.below[k], BelowCapacity) && (k in s.consensus ==> s.consensus[k] != s.below[k])
  {
    hide Agree, LastOfMin, FirstOfMax;
    if s.consensus != map[] {
      MemberKey(s, threshold, LastOfMin(s.consensus));
    }
    if s.below != map[] {
      MemberKey(s, threshold, FirstOfMax(s.below));
    }
  }

  /** An insertion: the validator is the last of its stake in the set, and everything else is as it was. */
  ghost predicate Inserted(m: map<Key, Address>, positions: map<Address, Position>, stake: Amount, v: Address,
                           after: map<Key, Address>, newPositions: map<Address, Position>) {
    && v in newPositions && newPositions - {v} == positions - {v}
    && (var k := Key(stake, newPositions[v]);
        && k !in m && k in after && after[k] == v && after - {k} == m
        && (forall j | j in m && j.stake == stake :: j.position < k.position))
    && Count(after) == Count(m) + 1
  }

  /** `insert_validator_into_set` */
  method InsertIntoSet(m: map<Key, Address>, positions: map<Address, Position>, stake: Amount, v: Address)
      returns (after: map<Key, Address>, newPositions: map<Address, Position>)
    ensures Inserted(m, positions, stake, v, after, newPositions)
    ensures newPositions[v] == NextPosition(m, stake)
  {
    hide NextPosition, Count;
    var next := NextPosition(m, stake);
    after := m[Key(stake, next) := v];
    newPositions := positions[v := next];
    InsertCount(m, Key(stake, next), v);
  }

  /** An insertion at a given position leaves no choice. */
  lemma InsertedIs(m: map<Key, Address>, positions: map<Address, Position>, stake: Amount, v: Address,
                   after: map<Key, Address>, newPositions: map<Address, Position>)
    requires Inserted(m, positions, stake, v, after, newPositions)
    ensures after == m[Key(stake, newPositions[v]) := v]
    ensures newPositions == positions[v := newPositions[v]]
  {
    hide Count;
    var k := Key(stake, newPositions[v]);
    assert after == (after - {k})[k := v];
    assert newPositions == (newPositions - {v})[v := newPositions[v]];
    assert positions[v := newPositions[v]] == (positions - {v})[v := newPositions[v]];
  }

  /** `promote_next_below_capacity_validator_to_consensus`, and the promotions of `update_validator_set` */
  method PromoteNext(s: Sets, h: Handles, t: Time) returns (r: Sets, g: Handles)
    requires s.below != map[] ==>
               var k := FirstOfMax(s.below);
               EntryOk(s, k, s.below[k], BelowCapacity) && (k in s.consensus ==> s.consensus[k] != s.below[k])
    ensures r == Promote(s) && g == AfterPromote(s, h, t)
  {
    hide NextPosition, FirstOfMax, Inserted, E.Set;
    if s.below == map[] {
      return s, h;
    }
    var k := FirstOfMax(s.below);
    PromoteSteps(s, k);
    var promoted := s.below[k];
    var consensus, positions := InsertIntoSet(s.consensus, s.positions, k.stake, promoted);
    InsertedIs(s.consensus, s.positions, k.stake, promoted, consensus, positions);
    g := WriteState(h, promoted, Consensus, t);
    r := Sets(consensus, s.below - {k}, positions, s.states[promoted := Consensus], s.stakes);
  }

  /** `insert_into_consensus_and_demote_to_below_cap`; `v` is in neither set. */
  method InsertAndDemote(s: Sets, v: Address, stake: Amount, h: Handles, t: Time) returns (r: Sets, g: Handles)
    requires s.consensus != map[] && EntryOk(s, LastOfMin(s.consensus), s.consensus[LastOfMin(s.consensus)], Consensus)
    requires StakeOf(s, v) == stake
    ensures r == AttachConsensus(Demote(s), v) && g == WriteState(AfterDemote(s, h, t), v, Consensus, t)
  {
    hide NextPosition, LastOfMin, Inserted, WriteState;
    var k := LastOfMin(s.consensus);
    DemoteSteps(s, k);
    var demoted := s.consensus[k];
    var consensus := s.consensus - {k};
    var below, positions := InsertIntoSet(s.below, s.positions, k.stake, demoted);
    InsertedIs(s.below, s.positions, k.stake, demoted, below, positions);
    g := WriteState(h, demoted, BelowCapacity, t);
    r := Sets(consensus, below, positions, s.states[demoted := BelowCapacity], s.stakes);
    r := InsertConsensus(r, v, stake);
    g := WriteState(g, v, Consensus, t);
  }

  /** `insert_validator_into_validator_set`, for a validator whose stake is already recorded */
  method InsertValidator(s: Sets, slots: nat, threshold: Amount, v: Address, h: Handles, t: Time)
      returns (r: Sets, g: Handles)
    requires slots >= 1
    requires s.consensus != map[] ==> EntryOk(s, LastOfMin(s.consensus), s.consensus[LastOfMin(s.consensus)], Consensus)
    ensures r == Place(s, slots, threshold, v) && g == AfterPlace(s, slots, threshold, v, h, t)
  {
    hide NextPosition, LastOfMin, Demote, AttachConsensus, AttachBelow, MinAmount, AfterDemote, WriteState;
    var stake := StakeOf(s, v);
    if stake < threshold {
      r := s.(states := s.states[v := BelowThreshold]);
      g := WriteState(h, v, BelowThreshold, t);
    } else if Count(s.consensus) < slots {
      r := InsertConsensus(s, v, stake);
      g := WriteState(h, v, Consensus, t);
    } else if stake > MinAmount(s.consensus) {
      r, g := InsertAndDemote(s, v, stake, h, t);
    } else {
      r := InsertBelow(s, v, stake);
      g := WriteState(h, v, BelowCapacity, t);
    }
  }

  /** Insert at the next position and set the state. */
  method InsertConsensus(s: Sets, v: Address, stake: Amount) returns (r: Sets)
    requires StakeOf(s, v) == stake
    ensures r == AttachConsensus(s, v)
  {
    hide NextPosition, Inserted;
    var consensus, positions := InsertIntoSet(s.consensus, s.positions, stake, v);
    InsertedIs(s.consensus, s.positions, stake, v, consensus, positions);
    r := Sets(consensus, s.below, positions, s.states[v := Consensus], s.stakes);
  }

  method InsertBelow(s: Sets, v: Address, stake: Amount) returns (r: Sets)
    requires StakeOf(s, v) == stake
    ensures r == AttachBelow(s, v)
  {
    hide NextPosition, Inserted;
    var below, positions := InsertIntoSet(s.below, s.positions, stake, v);
    InsertedIs(s.below, s.positions, stake, v, below, positions);
    r := Sets(s.consensus, below, positions, s.states[v := BelowCapacity], s.stakes);
  }

  // ---- `update_validator_set` ----

  /** The sets once the validator's entry is removed and its new stake is in place; its position and state are still the old
      ones, to be overwritten. */
  function EntryRemoved(s: Sets, v: Address, post: Amount): Sets {
    var k := KeyOf(s, v);
    var inConsensus := v in s.positions && k in s.consensus && s.consensus[k] == v;
    s.(consensus := if inConsensus then s.consensus - {k} else s.consensus,
       below := if v in s.positions && !inConsensus then s.below - {k} else s.below,
       stakes := s.stakes[v := post])
  }

  function Hidden(e: Sets, v: Address): Sets {
    e.(positions := e.positions - {v}, states := e.states[v := Inactive])
  }

  lemma DetachIsHidden(s: Sets, v: Address, post: Amount)
    ensures SetStake(Detach(s, v), v, post) == Hidden(EntryRemoved(s, v, post), v)
  {
  }

  lemma Overwrite<V>(m: map<Address, V>, w: Address, p: V, v: Address, x: V, q: V)
    ensures (m - {v})[w := p][v := q] == m[w := p][v := q]
    ensures m[v := x][w := p][v := q] == m[w := p][v := q]
    ensures (m - {v})[v := q] == m[v := q]
    ensures m[v := x][v := q] == m[v := q]
  {
  }

  /** The ends of the two sets are other validators than the hidden one. */
  lemma EndsHidden(e: Sets, threshold: Amount, v: Address)
    requires Agree(Hidden(e, v), threshold)
    ensures e.consensus != map[] ==>
              var k := LastOfMin(e.consensus); EntryOk(e, k, e.consensus[k], Consensus) && e.consensus[k] != v
    ensures e.below != map[] ==>
              var k := FirstOfMax(e.below);
              EntryOk(e, k, e.below[k], BelowCapacity) && (k in e.consensus ==> e.consensus[k] != e.below[k]) && e.below[k] != v
  {
    hide Agree, LastOfMin, FirstOfMax;
    Ends(Hidden(e, v), threshold);
  }

  lemma PromoteHidden(e: Sets, v: Address, k: Key)
    requires e.below != map[] && k == FirstOfMax(e.below) && EntryOk(e, k, e.below[k], BelowCapacity) && e.below[k] != v
    requires k in e.consensus ==> e.consensus[k] != e.below[k]
    ensures AttachBelow(Promote(Hidden(e, v)), v) == AttachBelow(Promote(e), v)
  {
    hide NextPosition, FirstOfMax, Promote;
    PromoteSteps(e, k);
    PromoteSteps(Hidden(e, v), k);
    var p, q := NextPosition(e.consensus, k.stake), NextPosition(e.below - {k}, StakeOf(e, v));
    Overwrite(e.positions, e.below[k], p, v, 0, q);
    Overwrite(e.states, e.below[k], Consensus, v, Inactive, BelowCapacity);
  }

  lemma DemoteHidden(e: Sets, v: Address, k: Key)
    requires e.consensus != map[] && k == LastOfMin(e.consensus) && EntryOk(e, k, e.consensus[k], Consensus)
    requires e.consensus[k] != v
    ensures AttachConsensus(Demote(Hidden(e, v)), v) == AttachConsensus(Demote(e), v)
  {
    hide NextPosition, LastOfMin, Demote;
    DemoteSteps(e, k);
    DemoteSteps(Hidden(e, v), k);
    var p, q := NextPosition(e.below, k.stake), NextPosition(e.consensus - {k}, StakeOf(e, v));
    Overwrite(e.positions, e.consensus[k], p, v, 0, q);
    Overwrite(e.states, e.consensus[k], BelowCapacity, v, Inactive, Consensus);
  }

  lemma AttachHidden(e: Sets, v: Address)
    ensures AttachConsensus(Hidden(e, v), v) == AttachConsensus(e, v)
    ensures AttachBelow(Hidden(e, v), v) == AttachBelow(e, v)
    ensures SetState(Hidden(e, v), v, BelowThreshold) ==
            e.(positions := e.positions - {v}, states := e.states[v := BelowThreshold])
  {
    hide NextPosition;
    Overwrite(e.positions, v, 0, v, 0, NextPosition(e.consensus, StakeOf(e, v)));
    Overwrite(e.positions, v, 0, v, 0, NextPosition(e.below, StakeOf(e, v)));
    Overwrite(e.states, v, Inactive, v, Inactive, Consensus);
    Overwrite(e.states, v, Inactive, v, Inactive, BelowCapacity);
    Overwrite(e.states, v, Inactive, v, Inactive, BelowThreshold);
  }

  /** A consensus validator changes its stake. */
  method UpdateConsensusValidator(s: Sets, slots: nat, threshold: Amount, v: Address, post: Amount, h: Handles, t: Time)
      returns (r: Sets, g: Handles)
    requires slots >= 1 && TopN(s, slots, threshold) && v in s.states && s.states[v] == Consensus
    requires post != StakeOf(s, v) && (post >= threshold || StakeOf(s, v) >= threshold)
    ensures r == Update(s, slots, threshold, v, post) && g == AfterUpdate(s, slots, threshold, v, post, h, t)
  {
    hide NextPosition, FirstOfMax, LastOfMin, Agree, Promote, Detach, Count, AttachConsensus, AttachBelow, EntryOk, WriteState,
         AfterPromote;
    Left(s, slots, threshold, v, post);
    DetachIsHidden(s, v, post);
    var e := EntryRemoved(s, v, post);
    EndsHidden(e, threshold, v);
    AttachHidden(e, v);
    if post < threshold {
      var removed := e.(states := e.states[v := BelowThreshold], positions := e.positions - {v});
      g := WriteState(h, v, BelowThreshold, t);
      SetStateAgree(Hidden(e, v), threshold, v, BelowThreshold);
      Ends(removed, threshold);
      SamePromoted(removed, Hidden(e, v), g, t);
      r, g := PromoteNext(removed, g, t);
    } else if post < MaxAmount(e.below) {
      PromoteHidden(e, v, FirstOfMax(e.below));
      StakeKept(e, v, post);
      SamePromoted(e, Hidden(e, v), h, t);
      r, g := PromoteNext(e, h, t);
      r := InsertBelow(r, v, post);
      g := WriteState(g, v, BelowCapacity, t);
    } else {
      r := InsertConsensus(e, v, post);
      g := h;
    }
  }

  lemma StakeKept(e: Sets, v: Address, post: Amount)
    requires StakeOf(e, v) == post
    ensures StakeOf(Promote(e), v) == post && StakeOf(Demote(e), v) == post
  {
    hide FirstOfMax, LastOfMin, NextPosition;
  }

  /** A below-capacity validator changes its stake. */
  method UpdateBelowValidator(s: Sets, slots: nat, threshold: Amount, v: Address, post: Amount, h: Handles, t: Time)
      returns (r: Sets, g: Handles)
    requires slots >= 1 && TopN(s, slots, threshold) && v in s.states && s.states[v] == BelowCapacity
    requires post != StakeOf(s, v) && (post >= threshold || StakeOf(s, v) >= threshold)
    ensures r == Update(s, slots, threshold, v, post) && g == AfterUpdate(s, slots, threshold, v, post, h, t)
  {
    hide NextPosition, FirstOfMax, LastOfMin, Agree, Demote, Detach, MinAmount, AttachConsensus, AttachBelow, EntryOk,
         WriteState, AfterDemote;
    Left(s, slots, threshold, v, post);
    DetachIsHidden(s, v, post);
    var e := EntryRemoved(s, v, post);
    EndsHidden(e, threshold, v);
    AttachHidden(e, v);
    if post > MinAmount(e.consensus) {
      DemoteHidden(e, v, LastOfMin(e.consensus));
      SameDemoted(e, Hidden(e, v), h, t);
      r, g := InsertAndDemote(e, v, post, h, t);
    } else if post >= threshold {
      r := InsertBelow(e, v, post);
      g := WriteState(h, v, BelowCapacity, t);
    } else {
      r := e.(states := e.states[v := BelowThreshold], positions := e.positions - {v});
      g := WriteState(h, v, BelowThreshold, t);
    }
  }

  lemma SameDemoted(a: Sets, b: Sets, h: Handles, t: Time)
    requires a.consensus == b.consensus
    ensures AfterDemote(a, h, t) == AfterDemote(b, h, t)
  {
  }

  lemma SamePlaced(a: Sets, b: Sets, slots: nat, threshold: Amount, v: Address, h: Handles, t: Time)
    requires a.consensus == b.consensus && a.stakes == b.stakes
    ensures AfterPlace(a, slots, threshold, v, h, t) == AfterPlace(b, slots, threshold, v, h, t)
  {
  }

  /** Placing a validator overwrites its state. */
  lemma PlaceHidden(e: Sets, slots: nat, threshold: Amount, v: Address)
    requires v !in e.positions
    requires e.consensus != map[] ==>
               var k := LastOfMin(e.consensus); EntryOk(e, k, e.consensus[k], Consensus) && e.consensus[k] != v
    ensures Place(Hidden(e, v), slots, threshold, v) == Place(e, slots, threshold, v)
  {
    hide Demote, AttachConsensus, AttachBelow, MinAmount, Count, LastOfMin, EntryOk;
    AttachHidden(e, v);
    assert e.positions - {v} == e.positions;
    if e.consensus != map[] {
      DemoteHidden(e, v, LastOfMin(e.consensus));
    } else {
      DemoteNothing(e);
      DemoteNothing(Hidden(e, v));
    }
  }

  lemma DemoteNothing(e: Sets)
    requires e.consensus == map[]
    ensures Demote(e) == e
  {
  }

  /** A validator below the threshold rises to it. */
  method UpdateOutsideValidator(s: Sets, slots: nat, threshold: Amount, v: Address, post: Amount, h: Handles, t: Time)
      returns (r: Sets, g: Handles)
    requires slots >= 1 && TopN(s, slots, threshold) && v in s.states && s.states[v] == BelowThreshold
    requires post != StakeOf(s, v) && post >= threshold
    ensures r == Update(s, slots, threshold, v, post) && g == AfterUpdate(s, slots, threshold, v, post, h, t)
  {
    hide Agree, Detach, Place, LastOfMin, FirstOfMax, EntryOk, Count, AfterPlace;
    Left(s, slots, threshold, v, post);
    PositionHeld(s, threshold, v);
    DetachIsHidden(s, v, post);
    var e := SetStake(s, v, post);
    EndsHidden(e, threshold, v);
    PlaceHidden(e, slots, threshold, v);
    SamePlaced(e, Hidden(e, v), slots, threshold, v, h, t);
    r, g := InsertValidator(e, slots, threshold, v, h, t);
  }

  lemma EntryHeld(s: Sets, threshold: Amount, v: Address)
    requires Agree(s, threshold) && v in s.states
    ensures v in s.positions ==>
              ((KeyOf(s, v) in s.consensus && s.consensus[KeyOf(s, v)] == v) <==> s.states[v] == Consensus)
  {
    assert ValidatorOk(s, threshold, v);
  }

  /** `update_validator_set` followed by the update of the stake. The stake never goes below zero. */
  method UpdateValidatorSet(s: Sets, slots: nat, threshold: Amount, v: Address, change: int, h: Handles, t: Time)
      returns (r: Sets, g: Handles)
    requires slots >= 1 && TopN(s, slots, threshold) && v in s.states && !Detached(s.states[v])
    requires StakeOf(s, v) + change >= 0
    ensures r == Update(s, slots, threshold, v, StakeOf(s, v) + change)
    ensures g == AfterUpdate(s, slots, threshold, v, StakeOf(s, v) + change, h, t)
    ensures TopN(r, slots, threshold)
  {
    hide Agree, Promote, Demote, Detach, AttachConsensus, AttachBelow, MinAmount, MaxAmount, Place, Count, AfterPlace,
         AfterPromote, AfterDemote, WriteState;
    UpdateTopN(s, slots, threshold, v, StakeOf(s, v) + change);
    var pre := StakeOf(s, v);
    var post: Amount := pre + change;
    PositionHeld(s, threshold, v);
    EntryHeld(s, threshold, v);
    if change == 0 || (pre < threshold && post < threshold) {
      r, g := SetStake(s, v, post), h;
    } else if v in s.positions {
      var key := Key(pre, s.positions[v]);
      var inConsensus := key in s.consensus && s.consensus[key] == v;
      if inConsensus {
        r, g := UpdateConsensusValidator(s, slots, threshold, v, post, h, t);
      } else {
        r, g := UpdateBelowValidator(s, slots, threshold, v, post, h, t);
      }
    } else {
      r, g := UpdateOutsideValidator(s, slots, threshold, v, post, h, t);
    }
  }

  // ---- Removal ----

  /** The sets without the validator's entry and position; its state is still the old one. */
  function Taken(s: Sets, v: Address): Sets {
    var d := Detach(s, v);
    s.(consensus := d.consensus, below := d.below, positions := d.positions)
  }

  /** The validator is in the set that its state names; of the others nothing is said. */
  ghost predicate Placed(s: Sets, threshold: Amount, v: Address) {
    && ValidatorOk(s, threshold, v) && v in s.states
    && (KeyOf(s, v) in s.consensus && s.consensus[KeyOf(s, v)] == v && v in s.positions ==> s.states[v] == Consensus)
  }

  lemma PartlyPlaced(s: Sets, threshold: Amount, v: Address)
    requires AgreePartly(s, threshold) && v in s.states
    ensures Placed(s, threshold, v)
  {
    var states: map<Address, ValidatorState> :|
      Agree(s.(states := states), threshold) && forall w | w in s.states :: w in states && states[w] == s.states[w];
    assert ValidatorOk(s.(states := states), threshold, v);
  }

  /** `remove_consensus_validator`, `remove_below_capacity_validator`: the state tells the set, the stake and the position
      the entry. */
  method RemoveValidator(s: Sets, ghost threshold: Amount, v: Address) returns (r: Sets)
    requires Placed(s, threshold, v)
    ensures r == Taken(s, v)
  {
    match s.states[v]
    case Consensus =>
      var key := Key(StakeOf(s, v), s.positions[v]);
      r := s.(consensus := s.consensus - {key}, positions := s.positions - {v});
    case BelowCapacity =>
      var key := Key(StakeOf(s, v), s.positions[v]);
      r := s.(below := s.below - {key}, positions := s.positions - {v});
    case _ =>
      assert s.positions - {v} == s.positions;
      r := s;
  }

  lemma SetStateTaken(s: Sets, v: Address, state: ValidatorState)
    ensures SetState(Taken(s, v), v, state) == Remove(s, v, state)
    ensures v !in Taken(s, v).positions && Taken(s, v).below == Detach(s, v).below
  {
    assert s.states[v := Inactive][v := state] == s.states[v := state];
  }

  lemma EndsTaken(s: Sets, threshold: Amount, v: Address, state: ValidatorState)
    requires Agree(Remove(s, v, state), threshold)
    ensures Taken(s, v).below != map[] ==>
              var t, k := Taken(s, v), FirstOfMax(Taken(s, v).below);
              && EntryOk(t, k, t.below[k], BelowCapacity) && t.below[k] != v
              && (k in t.consensus ==> t.consensus[k] != t.below[k])
  {
    hide Agree, FirstOfMax, LastOfMin, Detach;
    SetStateTaken(s, v, state);
    Ends(Remove(s, v, state), threshold);
  }

  /** A promotion does not look at the states. */
  lemma PromoteEntries(a: Sets, b: Sets)
    requires EntriesOf(a) == EntriesOf(b)
    ensures EntriesOf(Promote(a)) == EntriesOf(Promote(b))
  {
    hide NextPosition, FirstOfMax;
  }

  /** Remove a validator from the sets of the pipeline epoch and promote the next one if it was in the consensus set. The
      validator's own state is set later. */
  method RemoveAndPromote(s: Sets, ghost slots: nat, ghost threshold: Amount, v: Address, ghost state: ValidatorState,
                          h: Handles, pipelineEpoch: Epoch)
      returns (r: Entries, g: Handles)
    requires TopN(s, slots, threshold) && v in s.states && Detached(state)
    ensures r == EntriesOf(Retire(s, v, state)) && g == AfterRemoval(s, v, h, pipelineEpoch)
  {
    hide Agree, Ranked, Full, Promote, Detach, FirstOfMax, EntryOk, Count, AfterPromote, Placed;
    RemoveKeeps(s, slots, threshold, v, state);
    AgreePlaced(s, threshold, v);
    SetStateTaken(s, v, state);
    EndsTaken(s, threshold, v, state);
    var removed := RemoveValidator(s, threshold, v);
    if s.states[v] == Consensus {
      PromoteEntries(removed, Remove(s, v, state));
      SamePromoted(removed, Detach(s, v), h, At(pipelineEpoch, 0));
      removed, g := PromoteNext(removed, h, At(pipelineEpoch, 0));
    } else {
      g := h;
    }
    r := EntriesOf(removed);
  }

  lemma AgreePlaced(s: Sets, threshold: Amount, v: Address)
    requires Agree(s, threshold) && v in s.states
    ensures Placed(s, threshold, v)
  {
  }

  /** A new validator: the state that it gets first is overwritten. */
  lemma NewValidator(s: Sets, slots: nat, threshold: Amount, v: Address)
    requires Agree(s, threshold) && v !in s.states
    ensures var e := SetState(SetStake(s, v, 0), v, BelowThreshold);
            && Place(e, slots, threshold, v) == Become(s, slots, threshold, v)
            && (e.consensus != map[] ==> EntryOk(e, LastOfMin(e.consensus), e.consensus[LastOfMin(e.consensus)], Consensus))
  {
    hide Agree, Place, LastOfMin, FirstOfMax, EntryOk;
    var e := SetState(SetStake(s, v, 0), v, BelowThreshold);
    PositionHeld(s, threshold, v);
    OutsideAgree(s, threshold, v, 0, Inactive);
    assert s.positions - {v} == s.positions;
    assert e.states[v := Inactive] == s.states[v := Inactive];
    assert Hidden(e, v) == SetState(SetStake(s, v, 0), v, Inactive);
    EndsHidden(e, threshold, v);
    PlaceHidden(e, slots, threshold, v);
  }

  method CopyEntries<K, V>(m: map<K, V>) returns (c: map<K, V>)
    ensures c == m
  {
    c := map[];
    var rest := m.Keys;
    while rest != {}
      invariant rest <= m.Keys && c.Keys == m.Keys - rest
      invariant forall k | k in c :: c[k] == m[k]
      decreases rest
    {
      var k :| k in rest;
      c := c[k := m[k]];
      rest := rest - {k};
    }
  }

  // ---- Genesis and the storage ----

  /** `become_validator`: the new validator is below the threshold until it is placed. */
  method AddValidator(s: Sets, slots: nat, threshold: Amount, v: Address, h: Handles, t: Time) returns (r: Sets,
                      g: Handles)
    requires slots >= 1 && TopN(s, slots, threshold) && v !in s.states
    ensures r == Become(s, slots, threshold, v) && g == AfterBecome(s, slots, threshold, v, h, t)
  {
    hide Agree, Ranked, Full, Place, LastOfMin, FirstOfMax, AfterPlace, WriteState;
    NewValidator(s, slots, threshold, v);
    var e := SetState(SetStake(s, v, 0), v, BelowThreshold);
    g := WriteState(h, v, BelowThreshold, t);
    SamePlaced(e, SetState(SetStake(s, v, 0), v, Inactive), slots, threshold, v, g, t);
    r, g := InsertValidator(e, slots, threshold, v, g, t);
  }

  /** The stake of a validator changes; jailed and inactive validators stay out of the sets. */
  method ChangeValidator(s: Sets, slots: nat, threshold: Amount, v: Address, change: int, h: Handles, t: Time)
      returns (r: Sets, g: Handles)
    requires slots >= 1 && TopN(s, slots, threshold) && v in s.states && StakeOf(s, v) + change >= 0
    ensures r == Change(s, slots, threshold, v, StakeOf(s, v) + change)
    ensures g == AfterChange(s, slots, threshold, v, StakeOf(s, v) + change, h, t)
  {
    hide Agree, Ranked, Full, Update, AfterUpdate;
    if Detached(s.states[v]) {
      r, g := SetStake(s, v, StakeOf(s, v) + change), h;
    } else {
      r, g := UpdateValidatorSet(s, slots, threshold, v, change, h, t);
    }
  }

  /** Genesis adds the validators and their bonds at the first epoch. */
  method BuildGenesis(config: VE.Config, ops: seq<VE.GenesisOp>) returns (sets: Sets, h: Handles)
    requires config.slots >= 1
    ensures sets == VE.GenesisSets(config, ops) && h == GenesisHandles(config, ops)
  {
    hide TopN, Become, Change, AfterBecome, AfterChange;
    sets, h := EMPTY, map[];
    for i := 0 to |ops|
      invariant sets == VE.GenesisSets(config, ops[..i]) && h == GenesisHandles(config, ops[..i])
    {
      PrefixNext(ops, i);
      VE.GenesisTopN(config, ops[..i]);
      match ops[i]
      case GenesisValidator(v) =>
        if v !in sets.states {
          sets, h := AddValidator(sets, config.slots, config.threshold, v, h, At(0, 0));
        }
      case GenesisBond(v, stake) =>
        if v in sets.states {
          sets, h := ChangeValidator(sets, config.slots, config.threshold, v, stake - StakeOf(sets, v), h, At(0, 0));
        }
    }
    assert ops[..|ops|] == ops;
  }

  lemma StrippedPipeline(c: VE.Config, s: State, sets: Sets)
    requires |s.window| == c.pipeline + 1
    ensures Stripped(VE.WithPipeline(c, Seen(c, s), sets).window) == s.window[c.pipeline := EntriesOf(sets)]
  {
    hide StatesAt;
  }

  lemma ReadIs(c: VE.Config, s: State, i: nat, v: Address)
    requires i < |s.window|
    ensures StateIn(SetsAt(c, s, i).states, v) == ReadState(c.pipeline, s.handles, v, s.now + i)
    ensures Seen(c, s).window[i] == SetsAt(c, s, i)
  {
    hide E.ValueAt;
    if v !in s.handles {
      NothingRead(c.pipeline, s.now + i);
    }
  }

  class Storage {
    const config: VE.Config
    var now: Epoch
    var window: seq<Entries>
    var handles: Handles
    var lastSlash: map<Address, Epoch>

    constructor (config: VE.Config, genesis: seq<VE.GenesisOp>)
      requires config.slots >= 1
      ensures this.config == config && Value() == Initial(config, genesis)
      ensures Valid()
    {
      var sets, h := BuildGenesis(config, genesis);
      InitialMatches(config, genesis);
      this.config := config;
      now, lastSlash, handles := 0, map[], h;
      window := seq(config.pipeline + 1, _ => EntriesOf(sets));
      new;
      assert window == Initial(config, genesis).window;
    }

    function Value(): State
      reads this
    {
      State(now, window, handles, lastSlash)
    }

    ghost predicate Valid()
      reads this
    {
      config.slots >= 1 && |window| == config.pipeline + 1 && Inv(config, Value())
    }

    /** The sets of the pipeline epoch with the states that are read for it. */
    function AtPipeline(): Sets
      requires |window| == config.pipeline + 1
      reads this
    {
      SetsAt(config, Value(), config.pipeline)
    }

    /** A bond, unbond or redelegation: the change is made at the pipeline epoch. */
    method ChangeStake(v: Address, change: int) returns (r: Result<(), VE.Error>)
      requires Valid()
      requires v in AtPipeline().states ==> StakeOf(AtPipeline(), v) + change >= 0
      modifies this
      ensures Valid()
      ensures v !in old(AtPipeline()).states ==> r == Err(VE.NotAValidator) && Value() == old(Value())
      ensures v in old(AtPipeline()).states ==>
                r.Ok? && var stake := StakeOf(old(AtPipeline()), v) + change;
                         Step(config, old(Value()), VE.ChangeStake(v, stake)) == Result.Ok(Value())
    {
      hide Agree, Ranked, Full, Change, AfterChange, Inv, StatesAt;
      var sets := AtPipeline();
      if v !in sets.states {
        return Err(VE.NotAValidator);
      }
      InvSets(config, Value(), config.pipeline);
      var stake: Amount := StakeOf(sets, v) + change;
      StepInv(config, Value(), VE.ChangeStake(v, stake));
      StrippedPipeline(config, Value(), Change(sets, config.slots, config.threshold, v, stake));
      sets, handles := ChangeValidator(sets, config.slots, config.threshold, v, change, handles, At(now, config.pipeline));
      window := window[config.pipeline := EntriesOf(sets)];
      return Ok(());
    }

    method BecomeValidator(v: Address) returns (r: Result<(), VE.Error>)
      requires Valid()
      modifies this
      ensures Valid()
      ensures var step := Step(config, old(Value()), VE.BecomeValidator(v));
              if step.Ok? then r == Ok(()) && Value() == step.value
              else r == Err(step.error) && Value() == old(Value())
    {
      hide Agree, Ranked, Full, Become, AfterBecome, Inv, StatesAt;
      var sets := AtPipeline();
      if v in sets.states {
        return Err(VE.AlreadyValidator);
      }
      InvSets(config, Value(), config.pipeline);
      StepInv(config, Value(), VE.BecomeValidator(v));
      StrippedPipeline(config, Value(), Become(sets, config.slots, config.threshold, v));
      sets, handles := AddValidator(sets, config.slots, config.threshold, v, handles, At(now, config.pipeline));
      window := window[config.pipeline := EntriesOf(sets)];
      return Ok(());
    }

    /** The state is read at every epoch of the window until another one is found. */
    method FindOther(v: Address, state: ValidatorState) returns (other: Option<nat>)
      ensures other == VE.FirstNot(Seen(config, Value()).window, v, state, 0)
    {
      hide StatesAt, ReadState;
      ghost var seen := Seen(config, Value()).window;
      for i := 0 to |window|
        invariant VE.FirstNot(seen, v, state, i) == VE.FirstNot(seen, v, state, 0)
      {
        ReadIs(config, Value(), i, v);
        if ReadState(config.pipeline, handles, v, now + i) != Some(state) {
          return Some(i);
        }
      }
      return None;
    }

    /** Put a jailed or inactive validator back into the sets of the pipeline epoch. */
    method PutBack(v: Address)
      requires Valid() && v in AtPipeline().states && Detached(AtPipeline().states[v])
      modifies `window, `handles
      ensures var sets, t := old(AtPipeline()), At(now, config.pipeline);
              var placed := Place(sets, config.slots, config.threshold, v);
              && window == Stripped(VE.WithPipeline(config, Seen(config, old(Value())), placed).window)
              && handles == AfterPlace(sets, config.slots, config.threshold, v, old(handles), t)
    {
      hide Agree, Ranked, Full, Place, AfterPlace, Inv, StatesAt, LastOfMin, FirstOfMax, EntryOk;
      var sets := AtPipeline();
      InvSets(config, Value(), config.pipeline);
      Ends(sets, config.threshold);
      StrippedPipeline(config, Value(), Place(sets, config.slots, config.threshold, v));
      sets, handles := InsertValidator(sets, config.slots, config.threshold, v, handles, At(now, config.pipeline));
      window := window[config.pipeline := EntriesOf(sets)];
    }

    method Unjail(v: Address) returns (r: Result<(), VE.Error>)
      requires Valid()
      modifies this
      ensures Valid()
      ensures var step := Step(config, old(Value()), VE.Unjail(v));
              if step.Ok? then r == Ok(()) && Value() == step.value
              else r == Err(step.error) && Value() == old(Value())
    {
      hide Agree, Ranked, Full, Place, AfterPlace, Inv, StatesAt, ReadState, VE.FirstNot;
      var other := FindOther(v, Jailed);
      if other.Some? {
        ReadIs(config, Value(), other.value, v);
        var state := ReadState(config.pipeline, handles, v, now + other.value);
        return Err(if state.Some? then VE.NotJailed else VE.NotAValidator);
      }
      if v in lastSlash && now < lastSlash[v] + config.slashProcessing {
        return Err(VE.NotEligible);
      }
      StepInv(config, Value(), VE.Unjail(v));
      assert VE.HasStateAt(Seen(config, Value()).window, v, Jailed, config.pipeline);
      PutBack(v);
      return Ok(());
    }

    method Reactivate(v: Address) returns (r: Result<(), VE.Error>)
      requires Valid()
      modifies this
      ensures Valid()
      ensures var step := Step(config, old(Value()), VE.Reactivate(v));
              if step.Ok? then r == Ok(()) && Value() == step.value
              else r == Err(step.error) && Value() == old(Value())
    {
      hide Agree, Ranked, Full, Place, AfterPlace, Inv, StatesAt, ReadState, VE.FirstNot, WriteState;
      var other := FindOther(v, Inactive);
      if other.Some? {
        ReadIs(config, Value(), other.value, v);
        var state := ReadState(config.pipeline, handles, v, now + other.value);
        return Err(if state.Some? then VE.NotInactive else VE.NoStateFound);
      }
      StepInv(config, Value(), VE.Reactivate(v));
      assert VE.HasStateAt(Seen(config, Value()).window, v, Inactive, config.pipeline);
      if v in lastSlash && now < lastSlash[v] + config.slashProcessing {
        StrippedPipeline(config, Value(), SetState(AtPipeline(), v, Jailed));
        handles := WriteState(handles, v, Jailed, At(now + config.pipeline, 0));
        assert window == window[config.pipeline := window[config.pipeline]];
        return Ok(());
      }
      PutBack(v);
      return Ok(());
    }

    method Deactivate(v: Address) returns (r: Result<(), VE.Error>)
      requires Valid()
      modifies this
      ensures Valid()
      ensures var step := Step(config, old(Value()), VE.Deactivate(v));
              if step.Ok? then r == Ok(()) && Value() == step.value
              else r == Err(step.error) && Value() == old(Value())
    {
      hide Agree, Ranked, Full, Retire, AfterRemoval, Inv, StatesAt, WriteState;
      var sets := AtPipeline();
      if v !in sets.states {
        return Err(VE.NotAValidator);
      }
      if sets.states[v] == Inactive {
        return Err(VE.AlreadyInactive);
      }
      if sets.states[v] == Jailed {
        return Err(VE.ValidatorIsJailed);
      }
      InvSets(config, Value(), config.pipeline);
      StepInv(config, Value(), VE.Deactivate(v));
      StrippedPipeline(config, Value(), Retire(sets, v, Inactive));
      var entries, h := RemoveAndPromote(sets, config.slots, config.threshold, v, Inactive, handles, now + config.pipeline);
      window := window[config.pipeline := entries];
      handles := WriteState(h, v, Inactive, At(now, config.pipeline));
      return Ok(());
    }

    /** `jail_validator`: take the validator out of the sets of every epoch from an offset on, then set its states. It must
        have a state at all these epochs, or the code panics. */
    method Jail(v: Address, offset: nat, infraction: Option<Epoch>)
      requires Valid() && offset <= config.pipeline && VE.HasState(Seen(config, Value()), offset, v)
      modifies this
      ensures Valid()
      ensures Step(config, old(Value()), VE.JailFrom(v, offset, infraction)) == Result.Ok(Value())
    {
      hide Agree, Ranked, Full, AgreePartly, Retire, Remove, AfterRemoval, AfterJailing, Inv, StatesAt;
      StepInv(config, Value(), VE.JailFrom(v, offset, infraction));
      assert Seen(config, Value()).window[config.pipeline] == AtPipeline();
      if infraction.Some? && (v !in lastSlash || infraction.value > lastSlash[v]) {
        lastSlash := lastSlash[v := infraction.value];
      }
      ghost var was := old(Value());
      TakeFromSets(v, offset, was);
      JailStates(v, offset);
    }

    /** The first loop of `jail_validator` */
    method TakeFromSets(v: Address, offset: nat, ghost was: State)
      requires config.slots >= 1 && Inv(config, was) && |window| == config.pipeline + 1
      requires was.now == now && was.window == window && was.handles == handles
      requires offset <= config.pipeline && VE.HasState(Seen(config, was), offset, v)
      requires v in Seen(config, was).window[config.pipeline].states
      modifies `window, `handles
      ensures window == Stripped(VE.JailedWindow(config, Seen(config, was).window, v, offset))
      ensures v in SetsAt(config, was, config.pipeline).states
      ensures handles == AfterRemoval(SetsAt(config, was, config.pipeline), v, was.handles, now + config.pipeline)
    {
      hide Agree, Ranked, Full, AgreePartly, Retire, AfterRemoval, Inv, StatesAt, Placed, Detach;
      ghost var seen := Seen(config, was).window;
      ghost var jailed := VE.JailedWindow(config, seen, v, offset);
      for i := offset to config.pipeline
        invariant |window| == config.pipeline + 1 && handles == was.handles
        invariant forall j | 0 <= j < |window| && !(offset <= j < i) :: window[j] == was.window[j]
        invariant forall j | offset <= j < i :: window[j] == EntriesOf(jailed[j])
      {
        InvSets(config, was, i);
        var sets := SetsAt(config, Value(), i);
        assert seen[i] == sets;
        PartlyPlaced(sets, config.threshold, v);
        SetStateTaken(sets, v, Jailed);
        sets := RemoveValidator(sets, config.threshold, v);
        window := window[i := EntriesOf(sets)];
      }
      InvSets(config, was, config.pipeline);
      var last := SetsAt(config, Value(), config.pipeline);
      assert seen[config.pipeline] == last;
      var entries, h := RemoveAndPromote(last, config.slots, config.threshold, v, Jailed, handles, now + config.pipeline);
      window, handles := window[config.pipeline := entries], h;
      forall j | 0 <= j <= config.pipeline ensures window[j] == EntriesOf(jailed[j]) {
        assert j < offset ==> EntriesOf(seen[j]) == was.window[j];
      }
    }

    /** Its second loop */
    method JailStates(v: Address, offset: nat)
      requires offset <= config.pipeline + 1
      modifies `handles
      ensures handles == AfterJailing(old(handles), v, now, offset, config.pipeline + 1)
    {
      hide WriteState;
      for i := offset to config.pipeline + 1
        invariant handles == AfterJailing(old(handles), v, now, offset, i)
      {
        handles := WriteState(handles, v, Jailed, At(now, i));
      }
    }

    /** `copy_validator_sets_and_positions`: the sets of the last epoch are copied entry by entry to the new one. */
    method NewEpoch()
      requires Valid()
      modifies this
      ensures Valid()
      ensures Step(config, old(Value()), VE.NextEpoch) == Result.Ok(Value())
    {
      hide Agree, Ranked, Full, Inv, StatesAt;
      StepInv(config, Value(), VE.NextEpoch);
      ghost var seen := Seen(config, Value()).window;
      var previous := window[config.pipeline];
      var consensus := CopyEntries(previous.consensus);
      var below := CopyEntries(previous.below);
      var positions := CopyEntries(previous.positions);
      window := window[1..] + [previous.(consensus := consensus, below := below, positions := positions)];
      now := now + 1;
      assert window == Stripped(seen[1..] + [seen[config.pipeline]]);
    }
  }
}
