/** The validator sets of one epoch: the consensus set and the below-capacity set, both ordered by stake and position, with
    the index of positions, the states and the stakes of the validators. */
module ValidatorSets {
  import opened Types
  import opened FiniteSums

  type Position = nat

  datatype Key = Key(stake: Amount, position: Position)

  datatype ValidatorState = Consensus | BelowCapacity | BelowThreshold | Inactive | Jailed

  datatype Sets = Sets(
    consensus: map<Key, Address>,
    below: map<Key, Address>,
    positions: map<Address, Position>,
    states: map<Address, ValidatorState>,
    stakes: map<Address, Amount>)

  const EMPTY := Sets(map[], map[], map[], map[], map[])

  function StakeOf(s: Sets, v: Address): Amount {
    Get(s.stakes, v)
  }

  function KeyOf(s: Sets, v: Address): Key {
    Key(StakeOf(s, v), Get(s.positions, v))
  }

  // ---- Ordered iteration over a set ----

  function Amounts(m: map<Key, Address>): set<Amount> {
    set k | k in m :: k.stake
  }

  /** The positions in the bucket of one stake. */
  function Bucket(m: map<Key, Address>, stake: Amount): (ps: set<Position>)
    ensures forall k | k in m && k.stake == stake :: k.position in ps
  {
    set k | k in m && k.stake == stake :: k.position
  }

  lemma InBucket(m: map<Key, Address>, stake: Amount, p: Position)
    ensures p in Bucket(m, stake) <==> Key(stake, p) in m
  {
    assert Key(stake, p).position == p;
  }

  /** `find_next_position` */
  function NextPosition(m: map<Key, Address>, stake: Amount): (p: Position)
    ensures Key(stake, p) !in m
    ensures forall j | j in m && j.stake == stake :: j.position < p
  {
    if Bucket(m, stake) == {} then
      InBucket(m, stake, 0);
      0
    else
      InBucket(m, stake, MaxKey(Bucket(m, stake)) + 1);
      MaxKey(Bucket(m, stake)) + 1
  }

  /** `get_min_consensus_validator_amount` */
  function MinAmount(m: map<Key, Address>): (a: Amount)
    ensures forall k | k in m :: a <= k.stake
    ensures if m == map[] then a == 0 else exists k :: k in m && k.stake == a
  {
    if m == map[] then 0
    else
      HasAmount(m);
      MinKey(Amounts(m))
  }

  /** `get_max_below_capacity_validator_amount` with its default */
  function MaxAmount(m: map<Key, Address>): (a: Amount)
    ensures forall k | k in m :: k.stake <= a
    ensures if m == map[] then a == 0 else exists k :: k in m && k.stake == a
  {
    if m == map[] then 0
    else
      HasAmount(m);
      MaxKey(Amounts(m))
  }

  lemma HasAmount(m: map<Key, Address>)
    requires m != map[]
    ensures Amounts(m) != {}
    ensures forall k | k in m :: k.stake in Amounts(m)
  {
    var k :| k in m;
    assert k.stake in Amounts(m);
  }

  /** The last position of the least stake: of the validators with the least stake, the latest comer is demoted. */
  function LastOfMin(m: map<Key, Address>): (k: Key)
    requires m != map[]
    ensures k in m && k.stake == MinAmount(m)
    ensures forall j | j in m && j.stake == k.stake :: j.position <= k.position
  {
    HasAmount(m);
    AmountBucket(m, MinAmount(m));
    InBucket(m, MinAmount(m), MaxKey(Bucket(m, MinAmount(m))));
    Key(MinAmount(m), MaxKey(Bucket(m, MinAmount(m))))
  }

  /** The first position of the greatest stake: of the validators with the greatest stake, the first comer is promoted. */
  function FirstOfMax(m: map<Key, Address>): (k: Key)
    requires m != map[]
    ensures k in m && k.stake == MaxAmount(m)
    ensures forall j | j in m && j.stake == k.stake :: k.position <= j.position
  {
    HasAmount(m);
    AmountBucket(m, MaxAmount(m));
    InBucket(m, MaxAmount(m), MinKey(Bucket(m, MaxAmount(m))));
    Key(MaxAmount(m), MinKey(Bucket(m, MaxAmount(m))))
  }

  lemma AmountBucket(m: map<Key, Address>, a: Amount)
    requires a in Amounts(m)
    ensures Bucket(m, a) != {}
  {
    var k :| k in m && k.stake == a;
    assert k.position in Bucket(m, a);
  }

  /** `get_num_consensus_validators` */
  function Count(m: map<Key, Address>): nat {
    |m|
  }

  // ---- Moving one validator ----

  /** Take a validator out of whichever set it is in. */
  function Detach(s: Sets, v: Address): Sets {
    var k := KeyOf(s, v);
    var inConsensus := v in s.positions && k in s.consensus && s.consensus[k] == v;
    s.(consensus := if inConsensus then s.consensus - {k} else s.consensus,
       below := if v in s.positions && !inConsensus then s.below - {k} else s.below,
       positions := s.positions - {v},
       states := s.states[v := Inactive])
  }

  function SetStake(s: Sets, v: Address, stake: Amount): Sets {
    s.(stakes := s.stakes[v := stake])
  }

  function SetState(s: Sets, v: Address, state: ValidatorState): Sets {
    s.(states := s.states[v := state])
  }

  function AttachConsensus(s: Sets, v: Address): Sets {
    var p := NextPosition(s.consensus, StakeOf(s, v));
    s.(consensus := s.consensus[Key(StakeOf(s, v), p) := v],
       positions := s.positions[v := p],
       states := s.states[v := Consensus])
  }

  function AttachBelow(s: Sets, v: Address): Sets {
    var p := NextPosition(s.below, StakeOf(s, v));
    s.(below := s.below[Key(StakeOf(s, v), p) := v],
       positions := s.positions[v := p],
       states := s.states[v := BelowCapacity])
  }

  /** Promote the best below-capacity validator, if there is one. */
  function Promote(s: Sets): Sets {
    if s.below == map[] then s
    else
      var v := s.below[FirstOfMax(s.below)];
      AttachConsensus(Detach(s, v), v)
  }

  /** Demote the worst consensus validator. Without any the code panics; a full set with at least one slot has one. */
  function Demote(s: Sets): Sets {
    if s.consensus == map[] then s
    else
      var v := s.consensus[LastOfMin(s.consensus)];
      AttachBelow(Detach(s, v), v)
  }

  // ---- The operations on the sets of one epoch ----

  /** `insert_validator_into_validator_set` */
  function Place(s: Sets, slots: nat, threshold: Amount, v: Address): Sets {
    var stake := StakeOf(s, v);
    if stake < threshold then SetState(s, v, BelowThreshold)
    else if Count(s.consensus) < slots then AttachConsensus(s, v)
    else if stake > MinAmount(s.consensus) then AttachConsensus(Demote(s), v)
    else AttachBelow(s, v)
  }

  predicate Detached(state: ValidatorState) {
    state == Jailed || state == Inactive
  }

  /** `update_validator_set` and the stake update that follows it, for a validator that is neither jailed nor inactive. */
  function Update(s: Sets, slots: nat, threshold: Amount, v: Address, post: Amount): Sets
    requires v in s.states
  {
    var pre := StakeOf(s, v);
    if post == pre || (pre < threshold && post < threshold) then SetStake(s, v, post)
    else
      var d := SetStake(Detach(s, v), v, post);
      match s.states[v]
      case Consensus =>
        if post < threshold then Promote(SetState(d, v, BelowThreshold))
        else if post < MaxAmount(d.below) then AttachBelow(Promote(d), v)
        else AttachConsensus(d, v)
      case BelowCapacity =>
        if post > MinAmount(d.consensus) then AttachConsensus(Demote(d), v)
        else if post >= threshold then AttachBelow(d, v)
        else SetState(d, v, BelowThreshold)
      case _ => Place(d, slots, threshold, v)
  }

  /** A bond, an unbond or a redelegation: the sets stay as they are if the validator is jailed or inactive. */
  function Change(s: Sets, slots: nat, threshold: Amount, v: Address, post: Amount): Sets
    requires v in s.states
  {
    if Detached(s.states[v]) then SetStake(s, v, post) else Update(s, slots, threshold, v, post)
  }

  /** A new validator starts with no stake. */
  function Become(s: Sets, slots: nat, threshold: Amount, v: Address): Sets {
    Place(SetState(SetStake(s, v, 0), v, Inactive), slots, threshold, v)
  }

  /** Remove a validator from the sets, and promote the next one if it was in the consensus set. */
  function Retire(s: Sets, v: Address, state: ValidatorState): Sets
    requires v in s.states
  {
    var removed := SetState(Detach(s, v), v, state);
    if s.states[v] == Consensus then Promote(removed) else removed
  }

  /** Remove a validator from the sets without promotion. */
  function Remove(s: Sets, v: Address, state: ValidatorState): Sets {
    SetState(Detach(s, v), v, state)
  }

  // ---- The sets, positions and states agree ----

  /** One entry of a set belongs to a validator in the matching state, at its stake and position. */
  ghost predicate EntryOk(s: Sets, k: Key, v: Address, state: ValidatorState) {
    v in s.states && s.states[v] == state && v in s.positions && KeyOf(s, v) == k
  }

  /** One validator is in the set that its state names, and in no set otherwise. */
  ghost predicate ValidatorOk(s: Sets, threshold: Amount, v: Address) {
    if v !in s.states then v !in s.positions && v !in s.stakes
    else
      v in s.stakes &&
      match s.states[v]
      case Consensus =>
        v in s.positions && KeyOf(s, v) in s.consensus && s.consensus[KeyOf(s, v)] == v && threshold <= StakeOf(s, v)
      case BelowCapacity =>
        v in s.positions && KeyOf(s, v) in s.below && s.below[KeyOf(s, v)] == v && threshold <= StakeOf(s, v)
      case BelowThreshold => v !in s.positions && StakeOf(s, v) < threshold
      case _ => v !in s.positions
  }

  ghost predicate Agree(s: Sets, threshold: Amount) {
    && (forall k | k in s.consensus :: EntryOk(s, k, s.consensus[k], Consensus))
    && (forall k | k in s.below :: EntryOk(s, k, s.below[k], BelowCapacity))
    && (forall v: Address :: ValidatorOk(s, threshold, v))
  }

  /** No more consensus validators than slots, and none with less stake than a below-capacity one. */
  ghost predicate Ranked(s: Sets, slots: nat) {
    && Count(s.consensus) <= slots
    && forall c, b | c in s.consensus && b in s.below :: b.stake <= c.stake
  }

  /** Only a full consensus set leaves validators below capacity. */
  ghost predicate Full(s: Sets, slots: nat) {
    s.below != map[] ==> Count(s.consensus) == slots
  }

  ghost predicate TopN(s: Sets, slots: nat, threshold: Amount) {
    Agree(s, threshold) && Ranked(s, slots) && Full(s, slots)
  }

  // ---- Moves keep the agreement ----

  lemma DetachOther(s: Sets, threshold: Amount, v: Address, w: Address)
    requires ValidatorOk(s, threshold, v) && ValidatorOk(s, threshold, w) && v in s.states
    ensures ValidatorOk(Detach(s, v), threshold, w)
    ensures v !in Detach(s, v).positions
  {
  }

  lemma DetachAgree(s: Sets, threshold: Amount, v: Address)
    requires Agree(s, threshold) && v in s.states
    ensures Agree(Detach(s, v), threshold)
    ensures v !in Detach(s, v).positions
  {
    hide ValidatorOk, EntryOk, Detach;
    var d := Detach(s, v);
    forall w: Address ensures ValidatorOk(d, threshold, w) {
      DetachOther(s, threshold, v, w);
    }
    forall k | k in d.consensus ensures EntryOk(d, k, d.consensus[k], Consensus) {
      DetachEntries(s, threshold, v, k);
    }
    forall k | k in d.below ensures EntryOk(d, k, d.below[k], BelowCapacity) {
      DetachEntries(s, threshold, v, k);
    }
    DetachOther(s, threshold, v, v);
  }

  lemma DetachEntries(s: Sets, threshold: Amount, v: Address, k: Key)
    requires ValidatorOk(s, threshold, v) && v in s.states
    requires k in s.consensus ==> EntryOk(s, k, s.consensus[k], Consensus)
    requires k in s.below ==> EntryOk(s, k, s.below[k], BelowCapacity)
    ensures var d := Detach(s, v);
            && (k in d.consensus ==> EntryOk(d, k, d.consensus[k], Consensus))
            && (k in d.below ==> EntryOk(d, k, d.below[k], BelowCapacity))
  {
  }

  /** What is left of the two sets after taking a validator out. */
  lemma DetachSets(s: Sets, threshold: Amount, v: Address)
    requires ValidatorOk(s, threshold, v) && v in s.states
    requires KeyOf(s, v) in s.consensus ==> EntryOk(s, KeyOf(s, v), s.consensus[KeyOf(s, v)], Consensus)
    ensures s.states[v] == Consensus ==>
              KeyOf(s, v) in s.consensus && Detach(s, v).consensus == s.consensus - {KeyOf(s, v)} && Detach(s, v).below == s.below
    ensures s.states[v] == BelowCapacity ==>
              KeyOf(s, v) in s.below && Detach(s, v).consensus == s.consensus && Detach(s, v).below == s.below - {KeyOf(s, v)}
    ensures s.states[v] != Consensus && s.states[v] != BelowCapacity ==>
              v !in s.positions && Detach(s, v).consensus == s.consensus && Detach(s, v).below == s.below
  {
  }

  /** Changing the stake or the state of a validator that is in no set. */
  lemma OutsideAgree(s: Sets, threshold: Amount, v: Address, stake: Amount, state: ValidatorState)
    requires Agree(s, threshold) && v !in s.positions && state != Consensus && state != BelowCapacity
    requires state == BelowThreshold ==> stake < threshold
    ensures Agree(SetState(SetStake(s, v, stake), v, state), threshold)
  {
    var d := SetState(SetStake(s, v, stake), v, state);
    hide ValidatorOk, EntryOk;
    forall w: Address ensures ValidatorOk(d, threshold, w) {
      OutsideOther(s, threshold, v, stake, state, w);
    }
    forall k | k in d.consensus ensures EntryOk(d, k, d.consensus[k], Consensus) {
      OutsideEntry(s, v, stake, state, k, d.consensus[k], Consensus);
    }
    forall k | k in d.below ensures EntryOk(d, k, d.below[k], BelowCapacity) {
      OutsideEntry(s, v, stake, state, k, d.below[k], BelowCapacity);
    }
  }

  lemma OutsideOther(s: Sets, threshold: Amount, v: Address, stake: Amount, state: ValidatorState, w: Address)
    requires ValidatorOk(s, threshold, w) && v !in s.positions && state != Consensus && state != BelowCapacity
    requires state == BelowThreshold ==> stake < threshold
    ensures ValidatorOk(SetState(SetStake(s, v, stake), v, state), threshold, w)
  {
  }

  lemma OutsideEntry(s: Sets, v: Address, stake: Amount, state: ValidatorState, k: Key, w: Address,
                     member: ValidatorState)
    requires EntryOk(s, k, w, member) && v !in s.positions
    ensures EntryOk(SetState(SetStake(s, v, stake), v, state), k, w, member)
  {
  }

  lemma AttachOther(s: Sets, threshold: Amount, v: Address, w: Address)
    requires ValidatorOk(s, threshold, w) && v in s.stakes && v !in s.positions && threshold <= StakeOf(s, v)
    ensures ValidatorOk(AttachConsensus(s, v), threshold, w)
    ensures ValidatorOk(AttachBelow(s, v), threshold, w)
  {
    hide NextPosition;
  }

  lemma AttachEntries(s: Sets, v: Address, k: Key)
    requires v !in s.positions
    requires k in s.consensus ==> EntryOk(s, k, s.consensus[k], Consensus)
    requires k in s.below ==> EntryOk(s, k, s.below[k], BelowCapacity)
    ensures var d := AttachConsensus(s, v);
            && (k in d.consensus ==> EntryOk(d, k, d.consensus[k], Consensus))
            && (k in d.below ==> EntryOk(d, k, d.below[k], BelowCapacity))
    ensures var d := AttachBelow(s, v);
            && (k in d.consensus ==> EntryOk(d, k, d.consensus[k], Consensus))
            && (k in d.below ==> EntryOk(d, k, d.below[k], BelowCapacity))
  {
    hide NextPosition;
  }

  lemma AttachConsensusAgree(s: Sets, threshold: Amount, v: Address)
    requires Agree(s, threshold) && v in s.states && v !in s.positions && threshold <= StakeOf(s, v)
    ensures Agree(AttachConsensus(s, v), threshold)
  {
    PositionHeld(s, threshold, v);
    hide ValidatorOk, EntryOk, AttachConsensus, AttachBelow;
    var d := AttachConsensus(s, v);
    forall w: Address ensures ValidatorOk(d, threshold, w) {
      AttachOther(s, threshold, v, w);
    }
    forall k | k in d.consensus ensures EntryOk(d, k, d.consensus[k], Consensus) {
      AttachEntries(s, v, k);
    }
    forall k | k in d.below ensures EntryOk(d, k, d.below[k], BelowCapacity) {
      AttachEntries(s, v, k);
    }
  }

  lemma AttachBelowAgree(s: Sets, threshold: Amount, v: Address)
    requires Agree(s, threshold) && v in s.states && v !in s.positions && threshold <= StakeOf(s, v)
    ensures Agree(AttachBelow(s, v), threshold)
  {
    PositionHeld(s, threshold, v);
    hide ValidatorOk, EntryOk, AttachConsensus, AttachBelow;
    var d := AttachBelow(s, v);
    forall w: Address ensures ValidatorOk(d, threshold, w) {
      AttachOther(s, threshold, v, w);
    }
    forall k | k in d.consensus ensures EntryOk(d, k, d.consensus[k], Consensus) {
      AttachEntries(s, v, k);
    }
    forall k | k in d.below ensures EntryOk(d, k, d.below[k], BelowCapacity) {
      AttachEntries(s, v, k);
    }
  }

  // ---- Moves and the ranking ----

  lemma RemoveCount(m: map<Key, Address>, k: Key)
    requires k in m
    ensures Count(m - {k}) == Count(m) - 1
  {
    assert (m - {k}).Keys == m.Keys - {k};
  }

  lemma InsertCount(m: map<Key, Address>, k: Key, v: Address)
    requires k !in m
    ensures Count(m[k := v]) == Count(m) + 1
  {
    assert m[k := v].Keys == m.Keys + {k};
  }

  /** A validator enters the consensus set. */
  lemma AttachedConsensus(s: Sets, v: Address)
    ensures var d := AttachConsensus(s, v);
            && Count(d.consensus) == Count(s.consensus) + 1
            && (forall c | c in d.consensus :: c in s.consensus || c.stake == StakeOf(s, v))
            && d.below == s.below && d.stakes == s.stakes
            && d.positions.Keys == s.positions.Keys + {v} && d.states == s.states[v := Consensus]
  {
    hide NextPosition, Count;
    InsertCount(s.consensus, Key(StakeOf(s, v), NextPosition(s.consensus, StakeOf(s, v))), v);
  }

  /** A validator enters the below-capacity set. */
  lemma AttachedBelow(s: Sets, v: Address)
    ensures var d := AttachBelow(s, v);
            && (forall b | b in d.below :: b in s.below || b.stake == StakeOf(s, v))
            && d.below != map[]
            && d.consensus == s.consensus && d.stakes == s.stakes
            && d.positions.Keys == s.positions.Keys + {v} && d.states == s.states[v := BelowCapacity]
  {
    hide NextPosition;
    assert Key(StakeOf(s, v), NextPosition(s.below, StakeOf(s, v))) in AttachBelow(s, v).below;
  }

  lemma MemberKey(s: Sets, threshold: Amount, k: Key)
    requires Agree(s, threshold)
    ensures k in s.consensus ==> EntryOk(s, k, s.consensus[k], Consensus)
    ensures k in s.below ==> EntryOk(s, k, s.below[k], BelowCapacity)
  {
  }

  lemma Taken(s: Sets, threshold: Amount, v: Address)
    requires Agree(s, threshold) && v in s.states
    ensures var d, k := Detach(s, v), KeyOf(s, v);
            && Agree(d, threshold) && v !in d.positions
            && d.positions.Keys == s.positions.Keys - {v} && d.stakes == s.stakes && d.states == s.states[v := Inactive]
            && (s.states[v] == Consensus ==> k in s.consensus && d.consensus == s.consensus - {k} && d.below == s.below)
            && (s.states[v] == BelowCapacity ==> k in s.below && d.below == s.below - {k} && d.consensus == s.consensus)
            && (s.states[v] != Consensus && s.states[v] != BelowCapacity ==>
                  v !in s.positions && d.consensus == s.consensus && d.below == s.below)
  {
    hide ValidatorOk, EntryOk;
    DetachAgree(s, threshold, v);
    MemberKey(s, threshold, KeyOf(s, v));
    DetachSets(s, threshold, v);
  }

  lemma MoveUp(s: Sets, threshold: Amount, v: Address)
    requires Agree(s, threshold) && v in s.states && s.states[v] == BelowCapacity
    ensures var d := AttachConsensus(Detach(s, v), v);
            && Agree(d, threshold)
            && Count(d.consensus) == Count(s.consensus) + 1
            && (forall c | c in d.consensus :: c in s.consensus || c.stake == StakeOf(s, v))
            && (forall b | b in d.below :: b in s.below)
            && d.stakes == s.stakes && d.positions.Keys == s.positions.Keys && d.states == s.states[v := Consensus]
  {
    hide AttachConsensus, Detach, Agree, Count;
    PositionHeld(s, threshold, v);
    Taken(s, threshold, v);
    AttachConsensusAgree(Detach(s, v), threshold, v);
    AttachedConsensus(Detach(s, v), v);
  }

  lemma MoveDown(s: Sets, threshold: Amount, v: Address)
    requires Agree(s, threshold) && v in s.states && s.states[v] == Consensus
    ensures var d := AttachBelow(Detach(s, v), v);
            && Agree(d, threshold)
            && Count(d.consensus) == Count(s.consensus) - 1
            && (forall c | c in d.consensus :: c in s.consensus)
            && (forall b | b in d.below :: b in s.below || b.stake == StakeOf(s, v))
            && d.below != map[]
            && d.stakes == s.stakes && d.positions.Keys == s.positions.Keys && d.states == s.states[v := BelowCapacity]
  {
    hide AttachBelow, Detach, Agree, Count;
    PositionHeld(s, threshold, v);
    Taken(s, threshold, v);
    RemoveCount(s.consensus, KeyOf(s, v));
    AttachBelowAgree(Detach(s, v), threshold, v);
    AttachedBelow(Detach(s, v), v);
  }

  /** The best below-capacity validator moves up. */
  lemma PromoteMoves(s: Sets, threshold: Amount)
    requires Agree(s, threshold) && s.below != map[]
    ensures var d, max := Promote(s), MaxAmount(s.below);
            && Agree(d, threshold)
            && Count(d.consensus) == Count(s.consensus) + 1
            && (forall c | c in d.consensus :: c in s.consensus || c.stake == max)
            && (forall b | b in d.below :: b in s.below)
            && d.stakes == s.stakes && d.positions.Keys == s.positions.Keys
            && (forall w | w in s.states && s.states[w] != BelowCapacity :: w in d.states && d.states[w] == s.states[w])
  {
    hide AttachConsensus, Detach, Agree, FirstOfMax, MaxAmount, Count;
    var v := s.below[FirstOfMax(s.below)];
    MemberKey(s, threshold, FirstOfMax(s.below));
    MoveUp(s, threshold, v);
  }

  lemma PositionHeld(s: Sets, threshold: Amount, v: Address)
    requires Agree(s, threshold)
    ensures v in s.positions ==> threshold <= StakeOf(s, v)
    ensures v in s.states <==> v in s.stakes
    ensures v in s.states && s.states[v] == BelowThreshold ==> StakeOf(s, v) < threshold
    ensures v in s.positions <==> v in s.states && (s.states[v] == Consensus || s.states[v] == BelowCapacity)
  {
    assert ValidatorOk(s, threshold, v);
  }

  /** The worst consensus validator moves down. */
  lemma DemoteMoves(s: Sets, threshold: Amount)
    requires Agree(s, threshold) && s.consensus != map[]
    ensures var d, min := Demote(s), MinAmount(s.consensus);
            && Agree(d, threshold)
            && Count(d.consensus) == Count(s.consensus) - 1
            && (forall c | c in d.consensus :: c in s.consensus)
            && (forall b | b in d.below :: b in s.below || b.stake == min)
            && d.below != map[]
            && d.stakes == s.stakes && d.positions.Keys == s.positions.Keys
            && (forall w | w in s.states && s.states[w] != Consensus :: w in d.states && d.states[w] == s.states[w])
  {
    hide AttachBelow, Detach, Agree, LastOfMin, MinAmount, Count;
    var v := s.consensus[LastOfMin(s.consensus)];
    MemberKey(s, threshold, LastOfMin(s.consensus));
    MoveDown(s, threshold, v);
  }

  /** Promotion after one consensus validator left a full set. */
  lemma PromoteTopN(s: Sets, slots: nat, threshold: Amount)
    requires Agree(s, threshold) && Ranked(s, slots) && (s.below != map[] ==> Count(s.consensus) + 1 == slots)
    ensures TopN(Promote(s), slots, threshold)
  {
    hide Promote, Agree, MaxAmount, Count;
    if s.below == map[] {
      PromoteNothing(s);
    } else {
      PromoteMoves(s, threshold);
    }
  }

  lemma PromoteNothing(s: Sets)
    requires s.below == map[]
    ensures Promote(s) == s
  {
  }

  lemma TakeSlot(s: Sets, slots: nat, threshold: Amount, v: Address)
    requires TopN(s, slots, threshold) && v in s.states && v !in s.positions
    requires threshold <= StakeOf(s, v) && Count(s.consensus) < slots
    ensures TopN(AttachConsensus(s, v), slots, threshold)
  {
    hide Agree, AttachConsensus, Count;
    AttachConsensusAgree(s, threshold, v);
    AttachedConsensus(s, v);
  }

  /** A validator with more stake than the worst consensus one takes its place. */
  lemma Displace(s: Sets, slots: nat, threshold: Amount, v: Address)
    requires Agree(s, threshold) && Ranked(s, slots) && Count(s.consensus) == slots && s.consensus != map[]
    requires v in s.states && s.states[v] != Consensus && v !in s.positions
    requires threshold <= StakeOf(s, v) && MinAmount(s.consensus) < StakeOf(s, v)
    ensures TopN(AttachConsensus(Demote(s), v), slots, threshold)
  {
    hide Agree, Demote, AttachConsensus, MinAmount, LastOfMin, Count;
    var worst := LastOfMin(s.consensus);
    DemoteMoves(s, threshold);
    AttachConsensusAgree(Demote(s), threshold, v);
    AttachedConsensus(Demote(s), v);
  }

  /** A validator with at most the stake of the worst consensus one waits below capacity. */
  lemma Wait(s: Sets, slots: nat, threshold: Amount, v: Address)
    requires Agree(s, threshold) && Ranked(s, slots) && Count(s.consensus) == slots
    requires v in s.states && v !in s.positions
    requires threshold <= StakeOf(s, v) && forall c | c in s.consensus :: StakeOf(s, v) <= c.stake
    ensures TopN(AttachBelow(s, v), slots, threshold)
  {
    hide Agree, AttachBelow, Count;
    AttachBelowAgree(s, threshold, v);
    AttachedBelow(s, v);
  }

  /** A new validator takes a free slot, the place of a weaker validator, or waits below capacity. */
  lemma PlaceTopN(s: Sets, slots: nat, threshold: Amount, v: Address)
    requires slots >= 1 && TopN(s, slots, threshold)
    requires v in s.states && v !in s.positions
    ensures TopN(Place(s, slots, threshold, v), slots, threshold)
  {
    hide Agree, Demote, AttachConsensus, AttachBelow, MinAmount;
    PositionHeld(s, threshold, v);
    var stake := StakeOf(s, v);
    if stake < threshold {
      SetStateAgree(s, threshold, v, BelowThreshold);
    } else if Count(s.consensus) < slots {
      TakeSlot(s, slots, threshold, v);
    } else if stake > MinAmount(s.consensus) {
      Displace(s, slots, threshold, v);
    } else {
      Wait(s, slots, threshold, v);
    }
  }

  lemma SetStakeAgree(s: Sets, threshold: Amount, v: Address, stake: Amount)
    requires Agree(s, threshold) && v in s.states && v !in s.positions
    requires s.states[v] == BelowThreshold ==> stake < threshold
    ensures Agree(SetStake(s, v, stake), threshold)
  {
    hide Agree;
    PositionHeld(s, threshold, v);
    OutsideAgree(s, threshold, v, stake, s.states[v]);
    assert SetState(SetStake(s, v, stake), v, s.states[v]) == SetStake(s, v, stake);
  }

  lemma SetStateAgree(s: Sets, threshold: Amount, v: Address, state: ValidatorState)
    requires Agree(s, threshold) && v in s.states && v !in s.positions && state != Consensus && state != BelowCapacity
    requires state == BelowThreshold ==> StakeOf(s, v) < threshold
    ensures Agree(SetState(s, v, state), threshold)
  {
    hide Agree;
    PositionHeld(s, threshold, v);
    OutsideAgree(s, threshold, v, StakeOf(s, v), state);
    assert SetStake(s, v, StakeOf(s, v)) == s;
  }

  // ---- Every operation keeps the top-N property ----

  /** A validator leaves its set and gets a new stake: what the rest looks like. */
  lemma Left(s: Sets, slots: nat, threshold: Amount, v: Address, stake: Amount)
    requires TopN(s, slots, threshold) && v in s.states
    ensures var d := SetStake(Detach(s, v), v, stake);
            && Agree(d, threshold) && Ranked(d, slots)
            && v in d.states && d.states[v] == Inactive && v !in d.positions && StakeOf(d, v) == stake
            && (forall c | c in d.consensus :: c in s.consensus) && (forall b | b in d.below :: b in s.below)
            && (s.states[v] == Consensus ==> d.below == s.below && Count(d.consensus) + 1 == Count(s.consensus))
            && (s.states[v] == BelowCapacity ==> d.consensus == s.consensus && Count(d.consensus) == slots && s.below != map[])
            && (s.states[v] != Consensus && s.states[v] != BelowCapacity ==> d.consensus == s.consensus && d.below == s.below)
  {
    hide Agree, Detach, Count;
    Taken(s, threshold, v);
    SetStakeAgree(Detach(s, v), threshold, v, stake);
    if s.states[v] == Consensus {
      RemoveCount(s.consensus, KeyOf(s, v));
    }
  }

  lemma UpdateConsensus(s: Sets, slots: nat, threshold: Amount, v: Address, post: Amount)
    requires slots >= 1 && TopN(s, slots, threshold) && v in s.states && s.states[v] == Consensus
    ensures var d := SetStake(Detach(s, v), v, post);
            && (post < threshold ==> TopN(Promote(SetState(d, v, BelowThreshold)), slots, threshold))
            && (post >= threshold && post < MaxAmount(d.below) ==> TopN(AttachBelow(Promote(d), v), slots, threshold))
            && (post >= threshold && post >= MaxAmount(d.below) ==> TopN(AttachConsensus(d, v), slots, threshold))
  {
    hide Agree, Detach, Count, Promote, AttachConsensus, AttachBelow;
    var d := SetStake(Detach(s, v), v, post);
    Left(s, slots, threshold, v, post);
    if post < threshold {
      SetStateAgree(d, threshold, v, BelowThreshold);
      PromoteTopN(SetState(d, v, BelowThreshold), slots, threshold);
    } else if post < MaxAmount(d.below) {
      PromoteMoves(d, threshold);
      PromoteTopN(d, slots, threshold);
      Overtaken(d, slots, threshold, v);
    } else {
      AttachConsensusAgree(d, threshold, v);
      AttachedConsensus(d, v);
    }
  }

  /** The best below-capacity validator overtakes one that left the consensus set. */
  lemma Overtaken(d: Sets, slots: nat, threshold: Amount, v: Address)
    requires Agree(d, threshold) && Ranked(d, slots) && d.below != map[] && Count(d.consensus) + 1 == slots
    requires v in d.states && d.states[v] == Inactive && v !in d.positions
    requires threshold <= StakeOf(d, v) < MaxAmount(d.below)
    ensures TopN(AttachBelow(Promote(d), v), slots, threshold)
  {
    hide Agree, Count, Promote, AttachBelow, MaxAmount, FirstOfMax;
    var best := FirstOfMax(d.below);
    PromoteMoves(d, threshold);
    PromoteTopN(d, slots, threshold);
    Wait(Promote(d), slots, threshold, v);
  }

  lemma UpdateBelow(s: Sets, slots: nat, threshold: Amount, v: Address, post: Amount)
    requires slots >= 1 && TopN(s, slots, threshold) && v in s.states && s.states[v] == BelowCapacity
    ensures var d := SetStake(Detach(s, v), v, post);
            && (post > MinAmount(d.consensus) ==> TopN(AttachConsensus(Demote(d), v), slots, threshold))
            && (post <= MinAmount(d.consensus) && post >= threshold ==> TopN(AttachBelow(d, v), slots, threshold))
            && (post < threshold ==> TopN(SetState(d, v, BelowThreshold), slots, threshold))
  {
    hide Agree, Detach, Demote, AttachConsensus, AttachBelow, MinAmount;
    var d := SetStake(Detach(s, v), v, post);
    Left(s, slots, threshold, v, post);
    MinAtLeast(d, threshold);
    if post > MinAmount(d.consensus) {
      Displace(d, slots, threshold, v);
    }
    if post <= MinAmount(d.consensus) && post >= threshold {
      Wait(d, slots, threshold, v);
    }
    if post < threshold {
      SetStateAgree(d, threshold, v, BelowThreshold);
    }
  }

  /** Every consensus stake meets the threshold, the least one too. */
  lemma MinAtLeast(s: Sets, threshold: Amount)
    requires Agree(s, threshold) && s.consensus != map[]
    ensures threshold <= MinAmount(s.consensus)
  {
    hide Agree, MinAmount, LastOfMin;
    var k := LastOfMin(s.consensus);
    MemberKey(s, threshold, k);
    PositionHeld(s, threshold, s.consensus[k]);
  }

  lemma UpdateTopN(s: Sets, slots: nat, threshold: Amount, v: Address, post: Amount)
    requires slots >= 1 && TopN(s, slots, threshold) && v in s.states && !Detached(s.states[v])
    ensures TopN(Update(s, slots, threshold, v, post), slots, threshold)
  {
    hide Agree, Detach, Count, Promote, Demote, AttachConsensus, AttachBelow, MinAmount, MaxAmount, Place;
    var pre := StakeOf(s, v);
    PositionHeld(s, threshold, v);
    if post == pre {
      SameStake(s, threshold, v);
    } else if pre < threshold && post < threshold {
      SetStakeAgree(s, threshold, v, post);
    } else {
      match s.states[v]
      case Consensus => UpdateConsensus(s, slots, threshold, v, post);
      case BelowCapacity => UpdateBelow(s, slots, threshold, v, post);
      case BelowThreshold =>
        Left(s, slots, threshold, v, post);
        PlaceTopN(SetStake(Detach(s, v), v, post), slots, threshold, v);
    }
  }

  lemma SameStake(s: Sets, threshold: Amount, v: Address)
    requires Agree(s, threshold) && v in s.states
    ensures SetStake(s, v, StakeOf(s, v)) == s
  {
    hide Agree;
    PositionHeld(s, threshold, v);
  }

  lemma ChangeTopN(s: Sets, slots: nat, threshold: Amount, v: Address, post: Amount)
    requires slots >= 1 && TopN(s, slots, threshold) && v in s.states
    ensures TopN(Change(s, slots, threshold, v, post), slots, threshold)
  {
    hide Agree, Update;
    if Detached(s.states[v]) {
      PositionHeld(s, threshold, v);
      SetStakeAgree(s, threshold, v, post);
    } else {
      UpdateTopN(s, slots, threshold, v, post);
    }
  }

  lemma BecomeTopN(s: Sets, slots: nat, threshold: Amount, v: Address)
    requires slots >= 1 && TopN(s, slots, threshold) && v !in s.states
    ensures TopN(Become(s, slots, threshold, v), slots, threshold)
  {
    hide Agree, Place;
    PositionHeld(s, threshold, v);
    OutsideAgree(s, threshold, v, 0, Inactive);
    PlaceTopN(SetState(SetStake(s, v, 0), v, Inactive), slots, threshold, v);
  }

  lemma RetireTopN(s: Sets, slots: nat, threshold: Amount, v: Address, state: ValidatorState)
    requires slots >= 1 && TopN(s, slots, threshold) && v in s.states && Detached(state)
    ensures TopN(Retire(s, v, state), slots, threshold)
  {
    hide Agree, Detach, Count, Promote;
    RemoveKeeps(s, slots, threshold, v, state);
    Taken(s, threshold, v);
    if s.states[v] == Consensus {
      RemoveCount(s.consensus, KeyOf(s, v));
      PromoteTopN(Remove(s, v, state), slots, threshold);
    }
  }

  /** Removal without promotion keeps everything but the full consensus set. */
  lemma RemoveKeeps(s: Sets, slots: nat, threshold: Amount, v: Address, state: ValidatorState)
    requires Agree(s, threshold) && Ranked(s, slots) && v in s.states && Detached(state)
    ensures Agree(Remove(s, v, state), threshold) && Ranked(Remove(s, v, state), slots)
  {
    hide Agree, Detach, Count;
    Taken(s, threshold, v);
    SetStateAgree(Detach(s, v), threshold, v, state);
    if s.states[v] == Consensus {
      RemoveCount(s.consensus, KeyOf(s, v));
    }
  }

  // ---- A slash changes the stake of a validator that is not jailed ----

  /** `update_validator_set` as slash processing calls it: a validator without a position is taken to come from below the
      threshold and is inserted, whatever its stake, also if it is inactive. */
  function Slash(s: Sets, slots: nat, threshold: Amount, v: Address, post: Amount): Sets
    requires v in s.states
  {
    var pre, d := StakeOf(s, v), SetStake(s, v, post);
    if s.states[v] != Inactive then Update(s, slots, threshold, v, post)
    else if post == pre || (pre < threshold && post < threshold) then d
    else if Count(s.consensus) < slots then AttachConsensus(d, v)
    else if post > MinAmount(s.consensus) then AttachConsensus(Demote(d), v)
    else AttachBelow(d, v)
  }

  /** An inactive validator is back in a set after a slash exactly if its stake changes and is, before or after, at least the
      threshold. */
  lemma SlashReturnsExactly(s: Sets, slots: nat, threshold: Amount, v: Address, post: Amount)
    requires v in s.states && s.states[v] == Inactive
    ensures var r := Slash(s, slots, threshold, v, post);
            && v in r.states && StakeOf(r, v) == post
            && (r.states[v] == Consensus || r.states[v] == BelowCapacity <==>
                  post != StakeOf(s, v) && (post >= threshold || StakeOf(s, v) >= threshold))
  {
    hide AttachConsensus, AttachBelow, Demote, MinAmount, Count, Update;
    var d := SetStake(s, v, post);
    AttachedStates(d, v);
    AttachedStates(Demote(d), v);
    DemoteStakes(d);
  }

  lemma AttachedStates(s: Sets, v: Address)
    ensures AttachConsensus(s, v).states == s.states[v := Consensus] && AttachConsensus(s, v).stakes == s.stakes
    ensures AttachBelow(s, v).states == s.states[v := BelowCapacity] && AttachBelow(s, v).stakes == s.stakes
  {
    hide NextPosition;
  }

  lemma DemoteStakes(s: Sets)
    ensures Demote(s).stakes == s.stakes
  {
    hide NextPosition, LastOfMin;
  }

  /** A slash keeps the top-N property except when it takes an inactive validator from the threshold or above to below it:
      then that validator is in a set again, with too little stake. */
  lemma SlashTopNExactly(s: Sets, slots: nat, threshold: Amount, v: Address, post: Amount)
    requires slots >= 1 && TopN(s, slots, threshold) && v in s.states && s.states[v] != Jailed
    ensures TopN(Slash(s, slots, threshold, v, post), slots, threshold) <==>
            !(s.states[v] == Inactive && post < threshold <= StakeOf(s, v))
  {
    hide AttachConsensus, AttachBelow, Demote, MinAmount, Agree, Count, Update;
    var pre, d := StakeOf(s, v), SetStake(s, v, post);
    PositionHeld(s, threshold, v);
    if s.states[v] != Inactive {
      UpdateTopN(s, slots, threshold, v, post);
    } else {
      SetStakeAgree(s, threshold, v, post);
      if post < threshold <= pre {
        SlashReturnsExactly(s, slots, threshold, v, post);
        var r := Slash(s, slots, threshold, v, post);
        if Agree(r, threshold) {
          PositionHeld(r, threshold, v);
        }
      } else if post != pre && post >= threshold {
        PlaceTopN(d, slots, threshold, v);
      }
    }
  }
}
