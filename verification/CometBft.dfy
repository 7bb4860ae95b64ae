/** The validator updates sent to CometBFT before a new epoch. */
module CometBft {
  import opened Types
  import opened FiniteSums
  import opened ValidatorSets
  import E = Epoched
  import VE = ValidatorEpochs
  import VS = ValidatorStates
  import TrimmedStates

  type ConsensusKey = nat

  /** `into_tm_voting_power` */
  function Power(votesPerToken: nat, stake: Amount): nat {
    MulMono(votesPerToken, 0, stake);
    votesPerToken * stake / DEC_ONE
  }

  /** The power is the greatest integer that is not above the exact product. */
  lemma PowerIsFloor(votesPerToken: nat, stake: Amount, n: nat)
    ensures n <= Power(votesPerToken, stake) <==> n * DEC_ONE <= votesPerToken * stake
  {
    var tot := votesPerToken * stake;
    MulMono(votesPerToken, 0, stake);
    assert tot == tot / DEC_ONE * DEC_ONE + tot % DEC_ONE;
  }

  /** An update sets the power of a key; power zero removes it. */
  datatype Update = Update(key: ConsensusKey, power: nat)

  function Deactivated(key: ConsensusKey): Update {
    Update(key, 0)
  }

  // ---- What CometBFT does with updates ----

  function Apply(m: map<ConsensusKey, nat>, u: Update): map<ConsensusKey, nat> {
    if u.power == 0 then m - {u.key} else m[u.key := u.power]
  }

  function ApplyAll(m: map<ConsensusKey, nat>, us: seq<Update>): map<ConsensusKey, nat> {
    if us == [] then m else Apply(ApplyAll(m, us[..|us| - 1]), us[|us| - 1])
  }

  ghost predicate NoKeyTwice(us: seq<Update>) {
    forall i, j | 0 <= i < j < |us| :: us[i].key != us[j].key
  }

  /** If no key occurs twice, a key ends with the power of its update, or keeps what it had. */
  lemma {:induction false} ApplyAt(m: map<ConsensusKey, nat>, us: seq<Update>, k: ConsensusKey)
    requires NoKeyTwice(us)
    ensures forall u | u in us && u.key == k :: Get(ApplyAll(m, us), k) == u.power
    ensures (forall u | u in us :: u.key != k) ==> Get(ApplyAll(m, us), k) == Get(m, k)
    ensures (forall j | j in m :: m[j] > 0) ==> forall j | j in ApplyAll(m, us) :: ApplyAll(m, us)[j] > 0
    decreases |us|
  {
    if us != [] {
      var before, last := us[..|us| - 1], us[|us| - 1];
      ApplyAt(m, before, k);
      assert forall u | u in before :: exists i :: 0 <= i < |us| - 1 && us[i] == u;
      assert forall u | u in us :: u in before || u == last;
    }
  }

  // ---- The current and the next epoch ----

  /** Everything that is read: the sets and the consensus keys at the current and the next epoch. */
  datatype View = View(
    prev: Sets,
    next: Sets,
    prevKeys: map<Address, ConsensusKey>,
    nextKeys: map<Address, ConsensusKey>,
    threshold: Amount,
    votesPerToken: nat)

  /** The members of the consensus set. */
  function Members(s: Sets): set<Address> {
    set k | k in s.consensus :: s.consensus[k]
  }

  function PrevPower(w: View, v: Address): nat {
    Power(w.votesPerToken, StakeOf(w.prev, v))
  }

  function NextPower(w: View, v: Address): nat {
    Power(w.votesPerToken, StakeOf(w.next, v))
  }

  predicate WasConsensus(w: View, v: Address) {
    v in w.prev.states && w.prev.states[v] == Consensus
  }

  predicate IsConsensus(w: View, v: Address) {
    v in w.next.states && w.next.states[v] == Consensus
  }

  predicate KeyKept(w: View, v: Address)
    requires v in w.nextKeys
  {
    v in w.prevKeys && w.prevKeys[v] == w.nextKeys[v]
  }

  /** The new key with its power, and the removal of the old key if there is another one. */
  function Replace(w: View, v: Address): seq<Update>
    requires v in w.nextKeys
  {
    [Update(w.nextKeys[v], NextPower(w, v))] +
    if v in w.prevKeys && !KeyKept(w, v) then [Deactivated(w.prevKeys[v])] else []
  }

  /** The updates for a validator of the next consensus set. */
  function NewUpdates(w: View, v: Address): seq<Update>
    requires v in w.nextKeys
  {
    if w.prev.consensus != map[] && WasConsensus(w, v) && PrevPower(w, v) == NextPower(w, v) && KeyKept(w, v) then []
    else if w.prev.consensus != map[] && !(WasConsensus(w, v) && PrevPower(w, v) == NextPower(w, v)) &&
            w.threshold == 0 && PrevPower(w, v) == 0 && NextPower(w, v) == 0 then []
    else Replace(w, v)
  }

  /** The updates for a validator of the current consensus set. */
  function OldUpdates(w: View, v: Address): seq<Update>
    requires v in w.prevKeys
  {
    if IsConsensus(w, v) then []
    else if w.threshold == 0 && PrevPower(w, v) == 0 then []
    else [Deactivated(w.prevKeys[v])]
  }

  function AllNew(w: View, order: seq<Address>): seq<Update>
    requires forall v | v in order :: v in w.nextKeys
  {
    if order == [] then [] else AllNew(w, order[..|order| - 1]) + NewUpdates(w, order[|order| - 1])
  }

  function AllOld(w: View, order: seq<Address>): seq<Update>
    requires forall v | v in order :: v in w.prevKeys
  {
    if order == [] then [] else AllOld(w, order[..|order| - 1]) + OldUpdates(w, order[|order| - 1])
  }

  /** The order in which a set is iterated: every member once. */
  ghost predicate Lists(order: seq<Address>, members: set<Address>) {
    && (forall v :: v in order <==> v in members)
    && (forall i, j | 0 <= i < j < |order| :: order[i] != order[j])
  }

  function Updates(w: View, newOrder: seq<Address>, oldOrder: seq<Address>): seq<Update>
    requires forall v | v in newOrder :: v in w.nextKeys
    requires forall v | v in oldOrder :: v in w.prevKeys
  {
    AllNew(w, newOrder) + AllOld(w, oldOrder)
  }

  // ---- What the updates are about ----

  /** No two validators share a key, at the same epoch or across the two. */
  ghost predicate KeysUnique(w: View) {
    && (forall u, v | u in w.prevKeys && v in w.prevKeys && u != v :: w.prevKeys[u] != w.prevKeys[v])
    && (forall u, v | u in w.nextKeys && v in w.nextKeys && u != v :: w.nextKeys[u] != w.nextKeys[v])
    && (forall u, v | u in w.prevKeys && v in w.nextKeys && u != v :: w.prevKeys[u] != w.nextKeys[v])
  }

  /** The sets of the next epoch agree with the states; of the current epoch states may be missing, but only a member is read
      as one. Every member has its key. */
  ghost predicate Consistent(w: View) {
    && Agree(w.next, w.threshold)
    && (forall v | WasConsensus(w, v) :: v in Members(w.prev))
    && (forall v | v in Members(w.prev) :: v in w.prevKeys)
    && (forall v | v in Members(w.next) :: v in w.nextKeys)
    && KeysUnique(w)
  }

  lemma MembersAreConsensus(s: Sets, threshold: Amount, v: Address)
    requires Agree(s, threshold)
    ensures v in Members(s) <==> v in s.states && s.states[v] == Consensus
  {
    assert ValidatorOk(s, threshold, v);
    if v in s.states && s.states[v] == Consensus {
      assert s.consensus[KeyOf(s, v)] == v;
    }
  }

  ghost predicate Distinct(keys: map<Address, ConsensusKey>) {
    forall u, v | u in keys && v in keys && u != v :: keys[u] != keys[v]
  }

  /** The keys and powers of a consensus set; a member without power is not known to CometBFT. */
  ghost function PowerMap(s: Sets, keys: map<Address, ConsensusKey>, votesPerToken: nat): map<ConsensusKey, nat>
    requires Distinct(keys)
  {
    map v | v in Members(s) && v in keys && Power(votesPerToken, StakeOf(s, v)) > 0 ::
      keys[v] := Power(votesPerToken, StakeOf(s, v))
  }

  lemma PowerOf(s: Sets, keys: map<Address, ConsensusKey>, votesPerToken: nat, v: Address)
    requires Distinct(keys) && v in keys && v in Members(s)
    ensures Get(PowerMap(s, keys, votesPerToken), keys[v]) == Power(votesPerToken, StakeOf(s, v))
  {
    hide Members, Power;
  }

  lemma NoPower(s: Sets, keys: map<Address, ConsensusKey>, votesPerToken: nat, k: ConsensusKey)
    requires Distinct(keys) && forall v | v in Members(s) && v in keys :: keys[v] != k
    ensures Get(PowerMap(s, keys, votesPerToken), k) == 0
  {
    hide Members, Power;
  }

  // ---- Which updates there are ----

  /** An update for this validator, from the next set or from the current one. */
  ghost predicate Emits(w: View, v: Address, u: Update)
    requires Consistent(w)
  {
    (v in Members(w.next) && u in NewUpdates(w, v)) || (v in Members(w.prev) && u in OldUpdates(w, v))
  }

  lemma {:induction false} InAllNew(w: View, order: seq<Address>, u: Update)
    requires forall v | v in order :: v in w.nextKeys
    ensures u in AllNew(w, order) <==> exists v :: v in order && u in NewUpdates(w, v)
    decreases |order|
  {
    hide NewUpdates;
    if order != [] {
      var before, last := order[..|order| - 1], order[|order| - 1];
      InAllNew(w, before, u);
      assert order == before + [last];
      if v :| v in order && u in NewUpdates(w, v) {
        assert v in before || v == last;
      }
    }
  }

  lemma {:induction false} InAllOld(w: View, order: seq<Address>, u: Update)
    requires forall v | v in order :: v in w.prevKeys
    ensures u in AllOld(w, order) <==> exists v :: v in order && u in OldUpdates(w, v)
    decreases |order|
  {
    hide OldUpdates;
    if order != [] {
      var before, last := order[..|order| - 1], order[|order| - 1];
      InAllOld(w, before, u);
      assert order == before + [last];
      if v :| v in order && u in OldUpdates(w, v) {
        assert v in before || v == last;
      }
    }
  }

  ghost predicate Owns(w: View, v: Address, k: ConsensusKey) {
    (v in w.nextKeys && w.nextKeys[v] == k) || (v in w.prevKeys && w.prevKeys[v] == k)
  }

  lemma OneOwner(w: View, u: Address, v: Address, k: ConsensusKey)
    requires KeysUnique(w) && Owns(w, u, k) && Owns(w, v, k)
    ensures u == v
  {
  }

  lemma NewUpdatesOwned(w: View, v: Address)
    requires v in w.nextKeys
    ensures NoKeyTwice(NewUpdates(w, v))
    ensures forall u | u in NewUpdates(w, v) :: Owns(w, v, u.key)
    ensures forall u | u in NewUpdates(w, v) && u.power > 0 :: u == Update(w.nextKeys[v], NextPower(w, v))
  {
    hide Power;
  }

  lemma OldUpdatesOwned(w: View, v: Address)
    requires v in w.prevKeys
    ensures NoKeyTwice(OldUpdates(w, v))
    ensures forall u | u in OldUpdates(w, v) :: u == Deactivated(w.prevKeys[v]) && !IsConsensus(w, v)
  {
    hide Power;
  }

  lemma Joined(a: seq<Update>, b: seq<Update>)
    requires NoKeyTwice(a) && NoKeyTwice(b)
    requires forall x, y | x in a && y in b :: x.key != y.key
    ensures NoKeyTwice(a + b)
  {
    var c := a + b;
    forall i, j | 0 <= i < j < |c| ensures c[i].key != c[j].key {
      assert c[i] == if i < |a| then a[i] else b[i - |a|];
      assert c[j] == if j < |a| then a[j] else b[j - |a|];
    }
  }

  lemma {:induction false} NewNoKeyTwice(w: View, order: seq<Address>)
    requires KeysUnique(w) && forall v | v in order :: v in w.nextKeys
    requires forall i, j | 0 <= i < j < |order| :: order[i] != order[j]
    ensures NoKeyTwice(AllNew(w, order))
    ensures forall u | u in AllNew(w, order) :: exists v :: v in order && Owns(w, v, u.key)
    decreases |order|
  {
    hide NewUpdates, KeysUnique;
    if order != [] {
      var before, last := order[..|order| - 1], order[|order| - 1];
      NewNoKeyTwice(w, before);
      NewUpdatesOwned(w, last);
      forall x, y | x in AllNew(w, before) && y in NewUpdates(w, last) ensures x.key != y.key {
        var v :| v in before && Owns(w, v, x.key);
        if x.key == y.key {
          OneOwner(w, v, last, x.key);
        }
      }
      Joined(AllNew(w, before), NewUpdates(w, last));
      assert forall v | v in before :: v in order;
    }
  }

  lemma {:induction false} OldNoKeyTwice(w: View, order: seq<Address>)
    requires KeysUnique(w) && forall v | v in order :: v in w.prevKeys
    requires forall i, j | 0 <= i < j < |order| :: order[i] != order[j]
    ensures NoKeyTwice(AllOld(w, order))
    ensures forall u | u in AllOld(w, order) :: exists v :: v in order && Owns(w, v, u.key) && !IsConsensus(w, v)
    decreases |order|
  {
    hide OldUpdates, KeysUnique, IsConsensus;
    if order != [] {
      var before, last := order[..|order| - 1], order[|order| - 1];
      OldNoKeyTwice(w, before);
      OldUpdatesOwned(w, last);
      forall x, y | x in AllOld(w, before) && y in OldUpdates(w, last) ensures x.key != y.key {
        var v :| v in before && Owns(w, v, x.key) && !IsConsensus(w, v);
        if x.key == y.key {
          OneOwner(w, v, last, x.key);
        }
      }
      Joined(AllOld(w, before), OldUpdates(w, last));
      assert forall v | v in before :: v in order;
    }
  }

  /** No key occurs twice among the updates. */
  lemma UpdatesNoKeyTwice(w: View, newOrder: seq<Address>, oldOrder: seq<Address>)
    requires Consistent(w) && Lists(newOrder, Members(w.next)) && Lists(oldOrder, Members(w.prev))
    ensures NoKeyTwice(Updates(w, newOrder, oldOrder))
  {
    hide Agree, KeysUnique, AllNew, AllOld, Members;
    NewNoKeyTwice(w, newOrder);
    OldNoKeyTwice(w, oldOrder);
    forall x, y | x in AllNew(w, newOrder) && y in AllOld(w, oldOrder) ensures x.key != y.key {
      var u :| u in newOrder && Owns(w, u, x.key);
      var v :| v in oldOrder && Owns(w, v, y.key) && !IsConsensus(w, v);
      MembersAreConsensus(w.next, w.threshold, u);
      if x.key == y.key {
        OneOwner(w, u, v, x.key);
      }
    }
    Joined(AllNew(w, newOrder), AllOld(w, oldOrder));
  }

  lemma UpdatesAreEmitted(w: View, newOrder: seq<Address>, oldOrder: seq<Address>, u: Update)
    requires Consistent(w) && Lists(newOrder, Members(w.next)) && Lists(oldOrder, Members(w.prev))
    ensures u in Updates(w, newOrder, oldOrder) <==> exists v :: Emits(w, v, u)
  {
    hide Agree, KeysUnique, AllNew, AllOld, Members, NewUpdates, OldUpdates;
    InAllNew(w, newOrder, u);
    InAllOld(w, oldOrder, u);
    if v :| v in newOrder && u in NewUpdates(w, v) {
      assert Emits(w, v, u);
    }
    if v :| v in oldOrder && u in OldUpdates(w, v) {
      assert Emits(w, v, u);
    }
  }

  // ---- Applying the updates gives the next map ----

  /** A list with exactly the updates of the two epochs, each key once. */
  ghost predicate Complete(w: View, us: seq<Update>)
    requires Consistent(w)
  {
    NoKeyTwice(us) && forall u :: u in us <==> exists v :: Emits(w, v, u)
  }

  ghost function Current(w: View): map<ConsensusKey, nat>
    requires KeysUnique(w)
  {
    PowerMap(w.prev, w.prevKeys, w.votesPerToken)
  }

  ghost function Next(w: View): map<ConsensusKey, nat>
    requires KeysUnique(w)
  {
    PowerMap(w.next, w.nextKeys, w.votesPerToken)
  }

  lemma EmitsOwned(w: View, v: Address, u: Update)
    requires Consistent(w) && Emits(w, v, u)
    ensures Owns(w, v, u.key)
    ensures u.power > 0 ==> v in Members(w.next) && u == Update(w.nextKeys[v], NextPower(w, v))
  {
    hide Agree, Members, NewUpdates, OldUpdates, Power;
    if v in Members(w.next) && u in NewUpdates(w, v) {
      NewUpdatesOwned(w, v);
    } else {
      OldUpdatesOwned(w, v);
    }
  }

  /** The key of a next member that needs no update already has its power. */
  lemma SkippedKey(w: View, v: Address)
    requires Consistent(w) && v in Members(w.next) && NewUpdates(w, v) == []
    ensures Get(Current(w), w.nextKeys[v]) == NextPower(w, v)
  {
    hide Agree, Members, Power, PowerMap;
    if v in Members(w.prev) && KeyKept(w, v) {
      PowerOf(w.prev, w.prevKeys, w.votesPerToken, v);
    } else {
      NoPower(w.prev, w.prevKeys, w.votesPerToken, w.nextKeys[v]);
    }
  }

  lemma NewKeyResult(w: View, us: seq<Update>, v: Address)
    requires Consistent(w) && Complete(w, us) && v in Members(w.next)
    ensures Get(ApplyAll(Current(w), us), w.nextKeys[v]) == Get(Next(w), w.nextKeys[v])
  {
    hide Agree, Members, PowerMap, KeysUnique, Power, ApplyAll;
    var k := w.nextKeys[v];
    ApplyAt(Current(w), us, k);
    PowerOfNext(w, v);
    if NewUpdates(w, v) != [] {
      var u := Update(k, NextPower(w, v));
      assert u == NewUpdates(w, v)[0];
      assert Emits(w, v, u);
    } else {
      SkippedKey(w, v);
      forall u | u in us ensures u.key != k {
        var x :| Emits(w, x, u);
        NoUpdateFor(w, v, x, u);
      }
    }
  }

  lemma PowerOfNext(w: View, v: Address)
    requires Consistent(w) && v in Members(w.next)
    ensures Get(Next(w), w.nextKeys[v]) == NextPower(w, v)
  {
    hide Agree, Members, PowerMap, Power;
    PowerOf(w.next, w.nextKeys, w.votesPerToken, v);
  }

  lemma NoUpdateFor(w: View, v: Address, x: Address, u: Update)
    requires Consistent(w) && v in Members(w.next) && NewUpdates(w, v) == [] && Emits(w, x, u)
    ensures u.key != w.nextKeys[v]
  {
    hide Agree, Members, KeysUnique, Power, NewUpdates;
    EmitsOwned(w, x, u);
    MembersAreConsensus(w.next, w.threshold, v);
    if u.key == w.nextKeys[v] {
      OneOwner(w, x, v, u.key);
    }
  }

  lemma OtherKeyResult(w: View, us: seq<Update>, k: ConsensusKey)
    requires Consistent(w) && Complete(w, us) && forall v | v in Members(w.next) :: w.nextKeys[v] != k
    ensures Get(ApplyAll(Current(w), us), k) == 0
  {
    hide Agree, Members, PowerMap, KeysUnique, Power, ApplyAll, NewUpdates, OldUpdates;
    ApplyAt(Current(w), us, k);
    forall u | u in us && u.key == k ensures u.power == 0 {
      var x :| Emits(w, x, u);
      EmitsOwned(w, x, u);
    }
    if v :| v in Members(w.prev) && w.prevKeys[v] == k {
      PowerOfPrev(w, v);
      if PrevPower(w, v) > 0 {
        RemovesOldKey(w, v);
        assert Emits(w, v, Deactivated(k));
        assert Deactivated(k) in us;
      }
    } else {
      NoPrevOwner(w, k);
    }
  }

  lemma PowerOfPrev(w: View, v: Address)
    requires Consistent(w) && v in Members(w.prev)
    ensures Get(Current(w), w.prevKeys[v]) == PrevPower(w, v)
  {
    hide Agree, Members, PowerMap, Power;
    PowerOf(w.prev, w.prevKeys, w.votesPerToken, v);
  }

  lemma NoPrevOwner(w: View, k: ConsensusKey)
    requires Consistent(w) && forall v | v in Members(w.prev) :: w.prevKeys[v] != k
    ensures Get(Current(w), k) == 0
  {
    hide Agree, Members, PowerMap, Power;
    NoPower(w.prev, w.prevKeys, w.votesPerToken, k);
  }

  /** The old key of a member that had power is removed, unless the next set keeps it. */
  lemma RemovesOldKey(w: View, v: Address)
    requires Consistent(w) && v in Members(w.prev) && PrevPower(w, v) > 0
    requires v in Members(w.next) ==> w.nextKeys[v] != w.prevKeys[v]
    ensures Emits(w, v, Deactivated(w.prevKeys[v]))
  {
    hide Agree, Power;
    MembersAreConsensus(w.next, w.threshold, v);
    if v in Members(w.next) {
      assert w.prev.consensus != map[];
      assert NewUpdates(w, v) == Replace(w, v);
      assert Replace(w, v)[1] == Deactivated(w.prevKeys[v]);
    } else {
      assert OldUpdates(w, v)[0] == Deactivated(w.prevKeys[v]);
    }
  }

  lemma PowersPositive(s: Sets, keys: map<Address, ConsensusKey>, votesPerToken: nat)
    requires Distinct(keys)
    ensures forall k | k in PowerMap(s, keys, votesPerToken) :: PowerMap(s, keys, votesPerToken)[k] > 0
  {
  }

  lemma SameMap(a: map<ConsensusKey, nat>, b: map<ConsensusKey, nat>)
    requires (forall k | k in a :: a[k] > 0) && (forall k | k in b :: b[k] > 0)
    requires forall k: ConsensusKey :: Get(a, k) == Get(b, k)
    ensures a == b
  {
    forall k: ConsensusKey ensures k in a <==> k in b {
      assert Get(a, k) == Get(b, k);
    }
    forall k | k in a ensures a[k] == b[k] {
      assert Get(a, k) == Get(b, k);
    }
  }

  lemma CompleteUpdates(w: View, us: seq<Update>)
    requires Consistent(w) && Complete(w, us)
    ensures ApplyAll(Current(w), us) == Next(w)
  {
    hide Agree, Members, KeysUnique, ApplyAll, PowerMap, Power, Emits;
    forall k: ConsensusKey ensures Get(ApplyAll(Current(w), us), k) == Get(Next(w), k) {
      if v :| v in Members(w.next) && w.nextKeys[v] == k {
        NewKeyResult(w, us, v);
      } else {
        OtherKeyResult(w, us, k);
        NoNextOwner(w, k);
      }
    }
    Positive(w, us);
    SameMap(ApplyAll(Current(w), us), Next(w));
  }

  lemma Positive(w: View, us: seq<Update>)
    requires Consistent(w) && NoKeyTwice(us)
    ensures forall k | k in ApplyAll(Current(w), us) :: ApplyAll(Current(w), us)[k] > 0
    ensures forall k | k in Next(w) :: Next(w)[k] > 0
  {
    hide Agree, Members, PowerMap, Power, ApplyAll;
    PowersPositive(w.prev, w.prevKeys, w.votesPerToken);
    PowersPositive(w.next, w.nextKeys, w.votesPerToken);
    ApplyAt(Current(w), us, 0);
  }

  lemma NoNextOwner(w: View, k: ConsensusKey)
    requires Consistent(w) && forall v | v in Members(w.next) :: w.nextKeys[v] != k
    ensures Get(Next(w), k) == 0
  {
    hide Agree, Members, PowerMap, Power;
    NoPower(w.next, w.nextKeys, w.votesPerToken, k);
  }

  // ---- Any order ----

  lemma {:induction false} CountedTwice(us: seq<Update>, u: Update)
    requires multiset(us)[u] >= 2
    ensures exists i, j :: 0 <= i < j < |us| && us[i] == u && us[j] == u
    decreases |us|
  {
    var before, last := us[..|us| - 1], us[|us| - 1];
    assert us == before + [last];
    if multiset(before)[u] >= 2 {
      CountedTwice(before, u);
      var i, j :| 0 <= i < j < |before| && before[i] == u && before[j] == u;
      assert us[i] == u && us[j] == u;
    } else {
      assert last == u && u in before;
      var i :| 0 <= i < |before| && before[i] == u;
      assert us[i] == u && us[|us| - 1] == u;
    }
  }

  lemma PresentTwice(us: seq<Update>, i: nat, j: nat)
    requires i < j < |us| && us[i] == us[j]
    ensures multiset(us)[us[i]] >= 2
  {
    assert us == us[..j] + us[j..];
    assert us[i] in us[..j] by {
      assert us[..j][i] == us[i];
    }
    assert us[i] in us[j..] by {
      assert us[j..][0] == us[j];
    }
  }

  lemma PermutedNoKeyTwice(us: seq<Update>, vs: seq<Update>)
    requires NoKeyTwice(us) && multiset(us) == multiset(vs)
    ensures NoKeyTwice(vs)
  {
    forall i, j | 0 <= i < j < |vs| ensures vs[i].key != vs[j].key {
      if vs[i] == vs[j] {
        PresentTwice(vs, i, j);
        CountedTwice(us, vs[i]);
      } else {
        assert vs[i] in multiset(us) && vs[j] in multiset(us);
        var a :| 0 <= a < |us| && us[a] == vs[i];
        var b :| 0 <= b < |us| && us[b] == vs[j];
      }
    }
  }

  /** The updates, applied in any order to the key-to-power map of the current epoch, give exactly the map of the next epoch,
      and no key occurs twice in them. */
  lemma UpdatesGiveNext(w: View, newOrder: seq<Address>, oldOrder: seq<Address>, us: seq<Update>)
    requires Consistent(w) && Lists(newOrder, Members(w.next)) && Lists(oldOrder, Members(w.prev))
    requires multiset(us) == multiset(Updates(w, newOrder, oldOrder))
    ensures NoKeyTwice(us)
    ensures ApplyAll(Current(w), us) == Next(w)
  {
    hide Agree, KeysUnique, Members, ApplyAll, Updates, Emits;
    UpdatesNoKeyTwice(w, newOrder, oldOrder);
    PermutedNoKeyTwice(Updates(w, newOrder, oldOrder), us);
    forall u ensures u in us <==> exists v :: Emits(w, v, u) {
      UpdatesAreEmitted(w, newOrder, oldOrder, u);
      assert u in us <==> u in multiset(us);
      assert u in Updates(w, newOrder, oldOrder) <==> u in multiset(Updates(w, newOrder, oldOrder));
    }
    CompleteUpdates(w, us);
  }

  // ---- Consensus keys are unique ----

  /** The keys ever used, and for every validator the keys it was given by epoch. */
  datatype Registry = Registry(used: set<ConsensusKey>, given: map<Address, map<Epoch, ConsensusKey>>)

  datatype Assignment = Assignment(validator: Address, key: ConsensusKey, epoch: Epoch)

  function GivenTo(r: Registry, v: Address): map<Epoch, ConsensusKey> {
    if v in r.given then r.given[v] else map[]
  }

  /** `try_insert_consensus_key` and the write that follows it, in becoming a validator and in changing a key; a key that was
      ever used is refused. */
  function Assign(r: Registry, a: Assignment): Registry {
    if a.key in r.used then r
    else Registry(r.used + {a.key}, r.given[a.validator := GivenTo(r, a.validator)[a.epoch := a.key]])
  }

  function Assigned(assignments: seq<Assignment>): Registry {
    if assignments == [] then Registry({}, map[]) else Assign(Assigned(assignments[..|assignments| - 1]), assignments[|assignments| - 1])
  }

  /** The key at an epoch. */
  ghost function KeyAt(r: Registry, v: Address, e: Epoch): Option<ConsensusKey> {
    E.LatestAt(GivenTo(r, v), e)
  }

  ghost predicate OneHolder(r: Registry) {
    && (forall v, e | e in GivenTo(r, v) :: GivenTo(r, v)[e] in r.used)
    && (forall u, v, d, e | d in GivenTo(r, u) && e in GivenTo(r, v) && GivenTo(r, u)[d] == GivenTo(r, v)[e] :: u == v)
  }

  lemma AssignHolder(r: Registry, a: Assignment)
    requires OneHolder(r)
    ensures OneHolder(Assign(r, a))
  {
    var after := Assign(r, a);
    if a.key !in r.used {
      forall v, e | e in GivenTo(after, v)
        ensures (v == a.validator && e == a.epoch && GivenTo(after, v)[e] == a.key) ||
                (e in GivenTo(r, v) && GivenTo(after, v)[e] == GivenTo(r, v)[e])
      {
      }
    }
  }

  lemma {:induction false} AssignedHolder(assignments: seq<Assignment>)
    ensures OneHolder(Assigned(assignments))
    decreases |assignments|
  {
    hide OneHolder;
    if assignments == [] {
      NoHolder();
    } else {
      AssignedHolder(assignments[..|assignments| - 1]);
      AssignHolder(Assigned(assignments[..|assignments| - 1]), assignments[|assignments| - 1]);
    }
  }

  lemma NoHolder()
    ensures OneHolder(Registry({}, map[]))
  {
  }

  /** However keys are given out over time, two validators never have the same key, at the same epoch or at different ones. */
  lemma KeysNeverShared(assignments: seq<Assignment>, u: Address, v: Address, d: Epoch, e: Epoch)
    requires u != v
    ensures var r := Assigned(assignments);
            KeyAt(r, u, d).Some? && KeyAt(r, v, e).Some? ==> KeyAt(r, u, d) != KeyAt(r, v, e)
  {
    hide Assigned;
    AssignedHolder(assignments);
    var r := Assigned(assignments);
    if KeyAt(r, u, d).Some? && KeyAt(r, v, e).Some? {
      var a := MaxKey(E.UpTo(GivenTo(r, u), d));
      var b := MaxKey(E.UpTo(GivenTo(r, v), e));
      assert GivenTo(r, u)[a] == KeyAt(r, u, d).value && GivenTo(r, v)[b] == KeyAt(r, v, e).value;
    }
  }

  ghost predicate KeysRead(r: Registry, keys: map<Address, ConsensusKey>, e: Epoch) {
    forall v | v in keys :: KeyAt(r, v, e) == Some(keys[v])
  }

  lemma RegistryUnique(assignments: seq<Assignment>, w: View, now: Epoch)
    requires KeysRead(Assigned(assignments), w.prevKeys, now) && KeysRead(Assigned(assignments), w.nextKeys, now + 1)
    ensures KeysUnique(w)
  {
    hide Assigned, KeyAt;
    forall u, v | u != v
      ensures u in w.prevKeys && v in w.prevKeys ==> w.prevKeys[u] != w.prevKeys[v]
      ensures u in w.nextKeys && v in w.nextKeys ==> w.nextKeys[u] != w.nextKeys[v]
      ensures u in w.prevKeys && v in w.nextKeys ==> w.prevKeys[u] != w.nextKeys[v]
    {
      KeysNeverShared(assignments, u, v, now, now);
      KeysNeverShared(assignments, u, v, now + 1, now + 1);
      KeysNeverShared(assignments, u, v, now, now + 1);
    }
  }

  // ---- Reachable states ----

  /** What is read in a state: the sets and states of the current and the next epoch, and the keys of their members. */
  ghost predicate Reads(c: VE.Config, s: VS.State, assignments: seq<Assignment>, w: View) {
    && |s.window| >= 2 && w.prev == VS.SetsAt(c, s, 0) && w.next == VS.SetsAt(c, s, 1) && w.threshold == c.threshold
    && KeysRead(Assigned(assignments), w.prevKeys, s.now) && KeysRead(Assigned(assignments), w.nextKeys, s.now + 1)
    && (forall v | v in Members(w.prev) :: v in w.prevKeys) && (forall v | v in Members(w.next) :: v in w.nextKeys)
  }

  /** The updates sent after a run, in any order. */
  ghost predicate Sent(c: VE.Config, genesis: seq<VE.GenesisOp>, ops: seq<VE.Op>, assignments: seq<Assignment>, w: View,
                       newOrder: seq<Address>, oldOrder: seq<Address>, us: seq<Update>) {
    && c.slots >= 1 && Reads(c, VS.After(c, genesis, ops), assignments, w)
    && Lists(newOrder, Members(w.next)) && Lists(oldOrder, Members(w.prev))
    && multiset(us) == multiset(Updates(w, newOrder, oldOrder))
  }

  /** The updates name no key twice and turn the map of the current epoch into the map of the next one. */
  ghost predicate Right(w: View, us: seq<Update>) {
    KeysUnique(w) && NoKeyTwice(us) && ApplyAll(Current(w), us) == Next(w)
  }

  /** In every reachable state, with the keys handed out by the registry and a pipeline of at most three epochs, the updates
      for the coming epoch give its map. */
  lemma ReachableUpdates(c: VE.Config, genesis: seq<VE.GenesisOp>, ops: seq<VE.Op>, assignments: seq<Assignment>,
                         w: View,
                         newOrder: seq<Address>, oldOrder: seq<Address>, us: seq<Update>)
    requires c.pipeline <= 3 && Sent(c, genesis, ops, assignments, w, newOrder, oldOrder, us)
    ensures Right(w, us)
  {
    hide VS.After, VS.SetsAt, Assigned, Agree, Ranked, Full, Members, Updates, ApplyAll, KeyAt, VS.AgreePartly;
    var s := VS.After(c, genesis, ops);
    VS.RunTopN(c, genesis, ops, 0);
    VS.RunTopN(c, genesis, ops, 1);
    forall v | WasConsensus(w, v) ensures v in Members(w.prev) {
      PartlyMember(w.prev, w.threshold, v);
    }
    RegistryUnique(assignments, w, s.now);
    UpdatesGiveNext(w, newOrder, oldOrder, us);
  }

  lemma PartlyMember(s: Sets, threshold: Amount, v: Address)
    requires VS.AgreePartly(s, threshold) && v in s.states && s.states[v] == Consensus
    ensures v in Members(s)
  {
    hide Agree;
    var states: map<Address, ValidatorState> :|
      Agree(s.(states := states), threshold) && forall u | u in s.states :: u in states && states[u] == s.states[u];
    MembersAreConsensus(s.(states := states), threshold, v);
  }

  // ---- The exact condition ----

  ghost predicate UpdatesRight(pipeline: nat) {
    forall c: VE.Config, genesis: seq<VE.GenesisOp>, ops: seq<VE.Op>, assignments: seq<Assignment>, w: View,
        newOrder: seq<Address>, oldOrder: seq<Address>, us: seq<Update>
      | c.pipeline == pipeline && Sent(c, genesis, ops, assignments, w, newOrder, oldOrder, us) :: Right(w, us)
  }

  const HOLDER := TrimmedStates.HOLDER
  const HELD_KEY: map<Address, ConsensusKey> := map[HOLDER := 7]
  const GIVEN := [Assignment(HOLDER, 7, 0)]

  lemma GivenKey(e: Epoch)
    ensures KeysRead(Assigned(GIVEN), HELD_KEY, e)
  {
    var r := Assigned(GIVEN);
    assert GIVEN[..|GIVEN| - 1] == [];
    assert r == Assign(Assigned([]), GIVEN[0]);
    assert GivenTo(r, HOLDER) == map[0 := 7];
    E.LatestIs(GivenTo(r, HOLDER), e, 0);
  }

  /** A validator of both consensus sets whose states are gone: its key is sent with its power and as removed. */
  lemma SentTwice(w: View)
    requires w.prev.consensus == map[Key(10, 0) := HOLDER] && w.next.consensus == map[Key(10, 0) := HOLDER]
    requires HOLDER !in w.prev.states && HOLDER !in w.next.states && w.threshold == 1
    requires w.prevKeys == HELD_KEY && w.nextKeys == HELD_KEY
    ensures Members(w.prev) == {HOLDER} && Members(w.next) == {HOLDER} && Lists([HOLDER], {HOLDER})
    ensures Updates(w, [HOLDER], [HOLDER]) == [Update(7, NextPower(w, HOLDER)), Deactivated(7)]
    ensures !NoKeyTwice(Updates(w, [HOLDER], [HOLDER]))
  {
    hide Power;
    assert Members(w.prev) == {HOLDER} && Members(w.next) == {HOLDER} by {
      assert w.prev.consensus[Key(10, 0)] == HOLDER && w.next.consensus[Key(10, 0)] == HOLDER;
    }
    assert [HOLDER][..0] == [];
    assert AllNew(w, [HOLDER]) == NewUpdates(w, HOLDER);
    assert AllOld(w, [HOLDER]) == OldUpdates(w, HOLDER);
    var us := Updates(w, [HOLDER], [HOLDER]);
    assert us[0].key == us[1].key;
  }

  /** With a pipeline of four epochs or more there is a run after which a key is sent twice. */
  lemma KeySentTwice(pipeline: nat)
    requires pipeline >= 4
    ensures !UpdatesRight(pipeline)
  {
    hide VS.After, VS.SetsAt, Assigned, KeyAt, Updates, Members, Lists, NoKeyTwice;
    var c, ops := TrimmedStates.OneSlot(pipeline), [TrimmedStates.DISPLACE, TrimmedStates.LEAVE];
    var s := VS.After(c, TrimmedStates.GENESIS, ops);
    TrimmedStates.FailingRun(pipeline, 0);
    TrimmedStates.FailingRun(pipeline, 1);
    var w := View(VS.SetsAt(c, s, 0), VS.SetsAt(c, s, 1), HELD_KEY, HELD_KEY, 1, DEC_ONE);
    SentTwice(w);
    GivenKey(s.now);
    GivenKey(s.now + 1);
    var us := Updates(w, [HOLDER], [HOLDER]);
    assert Sent(c, TrimmedStates.GENESIS, ops, GIVEN, w, [HOLDER], [HOLDER], us);
    assert !Right(w, us);
  }

  /** In every reachable state the updates are right exactly with a pipeline of at most three epochs. */
  lemma UpdatesRightExactly(pipeline: nat)
    ensures UpdatesRight(pipeline) <==> pipeline <= 3
  {
    hide Sent, Right;
    if pipeline <= 3 {
      forall c: VE.Config, genesis: seq<VE.GenesisOp>, ops: seq<VE.Op>, assignments: seq<Assignment>, w: View,
          newOrder: seq<Address>, oldOrder: seq<Address>, us: seq<Update>
        | c.pipeline == pipeline && Sent(c, genesis, ops, assignments, w, newOrder, oldOrder, us)
        ensures Right(w, us)
      {
        ReachableUpdates(c, genesis, ops, assignments, w, newOrder, oldOrder, us);
      }
    } else {
      KeySentTwice(pipeline);
    }
  }
}
