/** The sliding window of missed votes: for every consensus validator the heights it missed and their number. */
module Liveness {
  import opened Types

  /** A validator's missed heights and its counter, if it has one. A counter below zero would be an underflow. */
  datatype Entry = Entry(missed: set<nat>, sum: Option<int>)

  const ABSENT := Entry({}, None)

  /** The height that the new vote height pushes out of the window. */
  function HeightToPrune(height: nat, window: nat): Option<nat> {
    if window <= height then Some(height - window) else None
  }

  function PruneVote(en: Entry, prune: Option<nat>): Entry {
    if prune.Some? && prune.value in en.missed
    then Entry(en.missed - {prune.value}, Some(Counter(en) - 1))
    else en
  }

  function Counter(en: Entry): int {
    if en.sum.Some? then en.sum.value else 0
  }

  function EvaluateVote(en: Entry, voted: bool, height: nat): Entry {
    if voted then en.(sum := Some(Counter(en))) else Entry(en.missed + {height}, Some(Counter(en) + 1))
  }

  /** `record_liveness_data`, for one consensus validator */
  function RecordEntry(en: Entry, voted: bool, height: nat, window: nat): Entry {
    EvaluateVote(PruneVote(en, HeightToPrune(height, window)), voted, height)
  }

  /** `prune_liveness_data`, for one validator */
  function PruneEntry(en: Entry, inConsensus: bool): Entry {
    if en.sum.Some? && !inConsensus then ABSENT else en
  }

  // ---- Runs at consecutive heights ----

  datatype Event =
    /** The votes of the next height. */
    | Votes(voted: set<Address>)
    /** A new consensus set, on which the data is pruned. */
    | NewSet(consensus: set<Address>)

  function Before(events: seq<Event>): seq<Event>
    requires events != []
  {
    events[..|events| - 1]
  }

  function Last(events: seq<Event>): Event
    requires events != []
  {
    events[|events| - 1]
  }

  function Consensus(genesis: set<Address>, events: seq<Event>): set<Address> {
    if events == [] then genesis
    else if Last(events).NewSet? then Last(events).consensus
    else Consensus(genesis, Before(events))
  }

  /** The last recorded height; `start` is the height before the first votes. */
  function Height(start: nat, events: seq<Event>): nat {
    if events == [] then start else Height(start, Before(events)) + if Last(events).Votes? then 1 else 0
  }

  function EntryAfter(window: nat, start: nat, genesis: set<Address>, events: seq<Event>, v: Address): Entry {
    if events == [] then ABSENT
    else
      var en := EntryAfter(window, start, genesis, Before(events), v);
      match Last(events)
      case NewSet(consensus) => PruneEntry(en, v in consensus)
      case Votes(voted) =>
        if v !in Consensus(genesis, Before(events)) then en
        else RecordEntry(en, v in voted, Height(start, events), window)
  }

  /** Every height at which the validator was in the consensus set and did not vote, since it last joined. */
  function MissedSinceJoining(start: nat, genesis: set<Address>, events: seq<Event>, v: Address): set<nat> {
    if events == [] then {}
    else
      var before := MissedSinceJoining(start, genesis, Before(events), v);
      match Last(events)
      case NewSet(consensus) => if v in consensus then before else {}
      case Votes(voted) =>
        if v in Consensus(genesis, Before(events)) && v !in voted then before + {Height(start, events)} else before
  }

  /** The heights among the last `window` ones. */
  function InWindow(heights: set<nat>, height: nat, window: nat): set<nat> {
    set h | h in heights && height < h + window && h <= height
  }

  // ---- The window over every run ----

  /** What one validator's entry is at a height, given all the heights it missed. */
  ghost predicate EntryOk(en: Entry, missed: set<nat>, inConsensus: bool, height: nat, window: nat) {
    && (forall h | h in missed :: h <= height)
    && en.missed == InWindow(missed, height, window)
    && (en.sum.Some? ==> en.sum.value == |en.missed| && inConsensus)
    && (en.sum.None? ==> missed == {})
  }

  lemma WindowMoves(missed: set<nat>, height: nat, window: nat)
    requires 1 <= window && forall h | h in missed :: h <= height
    ensures var prune, stored := HeightToPrune(height + 1, window), InWindow(missed, height, window);
            InWindow(missed, height + 1, window) == if prune.Some? then stored - {prune.value} else stored
  {
  }

  lemma WindowGrows(missed: set<nat>, height: nat, window: nat)
    requires 1 <= window
    ensures InWindow(missed + {height}, height, window) == InWindow(missed, height, window) + {height}
  {
  }

  lemma CountRemoved(s: set<nat>, h: nat)
    ensures |s - {h}| == |s| - if h in s then 1 else 0
  {
    if h in s {
      assert s == (s - {h}) + {h};
    } else {
      assert s - {h} == s;
    }
  }

  lemma PruneVoteOk(en: Entry, missed: set<nat>, height: nat, window: nat)
    requires 1 <= window && EntryOk(en, missed, true, height, window)
    ensures var pruned := PruneVote(en, HeightToPrune(height + 1, window));
            pruned.missed == InWindow(missed, height + 1, window) && Counter(pruned) == |pruned.missed|
  {
    EmptyWindow(height, window);
    hide InWindow;
    WindowMoves(missed, height, window);
    var prune := HeightToPrune(height + 1, window);
    assert Counter(en) == |en.missed|;
    if prune.Some? {
      CountRemoved(en.missed, prune.value);
      if prune.value !in en.missed {
        assert en.missed - {prune.value} == en.missed;
      }
    }
  }

  lemma EvaluateVoteOk(en: Entry, missed: set<nat>, height: nat, window: nat, voted: bool)
    requires 1 <= window && forall h | h in missed :: h <= height
    requires en.missed == InWindow(missed, height + 1, window) && Counter(en) == |en.missed|
    ensures EntryOk(EvaluateVote(en, voted, height + 1), if voted then missed else missed + {height + 1}, true,
                    height + 1, window)
  {
    hide InWindow;
    if !voted {
      WindowGrows(missed, height + 1, window);
      NotYet(missed, height, window);
    }
  }

  lemma RecordOk(en: Entry, missed: set<nat>, height: nat, window: nat, voted: bool)
    requires 1 <= window && EntryOk(en, missed, true, height, window)
    ensures EntryOk(RecordEntry(en, voted, height + 1, window),
                    if voted then missed else missed + {height + 1}, true, height + 1, window)
  {
    hide InWindow, PruneVote, EvaluateVote;
    PruneVoteOk(en, missed, height, window);
    EvaluateVoteOk(PruneVote(en, HeightToPrune(height + 1, window)), missed, height, window, voted);
  }

  lemma EmptyWindow(height: nat, window: nat)
    ensures InWindow({}, height, window) == {}
  {
  }

  lemma NotYet(missed: set<nat>, height: nat, window: nat)
    requires forall h | h in missed :: h <= height
    ensures height + 1 !in InWindow(missed, height + 1, window)
  {
  }

  lemma PruneOk(en: Entry, missed: set<nat>, was: bool, stays: bool, height: nat, window: nat)
    requires EntryOk(en, missed, was, height, window)
    ensures EntryOk(PruneEntry(en, stays), if stays then missed else {}, stays, height, window)
  {
  }

  lemma OutsideOk(en: Entry, missed: set<nat>, height: nat, window: nat)
    requires EntryOk(en, missed, false, height, window)
    ensures EntryOk(en, missed, false, height + 1, window)
  {
  }

  lemma {:induction false} RunOk(window: nat, start: nat, genesis: set<Address>, events: seq<Event>, v: Address)
    requires 1 <= window
    ensures EntryOk(EntryAfter(window, start, genesis, events, v), MissedSinceJoining(start, genesis, events, v),
                    v in Consensus(genesis, events), Height(start, events), window)
    decreases |events|
  {
    hide EntryOk, RecordEntry, PruneEntry;
    if events == [] {
      StartOk(v in genesis, start, window);
    } else {
      RunOk(window, start, genesis, Before(events), v);
      var en := EntryAfter(window, start, genesis, Before(events), v);
      var missed := MissedSinceJoining(start, genesis, Before(events), v);
      var inSet, height := v in Consensus(genesis, Before(events)), Height(start, Before(events));
      match Last(events)
      case NewSet(consensus) => PruneOk(en, missed, inSet, v in consensus, height, window);
      case Votes(voted) =>
        if inSet {
          RecordOk(en, missed, height, window, v in voted);
        } else {
          OutsideOk(en, missed, height, window);
        }
    }
  }

  lemma StartOk(inSet: bool, start: nat, window: nat)
    ensures EntryOk(ABSENT, {}, inSet, start, window)
  {
  }

  /** Over every run at consecutive heights the stored heights are exactly the missed ones among the last `window`, and the
      counter is their number. */
  lemma WindowIsExact(window: nat, start: nat, genesis: set<Address>, events: seq<Event>, v: Address)
    requires 1 <= window
    ensures var en, height := EntryAfter(window, start, genesis, events, v), Height(start, events);
            && en.missed == InWindow(MissedSinceJoining(start, genesis, events, v), height, window)
            && (en.sum.Some? ==> en.sum.value == |en.missed| && v in Consensus(genesis, events))
            && (en.sum.None? ==> en.missed == {})
            && forall h | h in en.missed :: height < h + window && h <= height
  {
    RunOk(window, start, genesis, events, v);
  }

  /** The decrement never finds a missing counter or a zero one. */
  lemma NoUnderflow(window: nat, start: nat, genesis: set<Address>, events: seq<Event>, v: Address, h: nat)
    requires 1 <= window && h in EntryAfter(window, start, genesis, events, v).missed
    ensures var en := EntryAfter(window, start, genesis, events, v);
            en.sum.Some? && en.sum.value >= 1
  {
    RunOk(window, start, genesis, events, v);
    var en := EntryAfter(window, start, genesis, events, v);
    assert |en.missed - {h}| == |en.missed| - 1;
  }

  /** Do the stored heights always lie in the window, over every run at consecutive heights? */
  ghost predicate AlwaysInWindow(window: nat) {
    forall start: nat, genesis: set<Address>, events: seq<Event>, v: Address, h: nat |
      h in EntryAfter(window, start, genesis, events, v).missed ::
      Height(start, events) < h + window && h <= Height(start, events)
  }

  /** They do if and only if the window has at least one height. */
  lemma WindowExactly(window: nat)
    ensures AlwaysInWindow(window) <==> 1 <= window
  {
    if window == 0 {
      var events := [Votes({})];
      assert Before(events) == [] && Last(events) == Votes({});
      assert Height(0, events) == 1;
      assert EntryAfter(0, 0, {1}, events, 1) == RecordEntry(ABSENT, false, 1, 0);
      assert 1 in EntryAfter(0, 0, {1}, events, 1).missed;
    } else {
      forall start: nat, genesis: set<Address>, events: seq<Event>, v: Address, h: nat |
        h in EntryAfter(window, start, genesis, events, v).missed
        ensures Height(start, events) < h + window && h <= Height(start, events)
      {
        WindowIsExact(window, start, genesis, events, v);
      }
    }
  }

  /** When heights are skipped, only the height that falls out last is pruned: the stored heights stay in the window if and
      only if none of them falls out earlier. */
  lemma GapExactly(en: Entry, missed: set<nat>, height: nat, next: nat, window: nat, voted: bool)
    requires 1 <= window && EntryOk(en, missed, true, height, window) && height < next
    ensures (forall h | h in RecordEntry(en, voted, next, window).missed :: next < h + window && h <= next) <==>
            (forall h | h in en.missed :: next <= h + window)
  {
    var after := RecordEntry(en, voted, next, window).missed;
    if forall h | h in en.missed :: next <= h + window {
      forall h | h in after ensures next < h + window && h <= next {
        assert h == next || h in en.missed;
      }
    } else {
      var h :| h in en.missed && next > h + window;
      assert h in after;
    }
  }

  /** With a window of one, a vote missed at height 1 is still counted after height 3 if height 2 is skipped. */
  lemma GapLeavesOldVote()
    ensures var en := RecordEntry(RecordEntry(ABSENT, false, 1, 1), true, 3, 1);
            1 in en.missed && en.sum == Some(1)
  {
  }

  // ---- The storage operations ----

  class Storage {
    var missedVotes: map<Address, set<nat>>
    var sumMissedVotes: map<Address, int>

    constructor ()
      ensures forall v :: EntryOf(v) == ABSENT
    {
      missedVotes, sumMissedVotes := map[], map[];
    }

    function EntryOf(v: Address): Entry
      reads this
    {
      Entry(if v in missedVotes then missedVotes[v] else {},
            if v in sumMissedVotes then Some(sumMissedVotes[v]) else None)
    }

    method Record(consensus: set<Address>, voted: set<Address>, height: nat, window: nat)
      modifies this
      ensures forall v | v in consensus :: EntryOf(v) == RecordEntry(old(EntryOf(v)), v in voted, height, window)
      ensures forall v | v !in consensus :: EntryOf(v) == old(EntryOf(v))
    {
      var rest := consensus;
      while rest != {}
        invariant rest <= consensus
        invariant forall v | v in consensus && v !in rest ::
                    EntryOf(v) == RecordEntry(old(EntryOf(v)), v in voted, height, window)
        invariant forall v | v !in consensus || v in rest :: EntryOf(v) == old(EntryOf(v))
        decreases rest
      {
        var v :| v in rest;
        RecordVote(v, v in voted, height, window);
        rest := rest - {v};
      }
    }

    method RecordVote(v: Address, voted: bool, height: nat, window: nat)
      modifies this
      ensures EntryOf(v) == RecordEntry(old(EntryOf(v)), voted, height, window)
      ensures forall w | w != v :: EntryOf(w) == old(EntryOf(w))
    {
      if window <= height {
        var prune := height - window;
        if v in missedVotes && prune in missedVotes[v] {
          missedVotes := missedVotes[v := missedVotes[v] - {prune}];
          sumMissedVotes := sumMissedVotes[v := (if v in sumMissedVotes then sumMissedVotes[v] else 0) - 1];
        }
      }
      if !voted {
        missedVotes := missedVotes[v := (if v in missedVotes then missedVotes[v] else {}) + {height}];
        sumMissedVotes := sumMissedVotes[v := if v in sumMissedVotes then sumMissedVotes[v] + 1 else 1];
      } else if v !in sumMissedVotes {
        sumMissedVotes := sumMissedVotes[v := 0];
      }
    }

    method Prune(consensus: set<Address>)
      modifies this
      ensures forall v :: EntryOf(v) == PruneEntry(old(EntryOf(v)), v in consensus)
    {
      var toPrune := sumMissedVotes.Keys - consensus;
      var rest := toPrune;
      while rest != {}
        invariant rest <= toPrune
        invariant forall v | v in toPrune && v !in rest :: EntryOf(v) == ABSENT
        invariant forall v | v !in toPrune || v in rest :: EntryOf(v) == old(EntryOf(v))
        decreases rest
      {
        var v :| v in rest;
        missedVotes := missedVotes - {v};
        sumMissedVotes := sumMissedVotes - {v};
        rest := rest - {v};
      }
    }
  }
}
