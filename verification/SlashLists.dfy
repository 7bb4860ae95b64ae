/** Which slashes a list holds, in which order, and what each of them takes: an account of slashing that speaks of
    infraction epochs and rates only. */
module SlashLists {
  import opened Types
  import opened Parameters
  import opened Slashing
  import opened Redelegations
  import opened UnbondSlashing

  /** The slashes of one infraction epoch, in list order. */
  function OfEpoch(slashes: seq<Slash>, i: Epoch): seq<Slash> {
    if slashes == [] then []
    else
      var n := |slashes| - 1;
      OfEpoch(slashes[..n], i) + if slashes[n].epoch == i then [slashes[n]] else []
  }

  lemma OfEpochNext(slashes: seq<Slash>, s: Slash, i: Epoch)
    ensures OfEpoch(slashes + [s], i) == OfEpoch(slashes, i) + if s.epoch == i then [s] else []
  {
    assert (slashes + [s])[..|slashes|] == slashes;
  }

  lemma {:induction false} OfEpochConcat(a: seq<Slash>, b: seq<Slash>, i: Epoch)
    ensures OfEpoch(a + b, i) == OfEpoch(a, i) + OfEpoch(b, i)
    decreases |b|
  {
    if b == [] {
      assert a + b == a;
    } else {
      var n := |b| - 1;
      OfEpochConcat(a, b[..n], i);
      assert (a + b)[..|a| + n] == a + b[..n];
    }
  }

  lemma {:induction false} SelectOfEpoch(p: Params, f: Filter, slashes: seq<Slash>, i: Epoch)
    ensures OfEpoch(Select(p, f, slashes), i) == if Keeps(p, f, i) then OfEpoch(slashes, i) else []
    decreases |slashes|
  {
    hide Keeps;
    if slashes != [] {
      var n := |slashes| - 1;
      var before := Select(p, f, slashes[..n]);
      SelectOfEpoch(p, f, slashes[..n], i);
      OfEpochNext(before, slashes[n], i);
      assert before + [] == before;
    }
  }

  lemma {:induction false} SelectInOrder(p: Params, f: Filter, slashes: seq<Slash>)
    requires InOrder(slashes)
    ensures var r := Select(p, f, slashes);
            InOrder(r) && (r != [] ==> slashes != [] && r[|r| - 1].epoch <= slashes[|slashes| - 1].epoch)
    decreases |slashes|
  {
    hide Keeps;
    if slashes != [] {
      SelectInOrder(p, f, slashes[..|slashes| - 1]);
    }
  }

  lemma {:induction false} InsertOfEpoch(sorted: seq<Slash>, s: Slash, i: Epoch)
    ensures OfEpoch(InsertByEpoch(sorted, s), i) == OfEpoch(sorted, i) + if s.epoch == i then [s] else []
    decreases |sorted|
  {
    if sorted != [] {
      var n := |sorted| - 1;
      if sorted[n].epoch <= s.epoch {
        OfEpochNext(sorted, s, i);
      } else {
        InsertOfEpoch(sorted[..n], s, i);
        OfEpochNext(InsertByEpoch(sorted[..n], s), sorted[n], i);
      }
    }
  }

  /** Sorting keeps the slashes of each epoch in the order in which they came. */
  lemma {:induction false} SortOfEpoch(slashes: seq<Slash>, i: Epoch)
    ensures OfEpoch(SortByEpoch(slashes), i) == OfEpoch(slashes, i)
    decreases |slashes|
  {
    if slashes != [] {
      var n := |slashes| - 1;
      SortOfEpoch(slashes[..n], i);
      InsertOfEpoch(SortByEpoch(slashes[..n]), slashes[n], i);
    }
  }

  lemma {:induction false} LastAtLeast(slashes: seq<Slash>, i: Epoch)
    requires InOrder(slashes) && OfEpoch(slashes, i) != []
    ensures slashes != [] && i <= slashes[|slashes| - 1].epoch
    decreases |slashes|
  {
    var n := |slashes| - 1;
    if slashes[n].epoch != i {
      LastAtLeast(slashes[..n], i);
    }
  }

  /** A list in infraction order is known by its slashes of each epoch. */
  lemma {:induction false} ListKnown(a: seq<Slash>, b: seq<Slash>)
    requires InOrder(a) && InOrder(b) && forall i: Epoch :: OfEpoch(a, i) == OfEpoch(b, i)
    ensures a == b
    decreases |a|
  {
    if a == [] {
      assert b != [] ==> OfEpoch(a, b[|b| - 1].epoch) == OfEpoch(b, b[|b| - 1].epoch);
    } else {
      var m, x := |a| - 1, a[|a| - 1];
      assert OfEpoch(b, x.epoch) == OfEpoch(a, x.epoch);
      LastAtLeast(b, x.epoch);
      var n, y := |b| - 1, b[|b| - 1];
      assert OfEpoch(b, y.epoch) == OfEpoch(a, y.epoch);
      LastAtLeast(a, y.epoch);
      LastsEqual(a, b);
      forall i: Epoch ensures OfEpoch(a[..m], i) == OfEpoch(b[..n], i) {
        assert OfEpoch(a, i) == OfEpoch(b, i);
        WithoutLast(OfEpoch(a[..m], i), OfEpoch(b[..n], i), x);
      }
      ListKnown(a[..m], b[..n]);
      assert a == a[..m] + [x] && b == b[..n] + [y];
    }
  }

  lemma LastsEqual(a: seq<Slash>, b: seq<Slash>)
    requires a != [] && b != [] && a[|a| - 1].epoch == b[|b| - 1].epoch
    requires OfEpoch(a, a[|a| - 1].epoch) == OfEpoch(b, a[|a| - 1].epoch)
    ensures a[|a| - 1] == b[|b| - 1]
  {
    var r := OfEpoch(a, a[|a| - 1].epoch);
    assert r[|r| - 1] == a[|a| - 1];
    assert r[|r| - 1] == b[|b| - 1];
  }

  lemma WithoutLast(a: seq<Slash>, b: seq<Slash>, x: Slash)
    ensures a + [x] == b + [x] ==> a == b
    ensures a + [] == b + [] ==> a == b
  {
    assert (a + [x])[..|a + [x]| - 1] == a && (b + [x])[..|b + [x]| - 1] == b;
    assert a + [] == a && b + [] == b;
  }

  // ---- What each slash takes ----

  /** Of several slashes of one infraction epoch, only the last one counts as computed for later slashes. */
  function Latest(slashes: seq<Slash>): (r: seq<Slash>)
    ensures slashes != [] ==> r != [] && r[|r| - 1] == slashes[|slashes| - 1]
  {
    if slashes == [] then []
    else
      var n := |slashes| - 1;
      var before := Latest(slashes[..n]);
      (if before != [] && before[|before| - 1].epoch == slashes[n].epoch then before[..|before| - 1] else before)
      + [slashes[n]]
  }

  lemma {:induction false} LatestIncreasing(slashes: seq<Slash>)
    requires InOrder(slashes)
    ensures Increasing(Latest(slashes))
    decreases |slashes|
  {
    if slashes != [] {
      var n := |slashes| - 1;
      LatestIncreasing(slashes[..n]);
      var before := Latest(slashes[..n]);
      if before != [] {
        var m := |before| - 1;
        assert before[m] == slashes[n - 1];
        forall i | 0 <= i < m ensures before[i].epoch < before[m].epoch {
        }
      }
    }
  }

  lemma LatestNext(slashes: seq<Slash>, x: Slash)
    requires Latest(slashes) == slashes && (slashes != [] ==> slashes[|slashes| - 1].epoch < x.epoch)
    ensures Latest(slashes + [x]) == slashes + [x]
  {
    assert (slashes + [x])[..|slashes|] == slashes;
  }

  lemma PrefixIncreasing(slashes: seq<Slash>, n: nat)
    requires Increasing(slashes) && n <= |slashes|
    ensures Increasing(slashes[..n])
  {
  }

  lemma {:induction false} LatestOfIncreasing(slashes: seq<Slash>)
    requires Increasing(slashes)
    ensures Latest(slashes) == slashes
    decreases |slashes|
  {
    hide Latest;
    if slashes == [] {
      LatestOfNone();
    } else {
      var n := |slashes| - 1;
      PrefixIncreasing(slashes, n);
      LatestOfIncreasing(slashes[..n]);
      LatestNext(slashes[..n], slashes[n]);
      assert slashes == slashes[..n] + [slashes[n]];
    }
  }

  lemma LatestOfNone()
    ensures Latest([]) == []
  {
  }

  lemma UnprocessedIgnored(p: Params, computed: map<Epoch, Amount>, x: Slash, amount: Amount, y: Amount)
    ensures SlashableAmount(p, x, amount, computed[x.epoch := y]) == SlashableAmount(p, x, amount, computed)
  {
    assert ProcessedBy(p, computed[x.epoch := y], x.epoch) == ProcessedBy(p, computed, x.epoch);
  }

  lemma ComputedNext(p: Params, slashes: seq<Slash>, x: Slash, amount: Amount)
    ensures var c := Computed(p, slashes, amount);
            Computed(p, slashes + [x], amount) == c[x.epoch := SlashableAmount(p, x, amount, c)]
  {
    assert (slashes + [x])[..|slashes|] == slashes;
  }

  lemma {:induction false} LatestComputed(p: Params, slashes: seq<Slash>, amount: Amount)
    ensures Computed(p, Latest(slashes), amount) == Computed(p, slashes, amount)
    decreases |slashes|
  {
    hide SlashableAmount;
    if slashes != [] {
      var n := |slashes| - 1;
      var x, before := slashes[n], Latest(slashes[..n]);
      LatestComputed(p, slashes[..n], amount);
      if before != [] && before[|before| - 1].epoch == x.epoch {
        var m := |before| - 1;
        ReplacedComputed(p, before, x, amount);
      } else {
        ComputedNext(p, before, x, amount);
      }
    }
  }

  lemma ReplacedComputed(p: Params, before: seq<Slash>, x: Slash, amount: Amount)
    requires before != [] && before[|before| - 1].epoch == x.epoch
    ensures var c := Computed(p, before, amount);
            Computed(p, before[..|before| - 1] + [x], amount) == c[x.epoch := SlashableAmount(p, x, amount, c)]
  {
    hide SlashableAmount;
    var m := |before| - 1;
    var c := Computed(p, before[..m], amount);
    ComputedNext(p, before[..m], x, amount);
    UnprocessedIgnored(p, c, x, amount, SlashableAmount(p, before[m], amount, c));
  }

  /** Is `j` where the slashes that were processed by the given epoch end? */
  ghost predicate ProcessedUntil(p: Params, slashes: seq<Slash>, j: nat, epoch: Epoch) {
    && j <= |slashes|
    && (forall i | 0 <= i < j :: slashes[i].epoch + p.SlashProcessingEpochOffset() <= epoch)
    && (forall i | j <= i < |slashes| :: epoch < slashes[i].epoch + p.SlashProcessingEpochOffset())
  }

  lemma {:induction false} ComputedEpochs(p: Params, slashes: seq<Slash>, amount: Amount, epoch: Epoch)
    requires forall i | 0 <= i < |slashes| :: slashes[i].epoch + p.SlashProcessingEpochOffset() <= epoch
    ensures ProcessedBy(p, Computed(p, slashes, amount), epoch) == Computed(p, slashes, amount)
    decreases |slashes|
  {
    hide SlashableAmount;
    if slashes != [] {
      ComputedEpochs(p, slashes[..|slashes| - 1], amount, epoch);
    }
  }

  lemma {:induction false} ComputedPrefix(p: Params, slashes: seq<Slash>, j: nat, epoch: Epoch, amount: Amount)
    requires ProcessedUntil(p, slashes, j, epoch)
    ensures ProcessedBy(p, Computed(p, slashes, amount), epoch) == Computed(p, slashes[..j], amount)
    decreases |slashes|
  {
    hide SlashableAmount;
    if j == |slashes| {
      assert slashes[..j] == slashes;
      ComputedEpochs(p, slashes, amount, epoch);
    } else {
      var n := |slashes| - 1;
      ComputedPrefix(p, slashes[..n], j, epoch, amount);
      assert slashes[..n][..j] == slashes[..j];
    }
  }

  /** Each slash takes its rate, rounded up, of what the slashes that had been processed when its infraction was committed
      leave of the amount; what it takes comes off what is left. */
  lemma TakesItsShare(p: Params, slashes: seq<Slash>, x: Slash, j: nat, amount: Amount)
    requires InOrder(slashes) && ProcessedUntil(p, slashes, j, x.epoch)
    ensures AfterSlashes(p, slashes + [x], amount) ==
            Monus(AfterSlashes(p, slashes, amount), MulCeil(AfterSlashes(p, Latest(slashes[..j]), amount), x.rate))
  {
    hide MulCeil, Computed, Latest;
    var done := slashes[..j];
    assert (slashes + [x])[..|slashes|] == slashes;
    ComputedPrefix(p, slashes, j, x.epoch, amount);
    LatestComputed(p, done, amount);
    LatestIncreasing(done);
    AfterSlashesResidual(p, Latest(done), amount);
  }

  /** With one slash, the amount loses its rate, rounded up. */
  lemma OneSlash(p: Params, x: Slash, amount: Amount)
    ensures AfterSlashes(p, [x], amount) == Monus(amount, MulCeil(amount, x.rate))
  {
    hide MulCeil;
    TakesItsShare(p, [], x, 0, amount);
    assert [] + [x] == [x];
  }

  // ---- What an unbond is worth ----

  /** Is the infraction while the bond contributed to stake? Without an end, it still does. */
  predicate During(start: Epoch, end: Option<Epoch>, i: Epoch) {
    start <= i && (end.Some? ==> i < end.value)
  }

  /** The list holds, in infraction order, exactly the recorded slashes for the infractions during the bond. */
  ghost predicate OwnSlashes(recorded: seq<Slash>, start: Epoch, end: Option<Epoch>, own: seq<Slash>) {
    && InOrder(own)
    && forall i: Epoch :: OfEpoch(own, i) == if During(start, end, i) then OfEpoch(recorded, i) else []
  }

  /** Are tokens that contributed to another validator from `bondStart` and to this one from `start` liable for the other
      validator's infraction, which was not processed when they moved? */
  predicate Liable(p: Params, bondStart: Epoch, start: Epoch, i: Epoch) {
    bondStart <= i < start && start < i + p.SlashProcessingEpochOffset() + p.pipelineLen
  }

  /** The list holds, in infraction order, exactly the source validator's recorded slashes for which redelegated tokens are
      liable and this validator's own ones. */
  ghost predicate JoinedSlashes(p: Params, ofSource: seq<Slash>, bondStart: Epoch, start: Epoch, own: seq<Slash>,
                                list: seq<Slash>) {
    && InOrder(list)
    && forall i: Epoch :: OfEpoch(list, i) == (if Liable(p, bondStart, start, i) then OfEpoch(ofSource, i) else []) + OfEpoch(own, i)
  }

  /** Some such list leaves `left` of `amount`. */
  ghost predicate LeftOfEntry(p: Params, ofSource: seq<Slash>, bondStart: Epoch, start: Epoch, own: seq<Slash>,
                              amount: Amount, left: Amount) {
    exists list: seq<Slash> :: JoinedSlashes(p, ofSource, bondStart, start, own, list) && left == AfterSlashes(p, list, amount)
  }

  /** Each redelegated entry is left with what the slashes for which it is liable leave of it. */
  ghost predicate LeftOfTokens(p: Params, slashes: map<Address, seq<Slash>>, start: Epoch, own: seq<Slash>, t: Tokens,
                               left: Tokens) {
    && left.Keys == t.Keys
    && (forall src | src in t :: left[src].Keys == t[src].Keys)
    && (forall src, b | src in t && b in t[src] ::
          LeftOfEntry(p, SlashesOf(slashes, src), b, start, own, t[src][b], left[src][b]))
  }

  /** An unbond of `amount`, of which `t` was redelegated, is worth `paid`: the part that was not redelegated loses exactly what
      this validator's slashes during the bond take, and each redelegated entry also what its source's slashes take. */
  ghost predicate Worth(p: Params, slashes: map<Address, seq<Slash>>, v: Address, start: Epoch, end: Option<Epoch>,
                        amount: Amount, t: Tokens, paid: Amount) {
    exists own: seq<Slash>, left: Tokens ::
      && OwnSlashes(SlashesOf(slashes, v), start, end, own)
      && LeftOfTokens(p, slashes, start, own, t, left)
      && Total(t) <= amount && paid == AfterSlashes(p, own, amount - Total(t)) + Total(left)
  }

  lemma JoinedIsMerged(p: Params, ofSource: seq<Slash>, bondStart: Epoch, start: Epoch, own: seq<Slash>)
    ensures JoinedSlashes(p, ofSource, bondStart, start, own, Merged(p, ofSource, bondStart, start, own))
  {
    hide Select, SortByEpoch;
    var f := RedelegationFilter(p, bondStart, start);
    var lazy := Select(p, f, ofSource);
    SortedPermutation(lazy + own);
    forall i: Epoch ensures OfEpoch(SortByEpoch(lazy + own), i) ==
                            (if Liable(p, bondStart, start, i) then OfEpoch(ofSource, i) else []) + OfEpoch(own, i)
    {
      SortOfEpoch(lazy + own, i);
      OfEpochConcat(lazy, own, i);
      SelectOfEpoch(p, f, ofSource, i);
      assert Keeps(p, f, i) == Liable(p, bondStart, start, i);
    }
  }

  lemma TokensLeft(p: Params, slashes: map<Address, seq<Slash>>, start: Epoch, own: seq<Slash>, t: Tokens)
    ensures LeftOfTokens(p, slashes, start, own, t, TokensAfter(p, slashes, t, start, own))
  {
    hide JoinedSlashes, Merged, AfterSlashes;
    var left := TokensAfter(p, slashes, t, start, own);
    forall src, b | src in t && b in t[src]
      ensures LeftOfEntry(p, SlashesOf(slashes, src), b, start, own, t[src][b], left[src][b])
    {
      JoinedIsMerged(p, SlashesOf(slashes, src), b, start, own);
    }
  }

  lemma OwnSelected(p: Params, recorded: seq<Slash>, f: Filter, start: Epoch, end: Option<Epoch>)
    requires InOrder(recorded) && forall i: Epoch :: Keeps(p, f, i) == During(start, end, i)
    ensures OwnSlashes(recorded, start, end, Select(p, f, recorded))
  {
    hide Select, Keeps;
    SelectInOrder(p, f, recorded);
    forall i: Epoch ensures OfEpoch(Select(p, f, recorded), i) == if During(start, end, i) then OfEpoch(recorded, i) else [] {
      SelectOfEpoch(p, f, recorded, i);
    }
  }

  lemma UnbondWorth(p: Params, slashes: map<Address, seq<Slash>>, v: Address, f: Filter, start: Epoch,
                    end: Option<Epoch>, amount: Amount, t: Tokens)
    requires InOrder(SlashesOf(slashes, v)) && Total(t) <= amount
    requires forall i: Epoch :: Keeps(p, f, i) == During(start, end, i)
    ensures Worth(p, slashes, v, start, end, amount, t,
                  UnbondAfter(p, slashes, start, amount, t, Select(p, f, SlashesOf(slashes, v))))
  {
    hide Select, Keeps, OwnSlashes, LeftOfTokens, TokensAfter, AfterSlashes, Total;
    var own := Select(p, f, SlashesOf(slashes, v));
    OwnSelected(p, SlashesOf(slashes, v), f, start, end);
    TokensLeft(p, slashes, start, own, t);
  }

  lemma EntryKnown(p: Params, ofSource: seq<Slash>, bondStart: Epoch, start: Epoch, own: seq<Slash>, amount: Amount,
                   left: Amount, left': Amount)
    requires LeftOfEntry(p, ofSource, bondStart, start, own, amount, left)
    requires LeftOfEntry(p, ofSource, bondStart, start, own, amount, left')
    ensures left == left'
  {
    hide OfEpoch, InOrder, AfterSlashes;
    var a :| JoinedSlashes(p, ofSource, bondStart, start, own, a) && left == AfterSlashes(p, a, amount);
    var b :| JoinedSlashes(p, ofSource, bondStart, start, own, b) && left' == AfterSlashes(p, b, amount);
    ListKnown(a, b);
  }

  lemma TokensKnown(p: Params, slashes: map<Address, seq<Slash>>, start: Epoch, own: seq<Slash>, t: Tokens,
                    left: Tokens, left': Tokens)
    requires LeftOfTokens(p, slashes, start, own, t, left) && LeftOfTokens(p, slashes, start, own, t, left')
    ensures left == left'
  {
    hide LeftOfEntry;
    forall src | src in t ensures left[src] == left'[src] {
      forall b | b in t[src] ensures left[src][b] == left'[src][b] {
        EntryKnown(p, SlashesOf(slashes, src), b, start, own, t[src][b], left[src][b], left'[src][b]);
      }
    }
  }

  /** What an unbond is worth is known from the recorded slashes. */
  lemma WorthKnown(p: Params, slashes: map<Address, seq<Slash>>, v: Address, start: Epoch, end: Option<Epoch>,
                   amount: Amount, t: Tokens, paid: Amount, paid': Amount)
    requires Worth(p, slashes, v, start, end, amount, t, paid) && Worth(p, slashes, v, start, end, amount, t, paid')
    ensures paid == paid'
  {
    hide OfEpoch, InOrder, During, LeftOfTokens, AfterSlashes, Total;
    var own, left :| && OwnSlashes(SlashesOf(slashes, v), start, end, own) && LeftOfTokens(p, slashes, start, own, t, left)
                     && Total(t) <= amount && paid == AfterSlashes(p, own, amount - Total(t)) + Total(left);
    var own', left' :| && OwnSlashes(SlashesOf(slashes, v), start, end, own') && LeftOfTokens(p, slashes, start, own', t, left')
                       && Total(t) <= amount && paid' == AfterSlashes(p, own', amount - Total(t)) + Total(left');
    ListKnown(own, own');
    TokensKnown(p, slashes, start, own, t, left, left');
  }

  lemma OnlyOne(recorded: seq<Slash>, start: Epoch, end: Option<Epoch>, own: seq<Slash>, x: Slash)
    requires OwnSlashes(recorded, start, end, own) && During(start, end, x.epoch)
    requires OfEpoch(recorded, x.epoch) == [x]
    requires forall i: Epoch | During(start, end, i) && i != x.epoch :: OfEpoch(recorded, i) == []
    ensures own == [x]
  {
    forall i: Epoch ensures OfEpoch(own, i) == OfEpoch([x], i) {
      OfEpochNext([], x, i);
      assert [] + [x] == [x];
    }
    ListKnown(own, [x]);
  }

  /** With one slash during the bond and nothing redelegated, an unbond loses that slash's rate of it, rounded up. */
  lemma WorthAfterOne(p: Params, slashes: map<Address, seq<Slash>>, v: Address, start: Epoch, end: Option<Epoch>,
                      amount: Amount, paid: Amount, x: Slash)
    requires Worth(p, slashes, v, start, end, amount, map[], paid)
    requires During(start, end, x.epoch) && OfEpoch(SlashesOf(slashes, v), x.epoch) == [x]
    requires forall i: Epoch | During(start, end, i) && i != x.epoch :: OfEpoch(SlashesOf(slashes, v), i) == []
    ensures paid == Monus(amount, MulCeil(amount, x.rate))
  {
    hide OfEpoch, During, AfterSlashes, Total, LeftOfEntry, OwnSlashes, MulCeil;
    TotalOfNone();
    var t: Tokens := map[];
    var own, left: Tokens :| && OwnSlashes(SlashesOf(slashes, v), start, end, own) && LeftOfTokens(p, slashes, start, own, t, left)
                     && Total(t) <= amount && paid == AfterSlashes(p, own, amount - Total(t)) + Total(left);
    OnlyOne(SlashesOf(slashes, v), start, end, own, x);
    assert left == map[];
    OneSlash(p, x, amount);
  }
}
