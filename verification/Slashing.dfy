/** How much is left of an amount after a list of slashes. A slash compounds on an earlier one
    only if the earlier one had been processed when the later infraction was committed. */
module Slashing {
  import opened Types
  import opened Parameters
  import opened FiniteSums

  datatype Slash = Slash(epoch: Epoch, rate: nat)

  datatype SlashedAmount = SlashedAmount(epoch: Epoch, amount: Amount)

  // ---- `compute_slashable_amount` ----

  /** The total of the computed slashes that were processed by the given epoch. */
  ghost function ProcessedTotal(p: Params, computed: map<Epoch, Amount>, epoch: Epoch): Amount {
    SumNonNegative(ProcessedBy(p, computed, epoch));
    Sum(ProcessedBy(p, computed, epoch))
  }

  ghost function ProcessedBy(p: Params, computed: map<Epoch, Amount>, epoch: Epoch): map<Epoch, Amount> {
    map k | k in computed && k + p.SlashProcessingEpochOffset() <= epoch :: computed[k]
  }

  ghost function SlashableAmount(p: Params, slash: Slash, amount: Amount, computed: map<Epoch, Amount>): Amount {
    MulCeil(Monus(amount, ProcessedTotal(p, computed, slash.epoch)), slash.rate)
  }

  lemma ProcessedTotalStep(p: Params, computed: map<Epoch, Amount>, epoch: Epoch, k: Epoch)
    requires k in computed
    ensures ProcessedTotal(p, computed, epoch)
         == ProcessedTotal(p, computed - {k}, epoch)
          + if k + p.SlashProcessingEpochOffset() <= epoch then computed[k] else 0
  {
    var m := ProcessedBy(p, computed, epoch);
    SumWithout(m, k);
    assert m - {k} == ProcessedBy(p, computed - {k}, epoch);
  }

  /** One pass over the ordered map of computed slashes, taking off those already processed. */
  method ComputeSlashableAmount(p: Params, slash: Slash, amount: Amount, computed: map<Epoch, Amount>)
    returns (r: Amount)
    ensures r == SlashableAmount(p, slash, amount, computed)
  {
    var acc: Amount := amount;
    var rest := computed;
    while rest != map[]
      invariant Monus(acc, ProcessedTotal(p, rest, slash.epoch))
             == Monus(amount, ProcessedTotal(p, computed, slash.epoch))
      decreases rest.Keys
    {
      var k := MinKey(rest.Keys);
      ProcessedTotalStep(p, rest, slash.epoch, k);
      if k + p.SlashProcessingEpochOffset() <= slash.epoch {
        acc := Monus(acc, rest[k]);
      }
      rest := rest - {k};
    }
    assert ProcessedBy(p, rest, slash.epoch) == map[];
    r := MulCeil(acc, slash.rate);
  }

  // ---- `apply_list_slashes` ----

  /** The amount computed for each infraction epoch; a later slash of an epoch replaces an earlier one. */
  ghost function Computed(p: Params, slashes: seq<Slash>, amount: Amount): map<Epoch, Amount> {
    if slashes == [] then map[]
    else
      var n := |slashes| - 1;
      var before := Computed(p, slashes[..n], amount);
      before[slashes[n].epoch := SlashableAmount(p, slashes[n], amount, before)]
  }

  /** What is left of `amount` after the slashes, in list order. */
  ghost function AfterSlashes(p: Params, slashes: seq<Slash>, amount: Amount): (r: Amount)
    ensures r <= amount
  {
    if slashes == [] then amount
    else
      var n := |slashes| - 1;
      Monus(AfterSlashes(p, slashes[..n], amount),
            SlashableAmount(p, slashes[n], amount, Computed(p, slashes[..n], amount)))
  }

  method ApplyListSlashes(p: Params, slashes: seq<Slash>, amount: Amount) returns (final: Amount)
    ensures final == AfterSlashes(p, slashes, amount)
  {
    final := amount;
    var computed: map<Epoch, Amount> := map[];
    for i := 0 to |slashes|
      invariant computed == Computed(p, slashes[..i], amount)
      invariant final == AfterSlashes(p, slashes[..i], amount)
    {
      assert slashes[..i + 1][..i] == slashes[..i];
      var slashed := ComputeSlashableAmount(p, slashes[i], amount, computed);
      final := Monus(final, slashed);
      computed := computed[slashes[i].epoch := slashed];
    }
    assert slashes[..|slashes|] == slashes;
  }

  // ---- `get_slashed_amount` ----

  ghost predicate Increasing(slashes: seq<Slash>) {
    forall i, j | 0 <= i < j < |slashes| :: slashes[i].epoch < slashes[j].epoch
  }

  /** The map from infraction epoch to rate that a list with one slash per epoch stands for. */
  function RatesByEpoch(slashes: seq<Slash>): map<Epoch, nat> {
    if slashes == [] then map[]
    else
      var n := |slashes| - 1;
      RatesByEpoch(slashes[..n])[slashes[n].epoch := slashes[n].rate]
  }

  /** The slashes of an ordered epoch-to-rate map, in epoch order. */
  function InEpochOrder(rates: map<Epoch, nat>): seq<Slash>
    decreases rates.Keys
  {
    if rates == map[] then []
    else
      var k := MaxKey(rates.Keys);
      InEpochOrder(rates - {k}) + [Slash(k, rates[k])]
  }

  ghost predicate Ascending(amounts: seq<SlashedAmount>) {
    forall i, j | 0 <= i < j < |amounts| :: amounts[i].epoch < amounts[j].epoch
  }

  function TotalSlashed(amounts: seq<SlashedAmount>): Amount {
    if amounts == [] then 0 else TotalSlashed(amounts[..|amounts| - 1]) + amounts[|amounts| - 1].amount
  }

  ghost function AsMap(amounts: seq<SlashedAmount>): map<Epoch, Amount> {
    if amounts == [] then map[]
    else
      var n := |amounts| - 1;
      AsMap(amounts[..n])[amounts[n].epoch := amounts[n].amount]
  }

  lemma {:induction false} AsMapKeys(amounts: seq<SlashedAmount>)
    ensures forall k :: k in AsMap(amounts) <==> exists i :: 0 <= i < |amounts| && amounts[i].epoch == k
  {
    if amounts != [] {
      var n := |amounts| - 1;
      AsMapKeys(amounts[..n]);
      forall k ensures k in AsMap(amounts) <==> exists i :: 0 <= i < |amounts| && amounts[i].epoch == k {
        if k in AsMap(amounts[..n]) {
          var i :| 0 <= i < n && amounts[..n][i].epoch == k;
          assert amounts[i].epoch == k;
        }
        if i :| 0 <= i < |amounts| && amounts[i].epoch == k && i < n {
          assert amounts[..n][i].epoch == k;
        }
      }
    }
  }

  lemma LastNotBefore(amounts: seq<SlashedAmount>)
    requires amounts != [] && Ascending(amounts)
    ensures amounts[|amounts| - 1].epoch !in AsMap(amounts[..|amounts| - 1])
  {
    AsMapKeys(amounts[..|amounts| - 1]);
  }

  lemma {:induction false} SlashedIsSum(amounts: seq<SlashedAmount>)
    requires Ascending(amounts)
    ensures Sum(AsMap(amounts)) == TotalSlashed(amounts)
  {
    if amounts != [] {
      var n := |amounts| - 1;
      SlashedIsSum(amounts[..n]);
      LastNotBefore(amounts);
      SumUpdate<Epoch>(AsMap(amounts[..n]), amounts[n].epoch, amounts[n].amount);
    }
  }

  lemma {:induction false} SlashedSplit(amounts: seq<SlashedAmount>, j: nat)
    requires j <= |amounts|
    ensures TotalSlashed(amounts) == TotalSlashed(amounts[..j]) + TotalSlashed(amounts[j..])
    decreases |amounts| - j
  {
    if j == |amounts| {
      assert amounts[..j] == amounts;
    } else {
      var n := |amounts| - 1;
      SlashedPrefixStep(amounts, j);
      SlashedSplit(amounts, j + 1);
      SlashedCons(amounts[j..]);
      assert amounts[j..][1..] == amounts[j + 1..];
    }
  }

  lemma SlashedPrefixStep(amounts: seq<SlashedAmount>, j: nat)
    requires j < |amounts|
    ensures TotalSlashed(amounts[..j + 1]) == TotalSlashed(amounts[..j]) + amounts[j].amount
  {
    assert amounts[..j + 1][..j] == amounts[..j];
  }

  lemma {:induction false} SlashedCons(amounts: seq<SlashedAmount>)
    requires amounts != []
    ensures TotalSlashed(amounts) == amounts[0].amount + TotalSlashed(amounts[1..])
    decreases |amounts|
  {
    var n := |amounts| - 1;
    if n > 0 {
      SlashedCons(amounts[..n]);
      assert amounts[..n][1..] == amounts[1..][..n - 1];
    }
  }

  predicate IsProcessed(p: Params, slashed: SlashedAmount, infraction: Epoch) {
    slashed.epoch + p.SlashProcessingEpochOffset() <= infraction
  }

  /** Is `j` where the amounts that were processed by the given epoch end? */
  ghost predicate CutAt(p: Params, amounts: seq<SlashedAmount>, j: nat, infraction: Epoch) {
    && j <= |amounts|
    && (forall i | 0 <= i < j :: IsProcessed(p, amounts[i], infraction))
    && (forall i | j <= i < |amounts| :: !IsProcessed(p, amounts[i], infraction))
  }

  lemma {:induction false} ProcessedPrefix(p: Params, amounts: seq<SlashedAmount>, j: nat, infraction: Epoch)
    requires Ascending(amounts) && CutAt(p, amounts, j, infraction)
    ensures ProcessedTotal(p, AsMap(amounts), infraction) == TotalSlashed(amounts[..j])
    decreases |amounts|
  {
    if amounts == [] {
      assert ProcessedBy(p, AsMap(amounts), infraction) == map[];
    } else {
      var n := |amounts| - 1;
      var init := amounts[..n];
      var k := amounts[n].epoch;
      LastNotBefore(amounts);
      ProcessedTotalStep(p, AsMap(amounts), infraction, k);
      assert AsMap(amounts) - {k} == AsMap(init);
      if j == |amounts| {
        assert CutAt(p, init, n, infraction);
        ProcessedPrefix(p, init, n, infraction);
        assert init[..n] == init && amounts[..j] == amounts;
      } else {
        assert CutAt(p, init, j, infraction);
        ProcessedPrefix(p, init, j, infraction);
        assert init[..j] == amounts[..j];
      }
    }
  }

  /** The first inner loop of `get_slashed_amount`: take the amounts processed by now off the
      running amount and mark their indices. */
  method MarkProcessed(p: Params, infraction: Epoch, updated: Amount, computed: seq<SlashedAmount>)
    returns (updated': Amount, toRemove: set<nat>, ghost j: nat)
    requires Ascending(computed)
    ensures CutAt(p, computed, j, infraction)
    ensures updated' == Monus(updated, TotalSlashed(computed[..j]))
    ensures forall i :: i in toRemove <==> 0 <= i < j
  {
    updated' := updated;
    toRemove := {};
    j := 0;
    for ix := 0 to |computed|
      invariant j <= ix && forall i :: i in toRemove <==> 0 <= i < j
      invariant forall i | 0 <= i < j :: IsProcessed(p, computed[i], infraction)
      invariant forall i | j <= i < ix :: !IsProcessed(p, computed[i], infraction)
      invariant updated' == Monus(updated, TotalSlashed(computed[..j]))
    {
      assert j < ix ==> computed[j].epoch < computed[ix].epoch;
      if IsProcessed(p, computed[ix], infraction) {
        assert j == ix;
        SlashedPrefixStep(computed, j);
        updated' := Monus(updated', computed[ix].amount);
        toRemove := toRemove + {ix};
        j := j + 1;
      }
    }
  }

  /** The second inner loop: remove the marked indices, greatest first, so that the left shift of
      the vector does not invalidate the rest of them. */
  method RemoveMarked(computed: seq<SlashedAmount>, marked: set<nat>, ghost j: nat)
    returns (computed': seq<SlashedAmount>)
    requires j <= |computed| && forall i :: i in marked <==> 0 <= i < j
    ensures computed' == computed[j..]
  {
    computed' := computed;
    var toRemove := marked;
    ghost var left: nat := j;
    while toRemove != {}
      invariant left <= j && forall i :: i in toRemove <==> 0 <= i < left
      invariant computed' == computed[..left] + computed[j..]
      decreases left
    {
      var i := MaxKey(toRemove);
      assert left - 1 in toRemove;
      computed' := computed'[..i] + computed'[i + 1..];
      toRemove := toRemove - {i};
      left := left - 1;
    }
    assert 0 !in toRemove;
  }

  lemma {:induction false} AfterSlashesResidual(p: Params, slashes: seq<Slash>, amount: Amount)
    requires Increasing(slashes)
    ensures Sum(Computed(p, slashes, amount)) >= 0
    ensures AfterSlashes(p, slashes, amount) == Monus(amount, Sum(Computed(p, slashes, amount)))
    ensures forall k | k in Computed(p, slashes, amount) :: exists i :: 0 <= i < |slashes| && slashes[i].epoch == k
  {
    if slashes != [] {
      var n := |slashes| - 1;
      var before := slashes[..n];
      AfterSlashesResidual(p, before, amount);
      var k, x := slashes[n].epoch, SlashableAmount(p, slashes[n], amount, Computed(p, before, amount));
      SumUpdate<Epoch>(Computed(p, before, amount), k, x);
      assert k !in Computed(p, before, amount);
      forall e | e in Computed(p, slashes, amount)
        ensures exists i :: 0 <= i < |slashes| && slashes[i].epoch == e
      {
        if e == k {
          assert slashes[n].epoch == e;
        } else {
          var i :| 0 <= i < n && before[i].epoch == e;
          assert slashes[i].epoch == e;
        }
      }
    }
  }

  lemma {:induction false} InEpochOrderIsIncreasing(rates: map<Epoch, nat>)
    ensures Increasing(InEpochOrder(rates))
    ensures forall s | s in InEpochOrder(rates) :: s.epoch in rates && rates[s.epoch] == s.rate
    decreases rates.Keys
  {
    if rates != map[] {
      var k := MaxKey(rates.Keys);
      InEpochOrderIsIncreasing(rates - {k});
      var l := InEpochOrder(rates - {k});
      forall i | 0 <= i < |l| ensures l[i].epoch < k {
        assert l[i] in l;
      }
    }
  }

  /** A list with one slash per epoch is recovered from its epoch-to-rate map. */
  lemma {:induction false} ListRecovered(slashes: seq<Slash>)
    requires Increasing(slashes)
    ensures InEpochOrder(RatesByEpoch(slashes)) == slashes
  {
    if slashes != [] {
      var n := |slashes| - 1;
      ListRecovered(slashes[..n]);
      RatesBelow(slashes[..n], slashes[n].epoch);
      StepOrder(RatesByEpoch(slashes[..n]), slashes[n].epoch, slashes[n].rate);
      assert slashes == slashes[..n] + [slashes[n]];
    }
  }

  lemma {:induction false} RatesBelow(slashes: seq<Slash>, bound: Epoch)
    requires forall i | 0 <= i < |slashes| :: slashes[i].epoch < bound
    ensures forall k | k in RatesByEpoch(slashes) :: k < bound
  {
    if slashes != [] {
      RatesBelow(slashes[..|slashes| - 1], bound);
    }
  }

  /** The amounts computed so far are those of `apply_list_slashes` on the slashes done. */
  ghost predicate Tracks(p: Params, amount: Amount, done: seq<Slash>, all: seq<SlashedAmount>) {
    && |all| == |done|
    && (forall i | 0 <= i < |all| :: all[i].epoch == done[i].epoch)
    && AsMap(all) == Computed(p, done, amount)
  }

  lemma TracksStep(p: Params, amount: Amount, done: seq<Slash>, all: seq<SlashedAmount>, taken: nat, slash: Slash,
                   slashed: Amount)
    requires Ascending(all) && Tracks(p, amount, done, all) && CutAt(p, all, taken, slash.epoch)
    requires slashed == MulCeil(Monus(amount, TotalSlashed(all[..taken])), slash.rate)
    ensures Tracks(p, amount, done + [slash], all + [SlashedAmount(slash.epoch, slashed)])
  {
    hide MulCeil;
    ProcessedPrefix(p, all, taken, slash.epoch);
    assert slashed == SlashableAmount(p, slash, amount, AsMap(all));
    assert (done + [slash])[..|done|] == done;
    assert (all + [SlashedAmount(slash.epoch, slashed)])[..|all|] == all;
  }

  /** The loop state of `get_slashed_amount` after the slashes in `done`: of all the amounts
      computed so far, the first `taken` are off the running amount and the rest are in the vector. */
  ghost predicate Running(p: Params, amount: Amount, done: seq<Slash>, all: seq<SlashedAmount>, taken: nat,
                          updated: Amount, computed: seq<SlashedAmount>) {
    && Tracks(p, amount, done, all)
    && taken <= |all|
    && computed == all[taken..]
    && updated == Monus(amount, TotalSlashed(all[..taken]))
    && forall t | 0 <= t < taken :: IsProcessed(p, all[t], done[|done| - 1].epoch)
  }

  lemma RunningCanStep(p: Params, amount: Amount, done: seq<Slash>, all: seq<SlashedAmount>, taken: nat,
                       updated: Amount, computed: seq<SlashedAmount>, slash: Slash)
    requires Running(p, amount, done, all, taken, updated, computed) && Increasing(done + [slash])
    ensures Ascending(all) && Ascending(computed)
    ensures forall t | 0 <= t < taken :: IsProcessed(p, all[t], slash.epoch)
  {
    var l := done + [slash];
    forall i, j | 0 <= i < j < |all| ensures all[i].epoch < all[j].epoch {
      assert l[i].epoch < l[j].epoch;
    }
    assert done != [] ==> l[|done| - 1].epoch < l[|done|].epoch;
  }

  lemma RunningPush(p: Params, amount: Amount, done: seq<Slash>, all: seq<SlashedAmount>, taken: nat, slash: Slash,
                    updated: Amount, slashed: Amount)
    requires Ascending(all) && Tracks(p, amount, done, all) && CutAt(p, all, taken, slash.epoch)
    requires updated == Monus(amount, TotalSlashed(all[..taken])) && slashed == MulCeil(updated, slash.rate)
    ensures var x := SlashedAmount(slash.epoch, slashed);
            Running(p, amount, done + [slash], all + [x], taken, updated, all[taken..] + [x])
  {
    hide MulCeil;
    TracksStep(p, amount, done, all, taken, slash, slashed);
    var x := SlashedAmount(slash.epoch, slashed);
    SplitPush(all, taken, x);
  }

  /** One iteration of `get_slashed_amount`. */
  method SlashOnce(p: Params, slash: Slash, updated: Amount, computed: seq<SlashedAmount>,
                   ghost amount: Amount, ghost done: seq<Slash>, ghost all: seq<SlashedAmount>, ghost taken: nat)
    returns (updated': Amount, computed': seq<SlashedAmount>, ghost all': seq<SlashedAmount>, ghost taken': nat)
    requires Running(p, amount, done, all, taken, updated, computed) && Increasing(done + [slash])
    ensures Running(p, amount, done + [slash], all', taken', updated', computed')
  {
    RunningCanStep(p, amount, done, all, taken, updated, computed, slash);
    var marked;
    ghost var j;
    updated', marked, j := MarkProcessed(p, slash.epoch, updated, computed);
    computed' := RemoveMarked(computed, marked, j);
    StepCut(p, all, taken, j, slash.epoch);
    taken' := taken + j;
    var slashed := MulCeil(updated', slash.rate);
    computed' := computed' + [SlashedAmount(slash.epoch, slashed)];
    all' := all + [SlashedAmount(slash.epoch, slashed)];
    RunningPush(p, amount, done, all, taken', slash, updated', slashed);
  }

  /** `get_slashed_amount`: it keeps the amounts whose slashes are still unprocessed in a vector
      and takes them off when they become processed. On every epoch-to-rate map the result is what
      `apply_list_slashes` leaves for the same slashes in epoch order. */
  method GetSlashedAmount(p: Params, amount: Amount, rates: map<Epoch, nat>) returns (final: Amount)
    ensures final == AfterSlashes(p, InEpochOrder(rates), amount)
  {
    var slashes := InEpochOrder(rates);
    InEpochOrderIsIncreasing(rates);
    var updated: Amount := amount;
    var computed: seq<SlashedAmount> := [];
    ghost var all: seq<SlashedAmount>, taken: nat := [], 0;
    for i := 0 to |slashes|
      invariant Running(p, amount, slashes[..i], all, taken, updated, computed)
    {
      PrefixNext(slashes, i);
      updated, computed, all, taken := SlashOnce(p, slashes[i], updated, computed, amount, slashes[..i], all, taken);
    }
    assert slashes[..|slashes|] == slashes;
    ResidualOfTracked(p, amount, slashes, all, taken);
    final := Monus(updated, TotalSlashed(computed));
  }

  lemma ResidualOfTracked(p: Params, amount: Amount, slashes: seq<Slash>, all: seq<SlashedAmount>, taken: nat)
    requires Increasing(slashes) && Tracks(p, amount, slashes, all) && taken <= |all|
    ensures AfterSlashes(p, slashes, amount)
         == Monus(Monus(amount, TotalSlashed(all[..taken])), TotalSlashed(all[taken..]))
  {
    AfterSlashesResidual(p, slashes, amount);
    SlashedIsSum(all);
    SlashedSplit(all, taken);
  }

  lemma StepCut(p: Params, all: seq<SlashedAmount>, taken: nat, j: nat, k: Epoch)
    requires taken <= |all| && CutAt(p, all[taken..], j, k)
    requires forall i | 0 <= i < taken :: IsProcessed(p, all[i], k)
    ensures CutAt(p, all, taken + j, k)
    ensures all[taken..][j..] == all[taken + j..]
    ensures TotalSlashed(all[..taken + j]) == TotalSlashed(all[..taken]) + TotalSlashed(all[taken..][..j])
  {
    forall i | taken <= i < |all| ensures IsProcessed(p, all[i], k) <==> i < taken + j {
      assert all[i] == all[taken..][i - taken];
    }
    SlashedSplit(all[..taken + j], taken);
    assert all[..taken + j][..taken] == all[..taken];
    assert all[..taken + j][taken..] == all[taken..][..j];
  }

  lemma StepOrder(done: map<Epoch, nat>, k: Epoch, rate: nat)
    requires forall d | d in done :: d < k
    ensures InEpochOrder(done[k := rate]) == InEpochOrder(done) + [Slash(k, rate)]
  {
    var m := done[k := rate];
    assert k in m.Keys;
    assert m - {k} == done;
  }

  /** The two slashing algorithms agree on every list with one slash per epoch. */
  method SlashBothWays(p: Params, slashes: seq<Slash>, amount: Amount) returns (byList: Amount, byMap: Amount)
    requires Increasing(slashes)
    ensures byList == byMap <= amount
  {
    byList := ApplyListSlashes(p, slashes, amount);
    byMap := GetSlashedAmount(p, amount, RatesByEpoch(slashes));
    ListRecovered(slashes);
  }
}
