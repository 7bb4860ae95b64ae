/** Changes recorded per epoch, read as running sums, with a trimmed history. */
module EpochedDelta {
  import opened Types
  import opened FiniteSums
  import E = Epoched

  // ---- Running sums ----

  ghost function Below(m: map<Epoch, int>, from: Epoch, end: Epoch): map<Epoch, int> {
    map k | k in m && from <= k < end :: m[k]
  }

  /** The sum of the deltas at the epochs `from`, ..., `end - 1`. */
  ghost function SumBetween(m: map<Epoch, int>, from: Epoch, end: Epoch): int {
    Sum<Epoch>(Below(m, from, end))
  }

  /** The sum of all the deltas up to and including `e`. */
  ghost function SumUpTo(m: map<Epoch, int>, e: Epoch): int {
    SumBetween(m, 0, e + 1)
  }

  lemma SumNext(m: map<Epoch, int>, from: Epoch, end: Epoch)
    requires from <= end
    ensures SumBetween(m, from, end + 1) == SumBetween(m, from, end) + GetInt(m, end)
  {
    var wide := Below(m, from, end + 1);
    SumWithout<Epoch>(wide, end);
    assert wide - {end} == Below(m, from, end);
  }

  lemma {:induction false} SumSplit(m: map<Epoch, int>, from: Epoch, mid: Epoch, end: Epoch)
    requires from <= mid <= end
    ensures SumBetween(m, from, end) == SumBetween(m, from, mid) + SumBetween(m, mid, end)
    decreases end - mid
  {
    if mid == end {
      assert Below(m, mid, end) == map[];
    } else {
      SumSplit(m, from, mid, end - 1);
      SumNext(m, from, end - 1);
      SumNext(m, mid, end - 1);
    }
  }

  lemma SumAfterUpdate(m: map<Epoch, int>, k: Epoch, v: int, e: Epoch)
    ensures SumUpTo(m[k := v], e) == SumUpTo(m, e) + if k <= e then v - GetInt(m, k) else 0
  {
    var part := Below(m, 0, e + 1);
    if k <= e {
      SumUpdate<Epoch>(part, k, v);
      assert Below(m[k := v], 0, e + 1) == part[k := v];
    } else {
      assert Below(m[k := v], 0, e + 1) == part;
    }
  }

  // ---- The stored structure ----

  datatype Deltas = Deltas(data: map<Epoch, int>, lastUpdate: Option<Epoch>, oldest: Option<Epoch>)

  const EMPTY := Deltas(map[], None, None)

  /** Move the deltas before the new oldest epoch into it. */
  ghost function Fold(data: map<Epoch, int>, from: Epoch, keep: Epoch): map<Epoch, int> {
    var kept := data - E.Between(data, from, keep);
    kept[keep := GetInt(data, keep) + SumBetween(data, from, keep)]
  }

  /** `update_data` */
  ghost function Trim(d: Deltas, past: nat, current: Epoch): Deltas {
    var keep := Monus(current, past);
    if d.lastUpdate.Some? && d.oldest.Some? && d.oldest.value < keep then
      if E.Between(d.data, d.oldest.value, keep) == {} then d.(lastUpdate := Some(current))
      else Deltas(Fold(d.data, d.oldest.value, keep), Some(current), Some(keep))
    else
      Deltas(d.data, Some(current), if d.oldest.None? then Some(current) else d.oldest)
  }

  /** `set` */
  ghost function Set(d: Deltas, past: nat, value: int, current: Epoch, offset: nat): Deltas {
    var t := Trim(d, past, current);
    t.(data := t.data[current + offset := value])
  }

  /** `add`: the delta already there is read after trimming. */
  ghost function Add(d: Deltas, past: nat, value: int, current: Epoch, offset: nat): Deltas {
    Set(d, past, GetInt(Trim(d, past, current).data, current + offset) + value, current, offset)
  }

  /** The sum over a range of epochs, or nothing if none of them holds a delta. */
  function RangeSum(data: map<Epoch, int>, from: Epoch, end: Epoch): Option<int> {
    if end <= from then None
    else
      var sum := RangeSum(data, from, end - 1);
      if end - 1 !in data then sum
      else if sum.Some? then Some(sum.value + data[end - 1]) else Some(data[end - 1])
  }

  /** `get_sum` */
  function ReadSum(d: Deltas, future: nat, past: nat, epoch: Epoch): Option<int> {
    if d.lastUpdate.None? then None
    else RangeSum(d.data, Monus(d.lastUpdate.value, past), Min(epoch, d.lastUpdate.value + future) + 1)
  }

  /** `unwrap_or_default` on a sum */
  function OrZero(sum: Option<int>): int {
    if sum.Some? then sum.value else 0
  }

  // ---- Trimming moves deltas forward only up to the oldest epoch that is kept ----

  ghost predicate Kept(d: Deltas, past: nat) {
    && (d.lastUpdate.Some? <==> d.oldest.Some?)
    && (d.oldest.None? ==> d.data == map[])
    && (d.oldest.Some? ==> forall k | k in d.data :: d.oldest.value <= k && Monus(d.lastUpdate.value, past) <= k)
  }

  lemma FoldSum(data: map<Epoch, int>, from: Epoch, keep: Epoch, e: Epoch)
    requires from < keep <= e && forall k | k in data :: from <= k
    ensures SumUpTo(Fold(data, from, keep), e) == SumUpTo(data, e)
  {
    hide SumBetween;
    var folded := Fold(data, from, keep);
    SumSplit(data, 0, keep, e + 1);
    SumSplit(folded, 0, keep, e + 1);
    FoldHead(data, from, keep);
    FoldTail(data, from, keep, e + 1);
  }

  lemma FoldHead(data: map<Epoch, int>, from: Epoch, keep: Epoch)
    requires from < keep && forall k | k in data :: from <= k
    ensures SumBetween(Fold(data, from, keep), 0, keep) == 0
    ensures SumBetween(data, 0, keep) == SumBetween(data, from, keep)
  {
    assert Below(Fold(data, from, keep), 0, keep) == map[];
    assert Below(data, 0, keep) == Below(data, from, keep);
  }

  lemma FoldTail(data: map<Epoch, int>, from: Epoch, keep: Epoch, end: Epoch)
    requires from < keep < end
    ensures SumBetween(Fold(data, from, keep), keep, end) == SumBetween(data, keep, end) + SumBetween(data, from, keep)
  {
    var tail := Below(data, keep, end);
    var sum := GetInt(data, keep) + SumBetween(data, from, keep);
    assert Below(Fold(data, from, keep), keep, end) == tail[keep := sum];
    SumUpdate<Epoch>(tail, keep, sum);
  }

  /** Trimming keeps the running sum at every epoch from the new oldest one on. */
  lemma TrimKeepsSums(d: Deltas, past: nat, current: Epoch, e: Epoch)
    requires Kept(d, past)
    requires Monus(current, past) <= e || (d.oldest.Some? && Trim(d, past, current).oldest.value <= e)
    ensures SumUpTo(Trim(d, past, current).data, e) == SumUpTo(d.data, e)
  {
    hide SumUpTo, Fold;
    var keep := Monus(current, past);
    if d.oldest.Some? && d.oldest.value < keep && E.Between(d.data, d.oldest.value, keep) != {} {
      FoldSum(d.data, d.oldest.value, keep, e);
    }
  }

  lemma TrimKept(d: Deltas, past: nat, current: Epoch)
    requires Kept(d, past)
    ensures Kept(Trim(d, past, current), past)
    ensures Trim(d, past, current).lastUpdate == Some(current) && Trim(d, past, current).oldest.Some?
    ensures d.oldest.Some? ==> d.oldest.value <= Trim(d, past, current).oldest.value
    ensures d.oldest.Some? ==> Trim(d, past, current).oldest.value <= Max(d.oldest.value, Monus(current, past))
    ensures d.oldest.None? ==> Trim(d, past, current).oldest.value == current
    ensures forall k | k in Trim(d, past, current).data :: k in d.data || k <= current
  {
    hide SumBetween;
    var keep := Monus(current, past);
    if d.oldest.Some? && d.oldest.value < keep && E.Between(d.data, d.oldest.value, keep) == {} {
      forall k | k in d.data ensures keep <= k {
        assert k !in E.Between(d.data, d.oldest.value, keep);
      }
    }
  }

  // ---- Reads ----

  lemma {:induction false} RangeIsSum(data: map<Epoch, int>, from: Epoch, end: Epoch)
    ensures OrZero(RangeSum(data, from, end)) == SumBetween(data, from, end)
    ensures RangeSum(data, from, end).None? <==> forall k | k in data :: !(from <= k < end)
    decreases end
  {
    if end <= from {
      assert Below(data, from, end) == map[];
    } else {
      RangeIsSum(data, from, end - 1);
      SumNext(data, from, end - 1);
    }
  }

  /** A read is the running sum up to the epoch, or up to the end of the write window. */
  lemma ReadIsSum(d: Deltas, future: nat, past: nat, e: Epoch)
    requires Kept(d, past) && d.lastUpdate.Some?
    ensures OrZero(ReadSum(d, future, past, e)) == SumUpTo(d.data, Min(e, d.lastUpdate.value + future))
    ensures ReadSum(d, future, past, e).None? <==> forall k | k in d.data :: k > Min(e, d.lastUpdate.value + future)
  {
    hide SumBetween;
    var from, end := Monus(d.lastUpdate.value, past), Min(e, d.lastUpdate.value + future) + 1;
    RangeIsSum(d.data, from, end);
    SkipBelow(d.data, from, end);
  }

  lemma SkipBelow(data: map<Epoch, int>, from: Epoch, end: Epoch)
    requires forall k | k in data :: from <= k
    ensures SumBetween(data, 0, end) == SumBetween(data, from, end)
  {
    assert Below(data, 0, end) == Below(data, from, end);
  }

  /** Past the last delta the running sum stays the same. */
  lemma SumSettles(data: map<Epoch, int>, last: Epoch, e: Epoch)
    requires last <= e && forall k | k in data :: k <= last
    ensures SumUpTo(data, e) == SumUpTo(data, last)
  {
    assert Below(data, 0, e + 1) == Below(data, 0, last + 1);
  }

  // ---- Runs of additions ----

  datatype Addition = Addition(value: int, current: Epoch, offset: nat)

  ghost function Run(past: nat, adds: seq<Addition>): Deltas {
    if adds == [] then EMPTY
    else
      var a := adds[|adds| - 1];
      Add(Run(past, adds[..|adds| - 1]), past, a.value, a.current, a.offset)
  }

  /** The sum of every delta ever added at an epoch up to `e`. */
  function Added(adds: seq<Addition>, e: Epoch): int {
    if adds == [] then 0
    else
      var a := adds[|adds| - 1];
      Added(adds[..|adds| - 1], e) + if a.current + a.offset <= e then a.value else 0
  }

  /** Offsets stay within the window, and nothing is added before the oldest epoch that is kept. */
  ghost predicate Allowed(future: nat, past: nat, adds: seq<Addition>) {
    adds == [] ||
    (var before, a := adds[..|adds| - 1], adds[|adds| - 1];
     && Allowed(future, past, before)
     && a.offset <= future
     && (Run(past, before).oldest.Some? ==> Run(past, before).oldest.value <= a.current + a.offset))
  }

  /** Offsets stay within the window and the current epoch never goes back. */
  ghost predicate Forward(future: nat, adds: seq<Addition>) {
    && (forall i | 0 <= i < |adds| :: adds[i].offset <= future)
    && (forall i, j | 0 <= i < j < |adds| :: adds[i].current <= adds[j].current)
  }

  /** One addition: the structure stays readable and its running sums grow by the value from that epoch on. */
  lemma AddStep(d: Deltas, past: nat, a: Addition)
    requires Kept(d, past)
    requires d.oldest.Some? ==> d.oldest.value <= a.current + a.offset
    ensures var after := Add(d, past, a.value, a.current, a.offset);
            && Kept(after, past)
            && after.lastUpdate == Some(a.current)
            && after.oldest == Trim(d, past, a.current).oldest
            && after.data.Keys == Trim(d, past, a.current).data.Keys + {a.current + a.offset}
  {
    hide Trim;
    TrimKept(d, past, a.current);
  }

  lemma AddSum(d: Deltas, past: nat, a: Addition, e: Epoch)
    requires Kept(d, past)
    requires Monus(a.current, past) <= e || (d.oldest.Some? && Trim(d, past, a.current).oldest.value <= e)
    ensures SumUpTo(Add(d, past, a.value, a.current, a.offset).data, e) ==
            SumUpTo(d.data, e) + if a.current + a.offset <= e then a.value else 0
  {
    hide Trim, SumUpTo, Kept;
    TrimKeepsSums(d, past, a.current, e);
    var t := Trim(d, past, a.current);
    var k := a.current + a.offset;
    SumAfterUpdate(t.data, k, GetInt(t.data, k) + a.value, e);
  }

  lemma {:induction false} RunKept(future: nat, past: nat, adds: seq<Addition>)
    requires Allowed(future, past, adds)
    ensures Kept(Run(past, adds), past)
    ensures adds != [] ==> Run(past, adds).lastUpdate == Some(adds[|adds| - 1].current)
    ensures adds != [] ==> Run(past, adds).oldest.Some?
    ensures adds != [] ==> Run(past, adds).oldest.value <= adds[|adds| - 1].current + future
    decreases |adds|
  {
    if adds != [] {
      hide Trim, Add;
      var before, a := adds[..|adds| - 1], adds[|adds| - 1];
      RunKept(future, past, before);
      AddStep(Run(past, before), past, a);
      TrimKept(Run(past, before), past, a.current);
    }
  }

  lemma {:induction false} RunSums(future: nat, past: nat, adds: seq<Addition>, e: Epoch)
    requires Allowed(future, past, adds)
    requires adds != [] ==> Run(past, adds).oldest.Some? && Run(past, adds).oldest.value <= e
    ensures SumUpTo(Run(past, adds).data, e) == Added(adds, e)
    decreases |adds|
  {
    hide SumUpTo, Trim;
    if adds == [] {
      EmptySum(e);
    } else {
      var before, a := adds[..|adds| - 1], adds[|adds| - 1];
      var d := Run(past, before);
      RunKept(future, past, before);
      TrimKept(d, past, a.current);
      if before == [] {
        FirstSum(past, a, e);
        assert Added(before, e) == 0;
      } else {
        RunSums(future, past, before, e);
        AddSum(d, past, a, e);
      }
    }
  }

  lemma EmptySum(e: Epoch)
    ensures SumUpTo(map[], e) == 0
  {
    assert Below(map[], 0, e + 1) == map[];
  }

  lemma FirstSum(past: nat, a: Addition, e: Epoch)
    ensures SumUpTo(Add(EMPTY, past, a.value, a.current, a.offset).data, e) ==
            if a.current + a.offset <= e then a.value else 0
  {
    hide SumUpTo;
    EmptySum(e);
    SumAfterUpdate(map[], a.current + a.offset, a.value, e);
  }

  /** From the oldest kept epoch on, a read is the sum of everything ever added up to it (epochs past the write window
      read as its last epoch). */
  lemma TrimmingIsInvisible(future: nat, past: nat, adds: seq<Addition>, e: Epoch)
    requires Allowed(future, past, adds) && adds != []
    requires Run(past, adds).oldest.Some? && Run(past, adds).oldest.value <= e
    ensures OrZero(ReadSum(Run(past, adds), future, past, e)) ==
            Added(adds, Min(e, adds[|adds| - 1].current + future))
  {
    hide Run, SumUpTo, Kept, ReadSum, Added, Allowed;
    RunKept(future, past, adds);
    ReadIsSum(Run(past, adds), future, past, e);
    RunSums(future, past, adds, Min(e, adds[|adds| - 1].current + future));
  }

  lemma {:induction false} ForwardAllowed(future: nat, past: nat, adds: seq<Addition>)
    requires Forward(future, adds)
    ensures Allowed(future, past, adds)
    ensures adds != [] ==> Run(past, adds).oldest.Some?
    ensures adds != [] ==> Run(past, adds).oldest.value <= Max(adds[0].current, Monus(adds[|adds| - 1].current, past))
    decreases |adds|
  {
    if adds != [] {
      hide Trim;
      var before, a := adds[..|adds| - 1], adds[|adds| - 1];
      assert before != [] ==> before[0] == adds[0] && before[|before| - 1] == adds[|adds| - 2];
      ForwardAllowed(future, past, before);
      RunKept(future, past, before);
      TrimKept(Run(past, before), past, a.current);
      assert before != [] ==> adds[0].current <= a.current;
    }
  }

  lemma {:induction false} AddedSettles(adds: seq<Addition>, last: Epoch, e: Epoch)
    requires last <= e && forall i | 0 <= i < |adds| :: adds[i].current + adds[i].offset <= last
    ensures Added(adds, e) == Added(adds, last)
    decreases |adds|
  {
    if adds != [] {
      AddedSettles(adds[..|adds| - 1], last, e);
    }
  }

  /** With epochs that never go back, every read at or after the oldest kept epoch is the sum of all deltas ever added up
      to it; every epoch at most `past` behind the last update, and not before the first, is kept. */
  lemma ForwardReads(future: nat, past: nat, adds: seq<Addition>, e: Epoch)
    requires Forward(future, adds) && adds != []
    ensures var o := Run(past, adds).oldest;
            && o.Some?
            && o.value <= Max(adds[0].current, Monus(adds[|adds| - 1].current, past))
            && (o.value <= e ==> OrZero(ReadSum(Run(past, adds), future, past, e)) == Added(adds, e))
  {
    hide Run, ReadSum, Added, Allowed;
    ForwardAllowed(future, past, adds);
    var end := adds[|adds| - 1].current + future;
    if Run(past, adds).oldest.value <= e {
      TrimmingIsInvisible(future, past, adds, e);
      if end < e {
        AddedSettles(adds, end, e);
      }
    }
  }

  // ---- The storage handle ----

  class Store {
    const future: nat
    const past: nat
    var data: map<Epoch, int>
    var lastUpdate: Option<Epoch>
    var oldest: Option<Epoch>

    constructor (future: nat, past: nat)
      ensures this.future == future && this.past == past
      ensures Value() == EMPTY
    {
      this.future, this.past := future, past;
      data, lastUpdate, oldest := map[], None, None;
    }

    ghost function Value(): Deltas
      reads this
    {
      Deltas(data, lastUpdate, oldest)
    }

    method GetSum(epoch: Epoch) returns (sum: Option<int>)
      ensures sum == ReadSum(Value(), future, past, epoch)
    {
      sum := None;
      if lastUpdate.None? {
        return;
      }
      var from: Epoch := Monus(lastUpdate.value, past);
      var end: Epoch := Min(epoch, lastUpdate.value + future) + 1;
      if from < end {
        for e := from to end
          invariant sum == RangeSum(data, from, e)
        {
          if e in data {
            sum := if sum.Some? then Some(sum.value + data[e]) else Some(data[e]);
          }
        }
      }
    }

    method AddDelta(value: int, current: Epoch, offset: nat)
      modifies this
      ensures Value() == Add(old(Value()), past, value, current, offset)
    {
      UpdateData(current);
      data := data[current + offset := GetInt(data, current + offset) + value];
    }

    method SetDelta(value: int, current: Epoch, offset: nat)
      modifies this
      ensures Value() == Set(old(Value()), past, value, current, offset)
    {
      UpdateData(current);
      data := data[current + offset := value];
    }

    method UpdateData(current: Epoch)
      modifies this
      ensures Value() == Trim(old(Value()), past, current)
    {
      if lastUpdate.Some? && oldest.Some? {
        var keep := Monus(current, past);
        if oldest.value < keep {
          var sum := RemoveBefore(oldest.value, keep);
          if sum.Some? {
            data := data[keep := GetInt(data, keep) + sum.value];
            oldest := Some(keep);
          }
          lastUpdate := Some(current);
          return;
        }
      }
      lastUpdate := Some(current);
      if oldest.None? {
        oldest := Some(current);
      }
    }

    /** Remove the entries of the trimmed epochs in order, adding them up. */
    method RemoveBefore(from: Epoch, keep: Epoch) returns (sum: Option<int>)
      requires from <= keep
      modifies this`data
      ensures data == old(data) - E.Between(old(data), from, keep)
      ensures sum.None? <==> E.Between(old(data), from, keep) == {}
      ensures OrZero(sum) == SumBetween(old(data), from, keep)
    {
      sum := None;
      EmptyRange(data, from);
      for e := from to keep
        invariant data == old(data) - E.Between(old(data), from, e)
        invariant sum.None? <==> E.Between(old(data), from, e) == {}
        invariant OrZero(sum) == SumBetween(old(data), from, e)
      {
        RemoveNext(data, old(data), from, e);
        if e in data {
          sum := if sum.Some? then Some(sum.value + data[e]) else Some(data[e]);
        }
        data := data - {e};
      }
    }
  }

  lemma EmptyRange(data: map<Epoch, int>, from: Epoch)
    ensures SumBetween(data, from, from) == 0
    ensures E.Between(data, from, from) == {}
  {
    assert Below(data, from, from) == map[];
  }

  lemma RemoveNext(now: map<Epoch, int>, data: map<Epoch, int>, from: Epoch, e: Epoch)
    requires from <= e && now == data - E.Between(data, from, e)
    ensures e in now <==> e in data
    ensures e in now ==> now[e] == data[e] && E.Between(data, from, e + 1) != {}
    ensures e !in now ==> E.Between(data, from, e + 1) == E.Between(data, from, e)
    ensures now - {e} == data - E.Between(data, from, e + 1)
    ensures SumBetween(data, from, e + 1) == SumBetween(data, from, e) + GetInt(data, e)
  {
    SumNext(data, from, e);
    if e in data {
      assert e in E.Between(data, from, e + 1);
    }
  }
}
