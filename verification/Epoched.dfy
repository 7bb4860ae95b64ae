/** Data set for future epochs with a trimmed history. `past` epochs are kept behind the last update;
    `future` bounds the offsets at which values are written. */
module Epoched {
  import opened Types
  import opened FiniteSums

  // ---- The value at or before an epoch ----

  ghost function UpTo<T>(m: map<Epoch, T>, e: Epoch): set<Epoch> {
    set k | k in m && k <= e
  }

  /** The value at the greatest written epoch not above `e`. */
  ghost function LatestAt<T>(m: map<Epoch, T>, e: Epoch): Option<T> {
    if UpTo(m, e) == {} then None else Some(m[MaxKey(UpTo(m, e))])
  }

  lemma LatestIs<T>(m: map<Epoch, T>, e: Epoch, k: Epoch)
    requires k in m && k <= e && forall j | j in m && j <= e :: j <= k
    ensures LatestAt(m, e) == Some(m[k])
  {
    assert k in UpTo(m, e);
  }

  lemma LatestIsNone<T>(m: map<Epoch, T>, e: Epoch)
    requires forall j | j in m :: e < j
    ensures LatestAt(m, e) == None
  {
  }

  /** Maps with the same entries above `o`, and the same latest value at `o`, agree from `o` on. */
  lemma LatestAgrees<T>(a: map<Epoch, T>, b: map<Epoch, T>, o: Epoch, e: Epoch)
    requires o <= e && LatestAt(a, o) == LatestAt(b, o)
    requires forall k | k > o :: (k in a <==> k in b) && (k in a ==> a[k] == b[k])
    ensures LatestAt(a, e) == LatestAt(b, e)
  {
    if k :| k in UpTo(a, e) && k > o {
      var top := MaxKey(UpTo(a, e));
      forall j | j in b && j <= e ensures j <= top {
        assert j > o ==> j in UpTo(a, e);
      }
      LatestIs(b, e, top);
    } else {
      forall j | j in a && j > o ensures j > e {
        assert j <= e ==> j in UpTo(a, e);
      }
      NoneAbove(a, o, e);
      forall j | j in b && j > o ensures j > e {
        assert j <= e ==> j in UpTo(a, e);
      }
      NoneAbove(b, o, e);
    }
  }

  lemma NoneAbove<T>(m: map<Epoch, T>, o: Epoch, e: Epoch)
    requires o <= e && forall k | k in m && k > o :: k > e
    ensures LatestAt(m, e) == LatestAt(m, o)
  {
    assert UpTo(m, e) == UpTo(m, o);
  }

  // ---- The stored structure ----

  datatype Discrete<T> = Discrete(data: map<Epoch, T>, lastUpdate: Option<Epoch>, oldest: Option<Epoch>)

  function Between<T>(data: map<Epoch, T>, from: Epoch, keep: Epoch): set<Epoch> {
    set k | k in data && from <= k < keep
  }

  function Last<T>(data: map<Epoch, T>, from: Epoch, keep: Epoch): Option<T> {
    var dropped := Between(data, from, keep);
    if dropped == {} then None else Some(data[MaxKey(dropped)])
  }

  /** Drop everything before the new oldest epoch; its latest value moves there unless that epoch has its own. */
  function DropBefore<T>(data: map<Epoch, T>, from: Epoch, keep: Epoch): map<Epoch, T> {
    var kept, last := data - Between(data, from, keep), Last(data, from, keep);
    if last.Some? && keep !in kept then kept[keep := last.value] else kept
  }

  /** `update_data` */
  function Trim<T>(d: Discrete<T>, past: nat, current: Epoch): Discrete<T> {
    if d.lastUpdate.Some? && d.oldest.Some? && d.oldest.value < Monus(current, past) then
      var keep := Monus(current, past);
      Discrete(DropBefore(d.data, d.oldest.value, keep), Some(current),
               if Between(d.data, d.oldest.value, keep) != {} then Some(keep) else d.oldest)
    else
      Discrete(d.data, Some(current), if d.oldest.None? then Some(current) else d.oldest)
  }

  /** `set` */
  function Set<T>(d: Discrete<T>, past: nat, value: T, current: Epoch, offset: nat): Discrete<T> {
    var t := Trim(d, past, current);
    t.(data := t.data[current + offset := value])
  }

  /** `get`: walk down from the epoch, but not below the oldest epoch that is kept. */
  function ValueAt<T>(d: Discrete<T>, future: nat, past: nat, epoch: Epoch): Option<T> {
    if d.lastUpdate.None? then None
    else WalkDown(d.data, Monus(d.lastUpdate.value, past), Min(epoch, d.lastUpdate.value + future))
  }

  function WalkDown<T>(data: map<Epoch, T>, low: Epoch, e: Epoch): Option<T> {
    if e in data then Some(data[e]) else if e > 0 && e > low then WalkDown(data, low, e - 1) else None
  }

  // ---- Runs ----

  datatype Write<T> = Write(value: T, current: Epoch, offset: nat)

  ghost function Run<T>(past: nat, writes: seq<Write<T>>): Discrete<T> {
    if writes == [] then Discrete(map[], None, None)
    else
      var w := writes[|writes| - 1];
      Set(Run(past, writes[..|writes| - 1]), past, w.value, w.current, w.offset)
  }

  /** Every value ever written. */
  function History<T>(writes: seq<Write<T>>): map<Epoch, T> {
    if writes == [] then map[]
    else
      var w := writes[|writes| - 1];
      History(writes[..|writes| - 1])[w.current + w.offset := w.value]
  }

  /** Offsets stay within the window, and nothing is written before the oldest epoch that is kept. */
  ghost predicate Allowed<T>(future: nat, past: nat, writes: seq<Write<T>>) {
    writes == [] ||
    (var before, w := writes[..|writes| - 1], writes[|writes| - 1];
     && Allowed(future, past, before)
     && w.offset <= future
     && (Run(past, before).oldest.Some? ==> Run(past, before).oldest.value <= w.current + w.offset))
  }

  /** Offsets stay within the window and the current epoch never goes back. */
  ghost predicate Forward<T>(future: nat, writes: seq<Write<T>>) {
    && (forall i | 0 <= i < |writes| :: writes[i].offset <= future)
    && (forall i, j | 0 <= i < j < |writes| :: writes[i].current <= writes[j].current)
  }

  // ---- Trimming is invisible ----

  /** The stored data is the history from the oldest epoch on, with everything earlier folded into it. */
  ghost predicate Agrees<T>(d: Discrete<T>, past: nat, history: map<Epoch, T>) {
    && (d.lastUpdate.Some? <==> d.oldest.Some?)
    && (d.oldest.None? ==> d.data == map[] && history == map[])
    && (d.oldest.Some? ==>
          && (forall k | k in d.data :: d.oldest.value <= k && Monus(d.lastUpdate.value, past) <= k)
          && LatestAt(d.data, d.oldest.value) == LatestAt(history, d.oldest.value)
          && (forall k | k > d.oldest.value :: (k in d.data <==> k in history) && (k in d.data ==> d.data[k] == history[k])))
  }

  lemma DropBeforeAt<T>(data: map<Epoch, T>, from: Epoch, keep: Epoch, k: Epoch)
    requires from < keep
    ensures k > keep || k < from ==> (k in DropBefore(data, from, keep) <==> k in data)
    ensures k > keep && k in data ==> DropBefore(data, from, keep)[k] == data[k]
    ensures from <= k < keep ==> k !in DropBefore(data, from, keep)
  {
  }

  lemma DropBeforeLatest<T>(data: map<Epoch, T>, from: Epoch, keep: Epoch)
    requires from < keep && forall k | k in data :: from <= k
    ensures LatestAt(DropBefore(data, from, keep), keep) == LatestAt(data, keep)
  {
    var dropped := Between(data, from, keep);
    var after := DropBefore(data, from, keep);
    if keep in data {
      LatestIs(data, keep, keep);
      LatestIs(after, keep, keep);
    } else if dropped != {} {
      forall j | j in data && j <= keep ensures j <= MaxKey(dropped) {
        assert j in dropped;
      }
      LatestIs(data, keep, MaxKey(dropped));
      LatestIs(after, keep, keep);
    } else {
      assert after == data;
    }
  }

  lemma TrimAgrees<T>(d: Discrete<T>, past: nat, history: map<Epoch, T>, current: Epoch)
    requires Agrees(d, past, history)
    ensures Agrees(Trim(d, past, current), past, history)
    ensures Trim(d, past, current).oldest.Some?
    ensures d.oldest.Some? ==> d.oldest.value <= Trim(d, past, current).oldest.value <= Max(d.oldest.value, current)
    ensures d.oldest.None? ==> Trim(d, past, current).oldest.value == current
  {
    hide DropBefore;
    var keep := Monus(current, past);
    if d.oldest.Some? && d.oldest.value < keep {
      var from := d.oldest.value;
      forall k: Epoch
        ensures k > keep || k < from ==> (k in DropBefore(d.data, from, keep) <==> k in d.data)
        ensures k > keep && k in d.data ==> DropBefore(d.data, from, keep)[k] == d.data[k]
        ensures from <= k < keep ==> k !in DropBefore(d.data, from, keep)
      {
        DropBeforeAt(d.data, from, keep, k);
      }
      DropBeforeLatest(d.data, from, keep);
      LatestAgrees(d.data, history, from, keep);
      if Between(d.data, from, keep) == {} {
        DropNothing(d.data, from, keep);
      }
    }
  }

  /** Trimming moves the oldest kept epoch at most `past` behind the current one. */
  lemma TrimOldest<T>(d: Discrete<T>, past: nat, current: Epoch)
    requires d.lastUpdate.Some? <==> d.oldest.Some?
    ensures var o := Trim(d, past, current).oldest;
            o.Some? && o.value <= if d.oldest.Some? then Max(d.oldest.value, Monus(current, past)) else current
  {
  }

  lemma DropNothing<T>(data: map<Epoch, T>, from: Epoch, keep: Epoch)
    requires Between(data, from, keep) == {}
    ensures DropBefore(data, from, keep) == data
  {
  }

  lemma WriteLatest<T>(data: map<Epoch, T>, history: map<Epoch, T>, o: Epoch, k: Epoch, value: T)
    requires o <= k && LatestAt(data, o) == LatestAt(history, o)
    ensures LatestAt(data[k := value], o) == LatestAt(history[k := value], o)
  {
    if k == o {
      LatestIs(data[k := value], o, o);
      LatestIs(history[k := value], o, o);
    } else {
      WriteAbove(data, o, k, value);
      WriteAbove(history, o, k, value);
    }
  }

  lemma WriteAbove<T>(m: map<Epoch, T>, o: Epoch, k: Epoch, value: T)
    requires o < k
    ensures LatestAt(m[k := value], o) == LatestAt(m, o)
  {
    assert UpTo(m[k := value], o) == UpTo(m, o);
  }

  lemma SetAgrees<T>(d: Discrete<T>, past: nat, history: map<Epoch, T>, w: Write<T>)
    requires Agrees(d, past, history)
    requires d.oldest.Some? ==> d.oldest.value <= w.current + w.offset
    ensures Agrees(Set(d, past, w.value, w.current, w.offset), past, history[w.current + w.offset := w.value])
  {
    hide Trim, LatestAt;
    TrimAgrees(d, past, history, w.current);
    var t := Trim(d, past, w.current);
    TrimUpdates(d, past, w.current);
    WriteLatest(t.data, history, t.oldest.value, w.current + w.offset, w.value);
  }

  lemma TrimUpdates<T>(d: Discrete<T>, past: nat, current: Epoch)
    ensures Trim(d, past, current).lastUpdate == Some(current)
  {
  }

  lemma {:induction false} RunAgrees<T>(future: nat, past: nat, writes: seq<Write<T>>)
    requires Allowed(future, past, writes)
    ensures Agrees(Run(past, writes), past, History(writes))
    ensures writes != [] ==> Run(past, writes).lastUpdate == Some(writes[|writes| - 1].current)
    decreases |writes|
  {
    hide Agrees;
    if writes == [] {
      EmptyAgrees<T>(past);
    } else {
      var before, w := writes[..|writes| - 1], writes[|writes| - 1];
      RunAgrees(future, past, before);
      SetAgrees(Run(past, before), past, History(before), w);
    }
  }

  lemma EmptyAgrees<T>(past: nat)
    ensures Agrees<T>(Discrete(map[], None, None), past, map[])
  {
  }

  lemma {:induction false} WalkDownIsLatest<T>(data: map<Epoch, T>, low: Epoch, e: Epoch)
    requires forall k | k in data :: low <= k
    ensures WalkDown(data, low, e) == LatestAt(data, e)
    decreases e
  {
    if e in data {
      LatestIs(data, e, e);
    } else if e > 0 && e > low {
      WalkDownIsLatest(data, low, e - 1);
      NoneAbove(data, e - 1, e);
    } else {
      LatestIsNone(data, e);
    }
  }

  /** What a structure that agrees with its history reads: the value at the greatest written epoch not above, and nothing
      before the oldest epoch that is kept. */
  lemma ReadAgrees<T>(d: Discrete<T>, future: nat, past: nat, history: map<Epoch, T>, e: Epoch)
    requires Agrees(d, past, history) && d.oldest.Some? && d.oldest.value <= d.lastUpdate.value + future
    ensures d.oldest.value <= e ==>
              ValueAt(d, future, past, e) == LatestAt(history, Min(e, d.lastUpdate.value + future))
    ensures e < d.oldest.value ==> ValueAt(d, future, past, e) == None
  {
    hide LatestAt, WalkDown;
    var at := Min(e, d.lastUpdate.value + future);
    WalkDownIsLatest(d.data, Monus(d.lastUpdate.value, past), at);
    if d.oldest.value <= e {
      LatestAgrees(d.data, history, d.oldest.value, at);
    } else {
      LatestIsNone(d.data, at);
    }
  }

  /** From the oldest kept epoch on, a read gives the value at the greatest written epoch not above it (epochs past the
      write window read as its last epoch); before the oldest kept epoch it gives nothing. */
  lemma TrimmingIsInvisible<T>(future: nat, past: nat, writes: seq<Write<T>>, e: Epoch)
    requires Allowed(future, past, writes) && writes != []
    ensures var d, last := Run(past, writes), writes[|writes| - 1].current;
            && d.oldest.Some?
            && (d.oldest.value <= e ==>
                  ValueAt(d, future, past, e) == LatestAt(History(writes), Min(e, last + future)))
            && (e < d.oldest.value ==> ValueAt(d, future, past, e) == None)
  {
    hide LatestAt, WalkDown, ValueAt, Agrees;
    RunAgrees(future, past, writes);
    RunOldest(future, past, writes);
    ReadAgrees(Run(past, writes), future, past, History(writes), e);
  }

  /** The oldest kept epoch never passes the end of the write window. */
  lemma {:induction false} RunOldest<T>(future: nat, past: nat, writes: seq<Write<T>>)
    requires Allowed(future, past, writes) && writes != []
    ensures Run(past, writes).oldest.Some?
    ensures Run(past, writes).oldest.value <= writes[|writes| - 1].current + future
    decreases |writes|
  {
    var before, w := writes[..|writes| - 1], writes[|writes| - 1];
    if before != [] {
      RunOldest(future, past, before);
    }
  }

  // ---- Runs in which the current epoch never goes back ----

  lemma {:induction false} ForwardOldest<T>(future: nat, past: nat, writes: seq<Write<T>>)
    requires Forward(future, writes) && writes != []
    ensures Allowed(future, past, writes)
    ensures var o := Run(past, writes).oldest;
            o.Some? && o.value <= Max(writes[0].current, Monus(writes[|writes| - 1].current, past))
    decreases |writes|
  {
    hide DropBefore, Between;
    var before, w := writes[..|writes| - 1], writes[|writes| - 1];
    if before != [] {
      assert before[0] == writes[0] && before[|before| - 1] == writes[|writes| - 2];
      ForwardOldest(future, past, before);
      assert writes[0].current <= w.current;
    } else {
      assert Allowed(future, past, before);
    }
  }

  lemma {:induction false} ForwardHistory<T>(future: nat, writes: seq<Write<T>>)
    requires Forward(future, writes) && writes != []
    ensures forall k | k in History(writes) :: k <= writes[|writes| - 1].current + future
    decreases |writes|
  {
    var before, w := writes[..|writes| - 1], writes[|writes| - 1];
    if before != [] {
      assert before[|before| - 1] == writes[|writes| - 2];
      ForwardHistory(future, before);
    }
  }

  /** With epochs that never go back, every read at or after the oldest kept epoch is the untrimmed history's; every
      epoch at most `past` behind the last update, and not before the first, is kept. */
  lemma ForwardReads<T>(future: nat, past: nat, writes: seq<Write<T>>, e: Epoch)
    requires Forward(future, writes) && writes != []
    ensures var o := Run(past, writes).oldest;
            && o.Some?
            && o.value <= Max(writes[0].current, Monus(writes[|writes| - 1].current, past))
            && (o.value <= e ==> ValueAt(Run(past, writes), future, past, e) == LatestAt(History(writes), e))
  {
    hide LatestAt, Run, History, ValueAt, Forward, Allowed;
    ForwardOldest(future, past, writes);
    ForwardHistory(future, writes);
    TrimmingIsInvisible(future, past, writes, e);
    var at := writes[|writes| - 1].current + future;
    if at < e {
      NoneAbove(History(writes), at, e);
    }
  }

  // ---- The storage handle ----

  class Store<T> {
    const future: nat
    const past: nat
    var data: map<Epoch, T>
    var lastUpdate: Option<Epoch>
    var oldest: Option<Epoch>

    constructor (future: nat, past: nat)
      ensures this.future == future && this.past == past
      ensures Value() == Discrete(map[], None, None)
    {
      this.future, this.past := future, past;
      data, lastUpdate, oldest := map[], None, None;
    }

    ghost function Value(): Discrete<T>
      reads this
    {
      Discrete(data, lastUpdate, oldest)
    }

    method Read(epoch: Epoch) returns (r: Option<T>)
      ensures r == ValueAt(Value(), future, past, epoch)
    {
      if lastUpdate.None? {
        return None;
      }
      var e: Epoch := Min(epoch, lastUpdate.value + future);
      while true
        invariant WalkDown(data, Monus(lastUpdate.value, past), e) == ValueAt(Value(), future, past, epoch)
        decreases e
      {
        if e in data {
          return Some(data[e]);
        }
        if e > 0 && e > Monus(lastUpdate.value, past) {
          e := e - 1;
        } else {
          return None;
        }
      }
    }

    method Write(value: T, current: Epoch, offset: nat)
      modifies this
      ensures Value() == Set(old(Value()), past, value, current, offset)
    {
      UpdateData(current);
      data := data[current + offset := value];
    }

    method UpdateData(current: Epoch)
      modifies this
      ensures Value() == Trim(old(Value()), past, current)
    {
      if lastUpdate.Some? && oldest.Some? {
        var keep := Monus(current, past);
        if oldest.value < keep {
          var latest := RemoveBefore(oldest.value, keep);
          if latest.Some? {
            if keep !in data {
              data := data[keep := latest.value];
            }
            oldest := Some(keep);
          }
          lastUpdate := Some(current);
          return;
        }
      }
      lastUpdate := Some(current);
      if oldest.None? {
        oldest := Some(current);
      }
    }

    /** Remove the entries of the trimmed epochs in order, keeping the last one seen. */
    method RemoveBefore(from: Epoch, keep: Epoch) returns (latest: Option<T>)
      requires from <= keep
      modifies this`data
      ensures data == old(data) - Between(old(data), from, keep)
      ensures latest == Last(old(data), from, keep)
    {
      latest := None;
      for e := from to keep
        invariant data == old(data) - Between(old(data), from, e)
        invariant latest == Last(old(data), from, e)
      {
        LastNext(data, old(data), from, e);
        if e in data {
          latest := Some(data[e]);
        }
        data := data - {e};
      }
    }
  }

  lemma LastNext<T>(now: map<Epoch, T>, data: map<Epoch, T>, from: Epoch, e: Epoch)
    requires from <= e && now == data - Between(data, from, e)
    ensures e in now <==> e in data
    ensures e in data ==> now[e] == data[e] && Last(data, from, e + 1) == Some(data[e])
    ensures e !in data ==> Last(data, from, e + 1) == Last(data, from, e)
    ensures now - {e} == data - Between(data, from, e + 1)
  {
    if e in data {
      assert e in Between(data, from, e + 1);
    } else {
      assert Between(data, from, e + 1) == Between(data, from, e);
    }
  }
}
