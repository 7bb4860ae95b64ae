/** Commission rates: epoched data written at the pipeline offset, with a bound on the change between epochs. */
module Commission {
  import opened Types
  import E = Epoched

  /** The number of past epochs kept for commission rates. */
  const PAST: nat := 2

  datatype Error = NegativeRate | LargerThanOne | NoMaxSet | MissingRate | RateChangeTooLarge

  function AbsDiff(a: nat, b: nat): nat {
    if a <= b then b - a else a - b
  }

  type Rates = E.Discrete<nat>

  /** What a change writes: the new rate, or nothing if it is the rate already set for the pipeline epoch. A missing rate
      is a panic. `pipeline` is at least one, otherwise the epoch before the pipeline epoch may not exist. */
  ghost function Change(pipeline: nat, rates: Rates, maxChange: Option<nat>, newRate: int,
                        current: Epoch): Result<Option<nat>, Error>
    requires 1 <= pipeline
  {
    var pipelineEpoch := current + pipeline;
    if newRate < 0 then Err(NegativeRate)
    else if newRate > DEC_ONE then Err(LargerThanOne)
    else if maxChange.None? then Err(NoMaxSet)
    else
      var atPipeline := E.ValueAt(rates, pipeline, PAST, pipelineEpoch);
      if atPipeline.None? then Err(MissingRate)
      else if newRate == atPipeline.value then Ok(None)
      else
        var before := E.ValueAt(rates, pipeline, PAST, pipelineEpoch - 1);
        if before.None? then Err(MissingRate)
        else if AbsDiff(newRate, before.value) > maxChange.value then Err(RateChangeTooLarge)
        else Ok(Some(newRate))
  }

  // ---- Runs ----

  datatype Attempt = Attempt(newRate: int, current: Epoch)

  /** Everything written by the rate a validator starts with and a run of attempts to change it. */
  ghost function Written(pipeline: nat, maxChange: nat, first: E.Write<nat>, attempts: seq<Attempt>): seq<E.Write<nat>>
    requires 1 <= pipeline
  {
    if attempts == [] then [first]
    else
      var before := Written(pipeline, maxChange, first, attempts[..|attempts| - 1]);
      Extended(pipeline, maxChange, before, attempts[|attempts| - 1])
  }

  ghost function Extended(pipeline: nat, maxChange: nat, writes: seq<E.Write<nat>>, a: Attempt): seq<E.Write<nat>>
    requires 1 <= pipeline
  {
    var r := Change(pipeline, E.Run(PAST, writes), Some(maxChange), a.newRate, a.current);
    if r.Ok? && r.value.Some? then writes + [E.Write(r.value.value, a.current, pipeline)] else writes
  }

  /** The first rate is written within the window, and time does not go back. */
  ghost predicate Timely(pipeline: nat, first: E.Write<nat>, attempts: seq<Attempt>) {
    && first.offset <= pipeline
    && (forall i | 0 <= i < |attempts| :: first.current <= attempts[i].current)
    && (forall i, j | 0 <= i < j < |attempts| :: attempts[i].current <= attempts[j].current)
  }

  /** The rates of an untrimmed history change by at most the bound from one epoch to the next. */
  ghost predicate Gentle(history: map<Epoch, nat>, maxChange: nat) {
    forall e: Epoch :: GentleAt(history, maxChange, e)
  }

  ghost predicate GentleAt(history: map<Epoch, nat>, maxChange: nat, e: Epoch) {
    var a, b := E.LatestAt(history, e), E.LatestAt(history, e + 1);
    a.Some? && b.Some? ==> AbsDiff(a.value, b.value) <= maxChange
  }

  // ---- The bound holds over every run ----

  /** What the writes of a run look like: in time order, first rate first, none after the last attempt. */
  ghost predicate Ordered(pipeline: nat, first: E.Write<nat>, writes: seq<E.Write<nat>>, now: Epoch) {
    && writes != [] && writes[0] == first
    && E.Forward(pipeline, writes)
    && (forall i | 0 < i < |writes| :: writes[i].offset == pipeline)
    && writes[|writes| - 1].current <= now
  }

  lemma HistoryNext(writes: seq<E.Write<nat>>, w: E.Write<nat>)
    ensures E.History(writes + [w]) == E.History(writes)[w.current + w.offset := w.value]
  {
    assert (writes + [w])[..|writes|] == writes;
  }

  /** A write at or after every written epoch leaves earlier epochs alone and decides all later ones. */
  lemma LatestAfterWrite(history: map<Epoch, nat>, k: Epoch, v: nat, e: Epoch)
    requires forall j | j in history :: j <= k
    ensures E.LatestAt(history[k := v], e) == if k <= e then Some(v) else E.LatestAt(history, e)
  {
    if k <= e {
      E.LatestIs(history[k := v], e, k);
    } else {
      E.WriteAbove(history, e, k, v);
    }
  }

  lemma GentleAfterWrite(history: map<Epoch, nat>, maxChange: nat, k: Epoch, v: nat)
    requires Gentle(history, maxChange) && k >= 1 && forall j | j in history :: j <= k
    requires var before := E.LatestAt(history, k - 1); before.Some? ==> AbsDiff(v, before.value) <= maxChange
    ensures Gentle(history[k := v], maxChange)
  {
    hide E.LatestAt;
    var after := history[k := v];
    forall e: Epoch ensures GentleAt(after, maxChange, e) {
      assert GentleAt(history, maxChange, e);
      LatestAfterWrite(history, k, v, e);
      LatestAfterWrite(history, k, v, e + 1);
    }
  }

  lemma {:induction false} HistoryWithin(pipeline: nat, first: E.Write<nat>, writes: seq<E.Write<nat>>, now: Epoch)
    requires Ordered(pipeline, first, writes, now)
    ensures forall k | k in E.History(writes) :: k <= now + pipeline
  {
    E.ForwardHistory(pipeline, writes);
  }

  lemma ReadsHistory(pipeline: nat, first: E.Write<nat>, writes: seq<E.Write<nat>>, now: Epoch, e: Epoch)
    requires Ordered(pipeline, first, writes, now) && now <= e
    ensures E.ValueAt(E.Run(PAST, writes), pipeline, PAST, e) == E.LatestAt(E.History(writes), e)
  {
    hide E.LatestAt, E.Run, E.History, E.ValueAt;
    E.ForwardReads(pipeline, PAST, writes, e);
    assert first.current <= now;
  }

  lemma ExtendedStep(pipeline: nat, maxChange: nat, first: E.Write<nat>, writes: seq<E.Write<nat>>, a: Attempt)
    requires 1 <= pipeline && Ordered(pipeline, first, writes, a.current)
    requires Gentle(E.History(writes), maxChange)
    ensures Ordered(pipeline, first, Extended(pipeline, maxChange, writes, a), a.current)
    ensures Gentle(E.History(Extended(pipeline, maxChange, writes, a)), maxChange)
  {
    hide E.LatestAt, E.Run, E.History, E.ValueAt, Gentle;
    var r := Change(pipeline, E.Run(PAST, writes), Some(maxChange), a.newRate, a.current);
    if r.Ok? && r.value.Some? {
      var w := E.Write(r.value.value, a.current, pipeline);
      ReadsHistory(pipeline, first, writes, a.current, a.current + pipeline - 1);
      HistoryWithin(pipeline, first, writes, a.current);
      GentleAfterWrite(E.History(writes), maxChange, a.current + pipeline, w.value);
      HistoryNext(writes, w);
    }
  }

  lemma {:induction false} RunGentle(pipeline: nat, maxChange: nat, first: E.Write<nat>, attempts: seq<Attempt>)
    requires 1 <= pipeline && Timely(pipeline, first, attempts)
    ensures Ordered(pipeline, first, Written(pipeline, maxChange, first, attempts),
                    if attempts == [] then first.current else attempts[|attempts| - 1].current)
    ensures Gentle(E.History(Written(pipeline, maxChange, first, attempts)), maxChange)
    decreases |attempts|
  {
    hide Gentle, Extended;
    if attempts == [] {
      FirstGentle(first, maxChange);
    } else {
      var before, a := attempts[..|attempts| - 1], attempts[|attempts| - 1];
      RunGentle(pipeline, maxChange, first, before);
      assert before != [] ==> before[|before| - 1].current <= a.current;
      ExtendedStep(pipeline, maxChange, first, Written(pipeline, maxChange, first, before), a);
    }
  }

  lemma FirstGentle(first: E.Write<nat>, maxChange: nat)
    ensures Gentle(E.History([first]), maxChange)
  {
    hide E.LatestAt;
    var none: map<Epoch, nat> := map[];
    HistoryNext([], first);
    forall e: Epoch ensures GentleAt(E.History([first]), maxChange, e) {
      LatestAfterWrite(none, first.current + first.offset, first.value, e);
      LatestAfterWrite(none, first.current + first.offset, first.value, e + 1);
      E.LatestIsNone(none, e);
      assert [] + [first] == [first];
    }
  }

  /** After every run of changes, the rates read at any two consecutive kept epochs at which there is a rate differ by at
      most the validator's maximum change, however many changes were made in one epoch. */
  lemma RatesChangeGently(pipeline: nat, maxChange: nat, first: E.Write<nat>, attempts: seq<Attempt>, e: Epoch)
    requires 1 <= pipeline && Timely(pipeline, first, attempts)
    ensures var rates := E.Run(PAST, Written(pipeline, maxChange, first, attempts));
            var a, b := E.ValueAt(rates, pipeline, PAST, e), E.ValueAt(rates, pipeline, PAST, e + 1);
            rates.oldest.Some? && rates.oldest.value <= e && a.Some? && b.Some? ==> AbsDiff(a.value, b.value) <= maxChange
  {
    hide E.LatestAt, E.Run, E.History, E.ValueAt, Written;
    RunGentle(pipeline, maxChange, first, attempts);
    var writes := Written(pipeline, maxChange, first, attempts);
    E.ForwardReads(pipeline, PAST, writes, e);
    E.ForwardReads(pipeline, PAST, writes, e + 1);
    assert GentleAt(E.History(writes), maxChange, e);
  }

  /** Every rate that a change writes is between zero and one. */
  lemma {:induction false} RatesAtMostOne(pipeline: nat, maxChange: nat, first: E.Write<nat>, attempts: seq<Attempt>,
                                          i: nat)
    requires 1 <= pipeline && 0 < i < |Written(pipeline, maxChange, first, attempts)|
    ensures Written(pipeline, maxChange, first, attempts)[i].value <= DEC_ONE
    decreases |attempts|
  {
    hide E.Run, E.ValueAt;
    if attempts != [] {
      var before := attempts[..|attempts| - 1];
      if i < |Written(pipeline, maxChange, first, before)| {
        RatesAtMostOne(pipeline, maxChange, first, before, i);
      }
    }
  }

  // ---- Which rate is in force ----

  /** The rate at an epoch if nothing is ever forgotten: that of the last accepted attempt due by then, or else the first. */
  ghost function InForce(pipeline: nat, maxChange: nat, first: E.Write<nat>, attempts: seq<Attempt>,
                         e: Epoch): Option<nat>
    requires 1 <= pipeline
    decreases |attempts|, 0
  {
    if attempts == [] then if first.current + first.offset <= e then Some(first.value) else None
    else
      var before, a := attempts[..|attempts| - 1], attempts[|attempts| - 1];
      if a.current + pipeline <= e && Accepted(pipeline, maxChange, first, before, a) then Some(a.newRate)
      else InForce(pipeline, maxChange, first, before, e)
  }

  /** A rate between zero and one is accepted if it is in force at the pipeline epoch already, or if it is within the maximum
      change of the one in force at the epoch before. */
  ghost predicate Accepted(pipeline: nat, maxChange: nat, first: E.Write<nat>, before: seq<Attempt>, a: Attempt)
    requires 1 <= pipeline
    decreases |before|, 1
  {
    var due := a.current + pipeline;
    var atDue := InForce(pipeline, maxChange, first, before, due);
    var atPrevious := InForce(pipeline, maxChange, first, before, due - 1);
    && 0 <= a.newRate <= DEC_ONE && atDue.Some?
    && (a.newRate == atDue.value || (atPrevious.Some? && AbsDiff(a.newRate, atPrevious.value) <= maxChange))
  }

  ghost predicate SameRates(history: map<Epoch, nat>, pipeline: nat, maxChange: nat, first: E.Write<nat>,
                            attempts: seq<Attempt>)
    requires 1 <= pipeline
  {
    forall e: Epoch :: E.LatestAt(history, e) == InForce(pipeline, maxChange, first, attempts, e)
  }

  lemma FirstInForce(pipeline: nat, maxChange: nat, first: E.Write<nat>)
    requires 1 <= pipeline
    ensures SameRates(E.History([first]), pipeline, maxChange, first, [])
  {
    hide E.LatestAt;
    var none: map<Epoch, nat> := map[];
    HistoryNext([], first);
    assert [] + [first] == [first];
    forall e: Epoch ensures E.LatestAt(E.History([first]), e) == InForce(pipeline, maxChange, first, [], e) {
      LatestAfterWrite(none, first.current + first.offset, first.value, e);
      E.LatestIsNone(none, e);
    }
  }

  /** A change is accepted exactly if the rates in force allow it; without a rate it panics. */
  lemma ChangeFollows(pipeline: nat, maxChange: nat, first: E.Write<nat>, before: seq<Attempt>,
                      writes: seq<E.Write<nat>>,
                      a: Attempt)
    requires 1 <= pipeline && Ordered(pipeline, first, writes, a.current)
    requires SameRates(E.History(writes), pipeline, maxChange, first, before)
    ensures var r := Change(pipeline, E.Run(PAST, writes), Some(maxChange), a.newRate, a.current);
            && (r.Ok? <==> Accepted(pipeline, maxChange, first, before, a))
            && (r.Ok? ==> r.value == if E.LatestAt(E.History(writes), a.current + pipeline) == Some(a.newRate) then None
                                     else Some(a.newRate))
  {
    hide E.LatestAt, E.Run, E.History, E.ValueAt;
    ReadsHistory(pipeline, first, writes, a.current, a.current + pipeline);
    ReadsHistory(pipeline, first, writes, a.current, a.current + pipeline - 1);
  }

  lemma ExtendedFollows(pipeline: nat, maxChange: nat, first: E.Write<nat>, before: seq<Attempt>,
                        writes: seq<E.Write<nat>>,
                        a: Attempt)
    requires 1 <= pipeline && Ordered(pipeline, first, writes, a.current)
    requires SameRates(E.History(writes), pipeline, maxChange, first, before)
    ensures SameRates(E.History(Extended(pipeline, maxChange, writes, a)), pipeline, maxChange, first, before + [a])
  {
    hide E.LatestAt, E.Run, E.History, Change, Accepted, Ordered;
    var k, after := a.current + pipeline, Extended(pipeline, maxChange, writes, a);
    ChangeFollows(pipeline, maxChange, first, before, writes, a);
    HistoryWithin(pipeline, first, writes, a.current);
    assert (before + [a])[..|before|] == before;
    forall e: Epoch ensures E.LatestAt(E.History(after), e) == InForce(pipeline, maxChange, first, before + [a], e) {
      if after != writes {
        HistoryNext(writes, E.Write(a.newRate as nat, a.current, pipeline));
        LatestAfterWrite(E.History(writes), k, a.newRate, e);
      } else if k <= e {
        E.NoneAbove(E.History(writes), k, e);
      }
    }
  }

  lemma {:induction false} RunFollows(pipeline: nat, maxChange: nat, first: E.Write<nat>, attempts: seq<Attempt>)
    requires 1 <= pipeline && Timely(pipeline, first, attempts)
    ensures SameRates(E.History(Written(pipeline, maxChange, first, attempts)), pipeline, maxChange, first, attempts)
    decreases |attempts|
  {
    hide SameRates, Extended, E.History, Ordered;
    if attempts == [] {
      FirstInForce(pipeline, maxChange, first);
    } else {
      var before, a := attempts[..|attempts| - 1], attempts[|attempts| - 1];
      RunFollows(pipeline, maxChange, first, before);
      RunGentle(pipeline, maxChange, first, before);
      var writes := Written(pipeline, maxChange, first, before);
      LaterOrdered(pipeline, first, writes, if before == [] then first.current else before[|before| - 1].current, a.current);
      ExtendedFollows(pipeline, maxChange, first, before, writes, a);
      assert before + [a] == attempts;
    }
  }

  lemma LaterOrdered(pipeline: nat, first: E.Write<nat>, writes: seq<E.Write<nat>>, now: Epoch, later: Epoch)
    requires Ordered(pipeline, first, writes, now) && now <= later
    ensures Ordered(pipeline, first, writes, later)
  {
  }

  /** After every run of attempts, the rate read at any kept epoch is the one in force, that is of the last accepted attempt
      due by then; and the next attempt is accepted exactly if the rates in force allow it. */
  lemma RateInForce(pipeline: nat, maxChange: nat, first: E.Write<nat>, attempts: seq<Attempt>, a: Attempt, e: Epoch)
    requires 1 <= pipeline && Timely(pipeline, first, attempts + [a])
    ensures var rates := E.Run(PAST, Written(pipeline, maxChange, first, attempts));
            && rates.oldest.Some? && rates.oldest.value <= a.current
            && (rates.oldest.value <= e ==>
                  E.ValueAt(rates, pipeline, PAST, e) == InForce(pipeline, maxChange, first, attempts, e))
            && (Change(pipeline, rates, Some(maxChange), a.newRate, a.current).Ok? <==>
                  Accepted(pipeline, maxChange, first, attempts, a))
  {
    hide E.LatestAt, E.Run, E.History, E.ValueAt, Written, Change, Accepted, InForce;
    TimelyBefore(pipeline, first, attempts, a);
    RunGentle(pipeline, maxChange, first, attempts);
    RunFollows(pipeline, maxChange, first, attempts);
    var writes := Written(pipeline, maxChange, first, attempts);
    E.ForwardReads(pipeline, PAST, writes, e);
    ChangeFollows(pipeline, maxChange, first, attempts, writes, a);
  }

  lemma TimelyBefore(pipeline: nat, first: E.Write<nat>, attempts: seq<Attempt>, a: Attempt)
    requires Timely(pipeline, first, attempts + [a])
    ensures Timely(pipeline, first, attempts) && first.current <= a.current
    ensures attempts != [] ==> attempts[|attempts| - 1].current <= a.current
  {
    var all := attempts + [a];
    assert all[|attempts|] == a;
    assert forall i | 0 <= i < |attempts| :: attempts[i] == all[i];
  }

  /** An accepted change takes effect: from the pipeline epoch on the new rate is read, and every kept epoch before it reads
      as before. */
  lemma ChangeTakesEffect(pipeline: nat, maxChange: nat, first: E.Write<nat>, attempts: seq<Attempt>, a: Attempt,
                          e: Epoch)
    requires 1 <= pipeline && Timely(pipeline, first, attempts + [a])
    ensures var rates := E.Run(PAST, Written(pipeline, maxChange, first, attempts));
            var after := E.Run(PAST, Written(pipeline, maxChange, first, attempts + [a]));
            Change(pipeline, rates, Some(maxChange), a.newRate, a.current).Ok? ==>
              && after.oldest.Some? && after.oldest.value <= a.current
              && (a.current + pipeline <= e ==> E.ValueAt(after, pipeline, PAST, e) == Some(a.newRate))
              && (rates.oldest.Some? && rates.oldest.value <= e && after.oldest.value <= e < a.current + pipeline ==>
                    E.ValueAt(after, pipeline, PAST, e) == E.ValueAt(rates, pipeline, PAST, e))
  {
    hide E.LatestAt, E.Run, E.ValueAt, Written, Change, Accepted;
    var again := attempts + [a] + [a];
    assert Timely(pipeline, first, again) by {
      TimelyBefore(pipeline, first, attempts, a);
    }
    RateInForce(pipeline, maxChange, first, attempts, a, e);
    RateInForce(pipeline, maxChange, first, attempts + [a], a, e);
    assert (attempts + [a])[..|attempts|] == attempts;
  }

  // ---- When a change panics ----

  lemma {:induction false} FirstIsEarliest(pipeline: nat, first: E.Write<nat>, writes: seq<E.Write<nat>>, now: Epoch)
    requires Ordered(pipeline, first, writes, now)
    ensures first.current + first.offset in E.History(writes)
    ensures forall k | k in E.History(writes) :: first.current + first.offset <= k
    decreases |writes|
  {
    if |writes| > 1 {
      var before := writes[..|writes| - 1];
      assert before[|before| - 1] == writes[|writes| - 2];
      FirstIsEarliest(pipeline, first, before, now);
    }
  }

  /** A change that passes the first checks and is not a repeat finds no rate, and panics, exactly if the epoch before the
      pipeline epoch comes before the epoch of the validator's first rate. */
  lemma PanicsExactly(pipeline: nat, maxChange: nat, first: E.Write<nat>, attempts: seq<Attempt>, a: Attempt)
    requires 1 <= pipeline && Timely(pipeline, first, attempts + [a]) && 0 <= a.newRate <= DEC_ONE
    ensures var rates := E.Run(PAST, Written(pipeline, maxChange, first, attempts));
            Change(pipeline, rates, Some(maxChange), a.newRate, a.current) == Err(MissingRate) <==>
            && a.current + pipeline - 1 < first.current + first.offset
            && E.ValueAt(rates, pipeline, PAST, a.current + pipeline) != Some(a.newRate)
  {
    hide E.LatestAt, E.Run, E.History, E.ValueAt, Written;
    assert (attempts + [a])[|attempts|] == a;
    assert attempts == (attempts + [a])[..|attempts|];
    assert forall i | 0 <= i < |attempts| :: attempts[i] == (attempts + [a])[i];
    RunGentle(pipeline, maxChange, first, attempts);
    var writes := Written(pipeline, maxChange, first, attempts);
    FirstIsEarliest(pipeline, first, writes, a.current);
    ReadsHistory(pipeline, first, writes, a.current, a.current + pipeline);
    ReadsHistory(pipeline, first, writes, a.current, a.current + pipeline - 1);
    HasRate(E.History(writes), first.current + first.offset, a.current + pipeline);
    HasRate(E.History(writes), first.current + first.offset, a.current + pipeline - 1);
  }

  /** In the epoch of becoming a validator the rate is only set for the pipeline epoch: setting it again changes nothing, and
      every other change within the limits panics. */
  lemma FirstEpochChange(pipeline: nat, maxChange: nat, first: E.Write<nat>, newRate: int)
    requires 1 <= pipeline && first.offset == pipeline && 0 <= newRate <= DEC_ONE
    ensures Change(pipeline, E.Run(PAST, [first]), Some(maxChange), newRate, first.current) ==
            if newRate == first.value then Ok(None) else Err(MissingRate)
  {
    hide E.WalkDown;
    var none: seq<E.Write<nat>> := [];
    assert [first][..|[first]| - 1] == none;
    var d, k := E.Run(PAST, [first]), first.current + pipeline;
    assert d == E.Set(E.Run(PAST, none), PAST, first.value, first.current, pipeline);
    assert d == E.Discrete(map[k := first.value], Some(first.current), Some(first.current));
    E.WalkDownIsLatest(d.data, Monus(first.current, PAST), k);
    E.LatestIs(d.data, k, k);
    E.WalkDownIsLatest(d.data, Monus(first.current, PAST), k - 1);
    E.LatestIsNone(d.data, k - 1);
  }

  /** However often it is tried. */
  lemma {:induction false} PanicsAtOnce(pipeline: nat, maxChange: nat, first: E.Write<nat>, attempts: seq<Attempt>,
                                        a: Attempt)
    requires 1 <= pipeline && first.offset == pipeline && a.current == first.current && 0 <= a.newRate <= DEC_ONE
    requires forall i | 0 <= i < |attempts| :: attempts[i].current == first.current
    ensures Written(pipeline, maxChange, first, attempts) == [first]
    ensures Change(pipeline, E.Run(PAST, Written(pipeline, maxChange, first, attempts)), Some(maxChange), a.newRate, a.current) ==
            if a.newRate == first.value then Ok(None) else Err(MissingRate)
    decreases |attempts|
  {
    hide E.Run, E.ValueAt;
    FirstEpochChange(pipeline, maxChange, first, a.newRate);
    if attempts != [] {
      var last := attempts[|attempts| - 1];
      PanicsAtOnce(pipeline, maxChange, first, attempts[..|attempts| - 1], a);
      if 0 <= last.newRate <= DEC_ONE {
        FirstEpochChange(pipeline, maxChange, first, last.newRate);
      }
    }
  }

  lemma HasRate(history: map<Epoch, nat>, earliest: Epoch, e: Epoch)
    requires earliest in history && forall k | k in history :: earliest <= k
    ensures E.LatestAt(history, e).Some? <==> earliest <= e
  {
    assert earliest <= e ==> earliest in E.UpTo(history, e);
  }

  // ---- The storage operation ----

  method ChangeCommissionRate(pipeline: nat, rates: E.Store<nat>, maxChange: Option<nat>, newRate: int, current: Epoch)
      returns (r: Result<(), Error>)
    requires 1 <= pipeline && rates.future == pipeline && rates.past == PAST
    modifies rates
    ensures var change := Change(pipeline, old(rates.Value()), maxChange, newRate, current);
            && (r.Ok? <==> change.Ok?)
            && (r.Err? ==> r.error == change.error && rates.Value() == old(rates.Value()))
            && (change == Ok(None) ==> rates.Value() == old(rates.Value()))
            && (change.Ok? && change.value.Some? ==>
                  rates.Value() == E.Set(old(rates.Value()), PAST, change.value.value, current, pipeline))
  {
    if newRate < 0 {
      return Err(NegativeRate);
    }
    if newRate > DEC_ONE {
      return Err(LargerThanOne);
    }
    if maxChange.None? {
      return Err(NoMaxSet);
    }
    var pipelineEpoch := current + pipeline;
    var atPipeline := rates.Read(pipelineEpoch);
    if atPipeline.None? {
      return Err(MissingRate);
    }
    if newRate == atPipeline.value {
      return Ok(());
    }
    var before := rates.Read(pipelineEpoch - 1);
    if before.None? {
      return Err(MissingRate);
    }
    if AbsDiff(newRate, before.value) > maxChange.value {
      return Err(RateChangeTooLarge);
    }
    rates.Write(newRate, current, pipeline);
    return Ok(());
  }
}
