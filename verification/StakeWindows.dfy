/** How large the windows of the stake deltas must be: exactly when the total stake is the sum of the stakes. */
module StakeWindows {
  import opened Types
  import opened FiniteSums
  import opened EpochedDelta
  import opened Stake
  import E = Epoched

  // ---- The operations as the ledger makes them ----

  /** The slashed amounts of one validator. A slash of its own covers every epoch from the current to the pipeline epoch; that
      takes a pipeline of at least one epoch. The slash of a redelegation adds to the epochs after the current one, and nothing
      where there is nothing to take. */
  ghost predicate Built(future: nat, now: Epoch, amounts: map<Epoch, Amount>) {
    || (future >= 1 && forall e: Epoch :: e in amounts <==> now <= e <= now + future)
    || (forall e | e in amounts :: now < e <= now + future && amounts[e] > 0)
  }

  /** Stake changes at the pipeline epoch, or at once at genesis. */
  ghost predicate Issued(future: nat, now: Epoch, op: Op) {
    match op
    case Become(_, offset) => offset == future || (now == 0 && offset == 0)
    case Change(_, _, offset) => offset == future || (now == 0 && offset == 0)
    case SlashStakes(_, amounts) => Built(future, now, amounts)
    case NextEpoch => true
  }

  ghost predicate AllIssued(future: nat, ops: seq<Op>) {
    ops == [] || (AllIssued(future, Before(ops)) && Issued(future, Now(Before(ops)), Last(ops)))
  }

  /** Over every run, the total change read at a retained epoch is the sum of the validators' changes. */
  ghost predicate TotalsAgree(future: nat, past: nat) {
    forall ops: seq<Op>, e: Epoch
      | Legal(future, past, ops) && AllIssued(future, ops) && AllRetain(future, past, After(future, past, ops), e) ::
      AgreesAt(future, past, After(future, past, ops), e)
  }

  ghost predicate AgreesAt(future: nat, past: nat, s: State, e: Epoch) {
    ReadChange(s.total, future, past, e) == Sum<Address>(Changes(s.validators, future, past, e))
  }

  // ---- Single updates ----

  /** An update that trims nothing. */
  lemma UpdateKeeps(d: Deltas, past: nat, delta: int, current: Epoch, offset: nat)
    requires d.lastUpdate.Some? && d.oldest.Some? && E.Between(d.data, d.oldest.value, Monus(current, past)) == {}
    ensures Update(d, past, delta, current, offset) ==
            Deltas(d.data[current + offset := GetInt(d.data, current + offset) + delta], Some(current), d.oldest)
  {
  }

  // ---- Sums over small maps ----

  lemma SumOfOne<K>(m: map<K, int>, k: K)
    requires m.Keys == {k}
    ensures Sum<K>(m) == m[k]
  {
    SumWithout<K>(m, k);
    assert m - {k} == map[];
  }

  lemma SumOfTwo<K>(m: map<K, int>, k: K, j: K)
    requires m.Keys == {k, j} && k != j
    ensures Sum<K>(m) == m[k] + m[j]
  {
    SumWithout<K>(m, k);
    SumOfOne(m - {k}, j);
  }

  /** A read that finds one delta. */
  lemma ReadOne(d: Deltas, future: nat, past: nat, e: Epoch, a: Epoch)
    requires d.lastUpdate.Some? && a in d.data
    requires var last := d.lastUpdate.value;
             && Monus(last, past) <= a <= Min(e, last + future)
             && forall k | k in d.data && k != a :: k < Monus(last, past) || k > Min(e, last + future)
    ensures ReadChange(d, future, past, e) == d.data[a]
  {
    var from, end := Monus(d.lastUpdate.value, past), Min(e, d.lastUpdate.value + future) + 1;
    RangeIsSum(d.data, from, end);
    assert Below(d.data, from, end).Keys == {a};
    SumOfOne<Epoch>(Below(d.data, from, end), a);
  }

  // ---- Two validators with ten tokens each ----

  function Single(k: Epoch, value: int): Deltas {
    Deltas(map[k := value], Some(k), Some(k))
  }

  const START := [Become(1, 0), Become(2, 0), Change(1, 10, 0), Change(2, 10, 0), NextEpoch]

  const BASE := State(1, map[1 := Single(0, 10), 2 := Single(0, 10)], Single(0, 20))

  lemma Push(future: nat, past: nat, ops: seq<Op>, op: Op)
    requires Legal(future, past, ops) && Enabled(future, After(future, past, ops), op)
    ensures Legal(future, past, ops + [op])
    ensures AllIssued(future, ops) && Issued(future, Now(ops), op) ==> AllIssued(future, ops + [op])
    ensures Now(ops + [op]) == Now(ops) + if op.NextEpoch? then 1 else 0
    ensures After(future, past, ops + [op]) == Step(future, past, After(future, past, ops), op)
  {
    hide Enabled, Step, Issued, Legal, After;
    Extend(future, past, ops, op);
    assert Before(ops + [op]) == ops && Last(ops + [op]) == op;
  }

  lemma Nothing(future: nat, past: nat)
    ensures Legal(future, past, []) && After(future, past, []) == INITIAL && AllIssued(future, []) && Now([]) == 0
  {
  }

  lemma FirstUpdates(past: nat)
    ensures Set(EMPTY, past, 0, 0, 0) == Single(0, 0)
    ensures Update(EMPTY, past, 10, 0, 0) == Single(0, 10)
    ensures Update(Single(0, 0), past, 10, 0, 0) == Single(0, 10)
    ensures Update(Single(0, 10), past, 10, 0, 0) == Single(0, 20)
  {
    assert E.Between(map[0 := 0], 0, 0) == {} && E.Between(map[0 := 10], 0, 0) == {};
  }

  lemma Base(future: nat, past: nat)
    ensures Legal(future, past, START) && After(future, past, START) == BASE
    ensures AllIssued(future, START) && Now(START) == 1
  {
    hide Update, Set, Legal, After, AllIssued, Now;
    FirstUpdates(past);
    Nothing(future, past);
    Push(future, past, [], START[0]);
    assert START[..1] == [] + [START[0]];
    Push(future, past, START[..1], START[1]);
    assert START[..2] == START[..1] + [START[1]];
    var s2 := State(0, map[1 := Single(0, 0), 2 := Single(0, 0)], EMPTY);
    assert After(future, past, START[..2]) == s2;
    Push(future, past, START[..2], START[2]);
    assert START[..3] == START[..2] + [START[2]];
    var s3 := State(0, map[1 := Single(0, 10), 2 := Single(0, 0)], Single(0, 10));
    assert After(future, past, START[..3]) == s3;
    Push(future, past, START[..3], START[3]);
    assert START[..4] == START[..3] + [START[3]];
    assert After(future, past, START[..4]) == BASE.(now := 0);
    Push(future, past, START[..4], START[4]);
    assert START == START[..4] + [START[4]];
  }

  // ---- A slash of one token at every epoch of the window ----

  /** The epochs after `c` up to `n`. */
  function Rest(c: Epoch, n: Epoch): (r: set<Epoch>)
    ensures forall k :: k in r <==> c < k <= n
  {
    if n <= c then {} else Rest(c, n - 1) + {n}
  }

  function Ones(n: Epoch): map<Epoch, Amount> {
    map k | k in Rest(0, n) :: 1
  }

  lemma FirstOfRest(c: Epoch, n: Epoch)
    requires c < n
    ensures Rest(c, n) != {} && MinKey(Rest(c, n)) == c + 1 && Rest(c, n) - {c + 1} == Rest(c + 1, n)
  {
    assert c + 1 in Rest(c, n);
  }

  /** The slash after its first epoch: nothing more is taken, but every epoch is written. */
  ghost function Rewritten(d: Deltas, past: nat, c: Epoch, n: Epoch): Deltas
    decreases n - c
  {
    if n <= c then d else Rewritten(Update(d, past, 0, c + 1, 0), past, c + 1, n)
  }

  lemma {:induction false} SlashFromOnes(d: Deltas, past: nat, c: Epoch, n: Epoch)
    requires c <= n
    ensures Rest(c, n) <= Ones(n).Keys && SlashFrom(d, past, Ones(n), Rest(c, n), 1) == Rewritten(d, past, c, n)
    decreases n - c
  {
    hide Update;
    if c == n {
      assert Rest(c, n) == {};
    } else {
      FirstOfRest(c, n);
      SlashFromOnes(Update(d, past, 0, c + 1, 0), past, c + 1, n);
    }
  }

  lemma SlashOnes(d: Deltas, past: nat, n: Epoch)
    requires 1 <= n
    ensures Slashed(d, past, Ones(n)) == Rewritten(Update(d, past, -1, 1, 0), past, 1, n)
  {
    hide Update;
    FirstOfRest(0, n);
    assert Ones(n).Keys == Rest(0, n);
    SlashFromOnes(Update(d, past, -1, 1, 0), past, 1, n);
  }

  /** Both validators are slashed by one token in epoch 1. */
  function SlashOf(v: Address, future: nat): Op {
    SlashStakes(v, Ones(1 + future))
  }

  lemma SlashMade(future: nat, s: State, v: Address)
    requires future >= 1 && s.now == 1 && v in s.validators && s.total.lastUpdate.Some?
    ensures Enabled(future, s, SlashOf(v, future)) && Issued(future, 1, SlashOf(v, future))
  {
  }

  // ---- No past window ----

  /** With no past window an update with offset zero forgets every earlier delta. */
  lemma Forgets(before: int, delta: int, k: Epoch)
    ensures Update(Single(k, before), 0, delta, k + 1, 0) == Single(k + 1, delta)
  {
    assert k in E.Between(map[k := before], k, k + 1);
  }

  lemma {:induction false} ForgetsAll(before: int, c: Epoch, n: Epoch)
    requires c < n
    ensures Rewritten(Single(c, before), 0, c, n) == Single(n, 0)
    decreases n - c
  {
    hide Update;
    Forgets(before, 0, c);
    if c + 1 < n {
      ForgetsAll(0, c + 1, n);
    } else {
      assert Rewritten(Single(n, 0), 0, n, n) == Single(n, 0);
    }
  }

  lemma NoPastSlash(future: nat, before: int)
    requires future >= 1
    ensures Slashed(Single(0, before), 0, Ones(1 + future)) == Single(1 + future, 0)
  {
    hide Update, Slashed;
    SlashOnes(Single(0, before), 0, 1 + future);
    Forgets(before, -1, 0);
    ForgetsAll(-1, 1, 1 + future);
  }

  /** The first operation of epoch 1, a slash or with no pipeline a bond, leaves the first validator and the total with what
      it added last. */
  lemma NoPastBreaks(future: nat)
    ensures !TotalsAgree(future, 0)
  {
    hide Update, Slashed, ReadChange, Enabled, Step, Legal, After, AllIssued;
    Base(future, 0);
    var op := if future == 0 then Change(1, 1, 0) else SlashOf(1, future);
    var left := if future == 0 then 1 else 0;
    var e := 1 + future;
    var s := State(1, map[1 := Single(e, left), 2 := Single(0, 10)], Single(e, left));
    NoPastStep(future);
    Push(future, 0, START, op);
    assert After(future, 0, START + [op]) == s;
    ReadOne(s.total, future, 0, e, e);
    ReadOne(s.validators[1], future, 0, e, e);
    ReadOne(s.validators[2], future, 0, e, 0);
    SumOfTwo<Address>(Changes(s.validators, future, 0, e), 1, 2);
    assert AllRetain(future, 0, s, e) && !AgreesAt(future, 0, s, e);
  }

  lemma NoPastStep(future: nat)
    ensures var op := if future == 0 then Change(1, 1, 0) else SlashOf(1, future);
            var left := if future == 0 then 1 else 0;
            && Enabled(future, BASE, op) && Issued(future, 1, op)
            && Step(future, 0, BASE, op) ==
               State(1, map[1 := Single(1 + future, left), 2 := Single(0, 10)], Single(1 + future, left))
  {
    hide Update, Slashed, Built;
    if future == 0 {
      Forgets(10, 1, 0);
      Forgets(20, 1, 0);
    } else {
      SlashMade(future, BASE, 1);
      NoPastSlash(future, 10);
      NoPastSlash(future, 20);
    }
  }

  // ---- A past window shorter than the pipeline ----

  /** A handle written at every epoch: everything before its window is folded into the oldest epoch. */
  ghost predicate Moving(d: Deltas, past: nat, c: Epoch, sum: int) {
    && Kept(d, past) && d.lastUpdate == Some(c) && d.oldest == Some(Monus(c, past)) && d.oldest.value in d.data
    && (forall k | k in d.data :: k <= c)
    && SumUpTo(d.data, c) == sum
  }

  lemma MovesOn(d: Deltas, past: nat, c: Epoch, sum: int, delta: int)
    requires 1 <= past && Moving(d, past, c, sum)
    ensures Moving(Update(d, past, delta, c + 1, 0), past, c + 1, sum + delta)
  {
    hide SumUpTo, Fold;
    UpdateIsAdd(d, past, delta, c + 1, 0);
    TrimKept(d, past, c + 1);
    AddStep(d, past, Addition(delta, c + 1, 0));
    AddSum(d, past, Addition(delta, c + 1, 0), c + 1);
    SumSettles(d.data, c, c + 1);
    OldestMoves(d, past, c, sum);
  }

  lemma OldestMoves(d: Deltas, past: nat, c: Epoch, sum: int)
    requires 1 <= past && Moving(d, past, c, sum)
    ensures Trim(d, past, c + 1).oldest == Some(Monus(c + 1, past)) && Monus(c + 1, past) in Trim(d, past, c + 1).data
  {
    hide SumUpTo;
    if Monus(c, past) < Monus(c + 1, past) {
      assert d.oldest.value in E.Between(d.data, d.oldest.value, Monus(c + 1, past));
    }
  }

  lemma {:induction false} RewrittenMoves(d: Deltas, past: nat, c: Epoch, n: Epoch, sum: int)
    requires 1 <= past && c <= n && Moving(d, past, c, sum)
    ensures Moving(Rewritten(d, past, c, n), past, n, sum)
    decreases n - c
  {
    hide Moving, Update;
    if c < n {
      MovesOn(d, past, c, sum, 0);
      RewrittenMoves(Update(d, past, 0, c + 1, 0), past, c + 1, n, sum);
    }
  }

  lemma ShortSlash(future: nat, past: nat, before: int)
    requires 1 <= past
    ensures Moving(Slashed(Single(0, before), past, Ones(1 + future)), past, 1 + future, before - 1)
  {
    hide Update, Slashed, Rewritten;
    SingleMoves(past, before);
    MovesOn(Single(0, before), past, 0, before, -1);
    SlashOnes(Single(0, before), past, 1 + future);
    RewrittenMoves(Update(Single(0, before), past, -1, 1, 0), past, 1, 1 + future, before - 1);
  }

  lemma SingleMoves(past: nat, before: int)
    ensures Moving(Single(0, before), past, 0, before)
  {
    assert Below(map[0 := before], 0, 1) == map[0 := before];
    SumOfOne<Epoch>(map[0 := before], 0);
  }

  /** An update where the oldest epoch is already past everything that could be trimmed. */
  lemma {:induction false} RewrittenStays(d: Deltas, past: nat, c: Epoch, n: Epoch)
    requires c <= n && d.lastUpdate == Some(c) && d.oldest == Some(Monus(n, past))
    ensures var after := Rewritten(d, past, c, n);
            && after.lastUpdate == Some(n) && after.oldest == d.oldest
            && forall k: Epoch :: GetInt(after.data, k) == GetInt(d.data, k)
    decreases n - c
  {
    hide Update;
    if c < n {
      UpdateKeeps(d, past, 0, c + 1, 0);
      RewrittenStays(Update(d, past, 0, c + 1, 0), past, c + 1, n);
    }
  }

  /** The total has moved its oldest epoch past epoch 1 when the second validator is slashed there; the delta stays behind
      and is not read. */
  lemma BehindSlash(future: nat, past: nat, d: Deltas, sum: int)
    requires 1 <= past < future && Moving(d, past, 1 + future, sum)
    ensures var after := Slashed(d, past, Ones(1 + future));
            && after.lastUpdate == Some(1 + future) && after.oldest == d.oldest
            && ReadChange(after, future, past, 1 + future) == sum
  {
    hide Update, Slashed, SumUpTo, ReadSum;
    var n := 1 + future;
    var first := Update(d, past, -1, 1, 0);
    SlashOnes(d, past, n);
    UpdateKeeps(d, past, -1, 1, 0);
    RewrittenStays(first, past, 1, n);
    var after := Slashed(d, past, Ones(n));
    SameRead(d, after, future, past, n);
    ReadIsSum(d, future, past, n);
  }

  /** Handles with the same deltas in the window that is read. */
  lemma SameRead(a: Deltas, b: Deltas, future: nat, past: nat, n: Epoch)
    requires a.lastUpdate == Some(n) && b.lastUpdate == Some(n)
    requires forall k: Epoch | Monus(n, past) <= k :: GetInt(a.data, k) == GetInt(b.data, k)
    ensures ReadChange(a, future, past, n) == ReadChange(b, future, past, n)
  {
    RangeIsSum(a.data, Monus(n, past), n + 1);
    RangeIsSum(b.data, Monus(n, past), n + 1);
    SameSums(a.data, b.data, Monus(n, past), n + 1);
  }

  lemma {:induction false} SameSums(a: map<Epoch, int>, b: map<Epoch, int>, from: Epoch, end: Epoch)
    requires from <= end && forall k: Epoch | from <= k :: GetInt(a, k) == GetInt(b, k)
    ensures SumBetween(a, from, end) == SumBetween(b, from, end)
    decreases end - from
  {
    hide SumBetween;
    if from == end {
      NoSum(a, from);
      NoSum(b, from);
    } else {
      SameSums(a, b, from, end - 1);
      SumNext(a, from, end - 1);
      SumNext(b, from, end - 1);
    }
  }

  lemma NoSum(m: map<Epoch, int>, e: Epoch)
    ensures SumBetween(m, e, e) == 0
  {
    assert Below(m, e, e) == map[];
  }

  lemma MovingRead(future: nat, past: nat, d: Deltas, n: Epoch, sum: int)
    requires Moving(d, past, n, sum)
    ensures ReadChange(d, future, past, n) == sum
  {
    hide SumUpTo, ReadSum;
    ReadIsSum(d, future, past, n);
  }

  /** The stakes then read as 9 and 9, and the total as 19: the slash of the second validator is lost. */
  lemma ShortPastBreaks(future: nat, past: nat)
    requires 1 <= past < future
    ensures !TotalsAgree(future, past)
  {
    hide ReadChange, Slashed, Legal, After, AllIssued, SumUpTo, Enabled, Issued;
    var n := 1 + future;
    Base(future, past);
    ShortSlash(future, past, 10);
    ShortSlash(future, past, 20);
    SlashMade(future, BASE, 1);
    Push(future, past, START, SlashOf(1, future));
    var one := After(future, past, START + [SlashOf(1, future)]);
    SlashMade(future, one, 2);
    Push(future, past, START + [SlashOf(1, future)], SlashOf(2, future));
    var run := START + [SlashOf(1, future)] + [SlashOf(2, future)];
    var s := After(future, past, run);
    BehindSlash(future, past, one.total, 19);
    MovingRead(future, past, s.validators[1], n, 9);
    MovingRead(future, past, s.validators[2], n, 9);
    SumOfTwo<Address>(Changes(s.validators, future, past, n), 1, 2);
    assert AllRetain(future, past, s, n) && !AgreesAt(future, past, s, n);
  }

  /** The total stake is the sum of the stakes, over every run and at every retained epoch, if and only if at least one past
      epoch is kept and at least as many as the pipeline is long. */
  lemma TotalsAgreeExactly(future: nat, past: nat)
    ensures TotalsAgree(future, past) <==> 1 <= past && future <= past
  {
    hide Legal, After, AllIssued, AllRetain, ReadChange, Changes;
    if past == 0 {
      NoPastBreaks(future);
    } else if past < future {
      ShortPastBreaks(future, past);
    } else {
      forall ops: seq<Op>, e: Epoch
        | Legal(future, past, ops) && AllIssued(future, ops) && AllRetain(future, past, After(future, past, ops), e)
        ensures AgreesAt(future, past, After(future, past, ops), e)
      {
        TotalIsSum(future, past, ops, e);
      }
    }
  }
}
