/** Fetching: catching up with the ledger, for known keys and new ones. */
module ShieldedFetch {
  import opened Types
  import opened Shielded

  // ---- What a fetch computes ----

  /** How far the fetched transactions reach into what the context has already seen. */
  function Level(c: Context, txs: seq<Tx>): nat {
    Min(c.lastTxIdx, |txs|)
  }

  /** `fetch`, given all transactions of the ledger: old ones are scanned for unknown keys only, new ones for all. */
  function Fetch(c: Context, chain: Chain, keys: set<ViewingKey>, txs: seq<Tx>): Context {
    var unknown := keys - c.posMap.Keys;
    var k := Level(c, txs);
    ScanAll(if unknown == {} then c else Merge(c, ScanAll(Fresh(unknown), chain, txs[..k])), chain, txs[k..])
  }

  lemma {:induction false} ScanAllConcat(c: Context, chain: Chain, a: seq<Tx>, b: seq<Tx>)
    ensures ScanAll(c, chain, a + b) == ScanAll(ScanAll(c, chain, a), chain, b)
    decreases |b|
  {
    hide ScanTx;
    if b == [] {
      assert a + b == a;
    } else {
      var before := b[..|b| - 1];
      ScanAllConcat(c, chain, a, before);
      assert (a + b)[..|a + b| - 1] == a + before;
    }
  }

  lemma Associate<T>(a: seq<T>, b: seq<T>, c: seq<T>)
    ensures (a + b) + c == a + (b + c)
  {
  }

  lemma {:induction false} OutputsConcat(a: seq<Tx>, b: seq<Tx>)
    ensures Outputs(a + b) == Outputs(a) + Outputs(b)
    decreases |b|
  {
    if b == [] {
      assert a + b == a;
    } else {
      var before, last := b[..|b| - 1], b[|b| - 1];
      OutputsConcat(a, before);
      assert (a + b)[..|a + b| - 1] == a + before && (a + b)[|a + b| - 1] == last;
      Associate(Outputs(a), Outputs(before), last.outputs);
    }
  }

  lemma {:induction false} OutputsStep(w: Work, chain: Chain, os: seq<Output>)
    ensures var c := ScanOutputs(w, chain, os).ctx; c.lastTxIdx == w.ctx.lastTxIdx && c.posMap.Keys == w.ctx.posMap.Keys
    decreases |os|
  {
    if os != [] {
      hide Credit, Learn, AppendAll;
      OutputsStep(w, chain, os[..|os| - 1]);
    }
  }

  lemma {:induction false} SpendsStep(w: Work, chain: Chain, nfs: seq<Nullifier>)
    ensures var c := ScanSpends(w, chain, nfs).ctx; c.lastTxIdx == w.ctx.lastTxIdx && c.posMap == w.ctx.posMap
    decreases |nfs|
  {
    if nfs != [] {
      hide Credit, Learn;
      SpendsStep(w, chain, nfs[..|nfs| - 1]);
    }
  }

  /** A scan counts its transactions and keeps the tracked keys. */
  lemma {:induction false} ScanAllCounts(c: Context, chain: Chain, txs: seq<Tx>)
    ensures ScanAll(c, chain, txs).lastTxIdx == c.lastTxIdx + |txs|
    ensures ScanAll(c, chain, txs).posMap.Keys == c.posMap.Keys
    decreases |txs|
  {
    if txs != [] {
      hide ScanOutputs, ScanSpends;
      var before, tx := txs[..|txs| - 1], txs[|txs| - 1];
      ScanAllCounts(c, chain, before);
      var w := Work(ScanAll(c, chain, before), map[]);
      OutputsStep(w, chain, tx.outputs);
      SpendsStep(ScanOutputs(w, chain, tx.outputs), chain, tx.spends);
    }
  }

  ghost predicate Independent(txs: seq<Tx>, keys: set<ViewingKey>, chain: Chain) {
    OneOpener(Outputs(txs), keys) && NullifiersDistinct(Outputs(txs), keys, chain)
  }

  lemma IndependentPrefix(txs: seq<Tx>, n: nat, keys: set<ViewingKey>, chain: Chain)
    requires n <= |txs| && Independent(txs, keys, chain)
    ensures Independent(txs[..n], keys, chain)
  {
    hide OneOpener, NullifiersDistinct, Outputs;
    OutputsConcat(txs[..n], txs[n..]);
    assert txs == txs[..n] + txs[n..];
    OneOpenerPrefix(Outputs(txs[..n]), Outputs(txs[n..]), keys);
    NullifiersPrefix(Outputs(txs[..n]), Outputs(txs[n..]), keys, chain);
  }

  lemma FewerKeys(txs: seq<Tx>, keys: set<ViewingKey>, fewer: set<ViewingKey>, chain: Chain)
    requires fewer <= keys && Independent(txs, keys, chain)
    ensures Independent(txs, fewer, chain)
  {
  }

  /** A fetch brings a context that is one scan of a prefix to one scan of everything, with the new keys included. */
  lemma FetchIsFullScan(known: set<ViewingKey>, keys: set<ViewingKey>, chain: Chain, txs: seq<Tx>, n: nat)
    requires n <= |txs| && Independent(txs, known + keys, chain)
    ensures Fetch(ScanAll(Fresh(known), chain, txs[..n]), chain, keys, txs) == ScanAll(Fresh(known + keys), chain, txs)
  {
    hide ScanAll, Merge, Independent, Outputs;
    var c := ScanAll(Fresh(known), chain, txs[..n]);
    ScanAllCounts(Fresh(known), chain, txs[..n]);
    assert Fresh(known).posMap.Keys == known;
    assert c.posMap.Keys == known && Level(c, txs) == n;
    var unknown := keys - known;
    assert known + unknown == known + keys;
    IndependentPrefix(txs, n, known + keys, chain);
    if unknown == {} {
      assert known + keys == known;
    } else {
      MergedPrefix(known, unknown, chain, txs[..n]);
    }
    ScanAllConcat(Fresh(known + keys), chain, txs[..n], txs[n..]);
    assert txs[..n] + txs[n..] == txs;
  }

  lemma MergedPrefix(known: set<ViewingKey>, unknown: set<ViewingKey>, chain: Chain, txs: seq<Tx>)
    requires known !! unknown && Independent(txs, known + unknown, chain)
    ensures Merge(ScanAll(Fresh(known), chain, txs), ScanAll(Fresh(unknown), chain, txs)) ==
            ScanAll(Fresh(known + unknown), chain, txs)
  {
    hide ScanAll, Merge, OneOpener, NullifiersDistinct;
    MergeIsFullScan(known, unknown, chain, txs);
  }

  // ---- Runs of fetches ----

  /** A fetch with some keys, when the ledger has this many transactions. */
  datatype Request = Request(keys: set<ViewingKey>, length: nat)

  function Requested(rs: seq<Request>): set<ViewingKey> {
    if rs == [] then {} else Requested(rs[..|rs| - 1]) + rs[|rs| - 1].keys
  }

  function FetchAll(chain: Chain, txs: seq<Tx>, rs: seq<Request>): Context
    requires forall i | 0 <= i < |rs| :: rs[i].length <= |txs|
  {
    if rs == [] then Fresh({})
    else
      var r := rs[|rs| - 1];
      Fetch(FetchAll(chain, txs, rs[..|rs| - 1]), chain, r.keys, txs[..r.length])
  }

  /** However the keys are added over time while the ledger grows, the context is always that of one scan of the ledger with
      all keys requested so far. */
  lemma {:induction false} FetchesAreOneScan(chain: Chain, txs: seq<Tx>, rs: seq<Request>)
    requires forall i | 0 <= i < |rs| :: rs[i].length <= |txs|
    requires forall i, j | 0 <= i < j < |rs| :: rs[i].length <= rs[j].length
    requires Independent(txs, Requested(rs), chain)
    ensures FetchAll(chain, txs, rs) ==
            ScanAll(Fresh(Requested(rs)), chain, txs[..if rs == [] then 0 else rs[|rs| - 1].length])
    decreases |rs|
  {
    hide ScanAll, Fetch, Independent;
    if rs == [] {
      NothingScanned(chain);
    } else {
      var before, r := rs[..|rs| - 1], rs[|rs| - 1];
      FewerKeys(txs, Requested(rs), Requested(before), chain);
      FetchesAreOneScan(chain, txs, before);
      var n := if before == [] then 0 else before[|before| - 1].length;
      assert n <= r.length;
      IndependentPrefix(txs, r.length, Requested(rs), chain);
      FetchIsFullScan(Requested(before), r.keys, chain, txs[..r.length], n);
      assert txs[..r.length][..n] == txs[..n];
    }
  }

  lemma NothingScanned(chain: Chain)
    ensures ScanAll(Fresh({}), chain, []) == Fresh({})
  {
  }
}
