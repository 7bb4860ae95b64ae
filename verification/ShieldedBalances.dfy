/** What a scan says is spent and owned, in terms of the outputs and of the nullifiers that the transactions reveal. */
module ShieldedBalances {
  import opened Types
  import opened FiniteSums
  import opened Shielded

  // ---- Which note a nullifier is of ----

  /** The output at a position is a note of a tracked key with this nullifier. */
  predicate HasNullifier(o: Output, p: nat, keys: set<ViewingKey>, chain: Chain, nf: Nullifier) {
    OpenerOpens(keys, o);
    var vk := Opener(keys, o);
    vk.Some? && chain.nullifier(o.opens[vk.value].note, vk.value, p) == nf
  }

  /** The last such output. */
  function HolderOf(outs: seq<Output>, keys: set<ViewingKey>, chain: Chain, nf: Nullifier): (r: Option<nat>)
    ensures r.Some? ==> r.value < |outs| && HasNullifier(outs[r.value], r.value, keys, chain, nf)
    ensures forall p | (if r.Some? then r.value + 1 else 0) <= p < |outs| :: !HasNullifier(outs[p], p, keys, chain, nf)
  {
    if outs == [] then None
    else if HasNullifier(outs[|outs| - 1], |outs| - 1, keys, chain, nf) then Some(|outs| - 1)
    else HolderOf(outs[..|outs| - 1], keys, chain, nf)
  }

  /** The value that the note at a position has for a key in a token; asset types that the client does not know have none. */
  function Value(keys: set<ViewingKey>, chain: Chain, o: Output, vk: ViewingKey, token: Token): nat {
    OpenerOpens(keys, o);
    if Opener(keys, o) == Some(vk) && o.opens[vk].note.asset in chain.assets && chain.assets[o.opens[vk].note.asset] == token
    then o.opens[vk].note.value else 0
  }

  function Received(keys: set<ViewingKey>, chain: Chain, os: seq<Output>, vk: ViewingKey, token: Token): nat {
    if os == [] then 0
    else Received(keys, chain, os[..|os| - 1], vk, token) + Value(keys, chain, os[|os| - 1], vk, token)
  }

  /** The value of the notes whose nullifiers are revealed, given all outputs so far. */
  function Spent(keys: set<ViewingKey>, chain: Chain, outs: seq<Output>, nfs: seq<Nullifier>, vk: ViewingKey,
                 token: Token): nat {
    if nfs == [] then 0
    else
      var holder := HolderOf(outs, keys, chain, nfs[|nfs| - 1]);
      Spent(keys, chain, outs, nfs[..|nfs| - 1], vk, token) +
      if holder.Some? then Value(keys, chain, outs[holder.value], vk, token) else 0
  }

  function SpentPositions(keys: set<ViewingKey>, chain: Chain, outs: seq<Output>, nfs: seq<Nullifier>): set<nat> {
    if nfs == [] then {}
    else
      var holder := HolderOf(outs, keys, chain, nfs[|nfs| - 1]);
      SpentPositions(keys, chain, outs, nfs[..|nfs| - 1]) + if holder.Some? then {holder.value} else {}
  }

  function BalanceIn(delta: TransactionDelta, vk: ViewingKey, token: Token): int {
    GetInt(BalanceOf(delta, vk), token)
  }

  // ---- Crediting a note ----

  lemma AddedAmount(balance: Balance, token: Token, change: int, other: Token)
    ensures GetInt(AddAmount(balance, token, change), other) ==
            GetInt(balance, other) + if other == token then change else 0
  {
  }

  /** A credit changes the balance of its key in the token of the note, and nothing else. */
  lemma Credited(w: Work, chain: Chain, u: ViewingKey, note: Note, sign: int, vk: ViewingKey, token: Token)
    requires Cached(w.ctx, chain)
    ensures var after := Credit(w.delta, Learn(w.ctx.assetTypes, chain, note.asset), u, note, sign);
            BalanceIn(after, vk, token) == BalanceIn(w.delta, vk, token) +
              if u == vk && note.asset in chain.assets && chain.assets[note.asset] == token then sign * note.value else 0
  {
    var known := Learn(w.ctx.assetTypes, chain, note.asset);
    assert note.asset in known <==> note.asset in chain.assets;
    if note.asset in known {
      assert known[note.asset] == chain.assets[note.asset];
      AddedAmount(BalanceOf(w.delta, u), known[note.asset], sign * note.value, token);
    }
  }

  // ---- What a context knows ----

  /** The nullifier map names the holder of every nullifier. */
  ghost predicate Indexed(c: Context, keys: set<ViewingKey>, outs: seq<Output>, chain: Chain) {
    forall nf: Nullifier :: IndexedAt(c, keys, outs, chain, nf)
  }

  ghost predicate IndexedAt(c: Context, keys: set<ViewingKey>, outs: seq<Output>, chain: Chain, nf: Nullifier) {
    HolderOf(outs, keys, chain, nf) == if nf in c.nfMap then Some(c.nfMap[nf]) else None
  }

  ghost predicate Knows(c: Context, keys: set<ViewingKey>, outs: seq<Output>, chain: Chain) {
    Records(c, keys, outs) && Indexed(c, keys, outs, chain) && Cached(c, chain)
  }

  lemma HolderNext(outs: seq<Output>, keys: set<ViewingKey>, chain: Chain, nf: Nullifier, o: Output)
    ensures HolderOf(outs + [o], keys, chain, nf) ==
            if HasNullifier(o, |outs|, keys, chain, nf) then Some(|outs|) else HolderOf(outs, keys, chain, nf)
  {
    hide HasNullifier;
    assert (outs + [o])[..|outs|] == outs;
  }

  lemma ScanOutputNullifiers(w: Work, chain: Chain, o: Output)
    ensures var keys, r := w.ctx.posMap.Keys, ScanOutput(w, chain, o).ctx;
            var vk := Opener(keys, o);
            && (vk.None? ==> r.nfMap == w.ctx.nfMap)
            && (vk.Some? ==>
                  && vk.value in o.opens
                  && r.nfMap == w.ctx.nfMap[chain.nullifier(o.opens[vk.value].note, vk.value, |w.ctx.tree|) := |w.ctx.tree|])
  {
    hide Credit, Learn, Opener;
    OpenerOpens(w.ctx.posMap.Keys, o);
  }

  lemma ScanOutputIndexed(w: Work, keys: set<ViewingKey>, outs: seq<Output>, chain: Chain, o: Output, nf: Nullifier)
    requires |w.ctx.tree| == |outs| && w.ctx.posMap.Keys == keys && IndexedAt(w.ctx, keys, outs, chain, nf)
    ensures IndexedAt(ScanOutput(w, chain, o).ctx, keys, outs + [o], chain, nf)
  {
    hide HolderOf, Opener, ScanOutput;
    HolderNext(outs, keys, chain, nf, o);
    ScanOutputNullifiers(w, chain, o);
  }

  lemma LearnCached(known: map<Asset, Token>, chain: Chain, asset: Asset)
    requires forall x | x in known :: x in chain.assets && known[x] == chain.assets[x]
    ensures forall x | x in Learn(known, chain, asset) :: x in chain.assets && Learn(known, chain, asset)[x] == chain.assets[x]
  {
  }

  lemma ScanOutputCached(w: Work, chain: Chain, o: Output)
    requires Cached(w.ctx, chain)
    ensures Cached(ScanOutput(w, chain, o).ctx, chain) && ScanOutput(w, chain, o).ctx.spents == w.ctx.spents
    ensures ScanOutput(w, chain, o).ctx.deltaMap == w.ctx.deltaMap
  {
    hide Credit, Opener, Learn;
    OpenerOpens(w.ctx.posMap.Keys, o);
    var vk := Opener(w.ctx.posMap.Keys, o);
    if vk.Some? {
      LearnCached(w.ctx.assetTypes, chain, o.opens[vk.value].note.asset);
    }
  }

  lemma ScanOutputBalance(w: Work, chain: Chain, o: Output, vk: ViewingKey, token: Token)
    requires Cached(w.ctx, chain)
    ensures BalanceIn(ScanOutput(w, chain, o).delta, vk, token) ==
            BalanceIn(w.delta, vk, token) + Value(w.ctx.posMap.Keys, chain, o, vk, token)
  {
    hide Credit, Learn, Opener, BalanceIn;
    var keys := w.ctx.posMap.Keys;
    OpenerOpens(keys, o);
    var u := Opener(keys, o);
    if u.Some? {
      var note := o.opens[u.value].note;
      Credited(w.(ctx := Extend(w.ctx, o)), chain, u.value, note, 1, vk, token);
    }
  }

  lemma ScanOutputKnows(w: Work, keys: set<ViewingKey>, outs: seq<Output>, chain: Chain, o: Output)
    requires Knows(w.ctx, keys, outs, chain)
    ensures Knows(ScanOutput(w, chain, o).ctx, keys, outs + [o], chain)
  {
    hide IndexedAt, RecordedAt, ScanOutput, Cached;
    ScanOutputRecords(w, keys, outs, chain, o);
    ScanOutputCached(w, chain, o);
    forall nf: Nullifier ensures IndexedAt(ScanOutput(w, chain, o).ctx, keys, outs + [o], chain, nf) {
      ScanOutputIndexed(w, keys, outs, chain, o, nf);
    }
  }

  lemma KnowsKeys(c: Context, keys: set<ViewingKey>, outs: seq<Output>, chain: Chain)
    requires Knows(c, keys, outs, chain)
    ensures c.posMap.Keys == keys && Cached(c, chain) && |c.tree| == |outs|
  {
  }

  /** The outputs of a transaction: every balance grows by what is received. */
  lemma {:induction false} ScanOutputsKnow(w: Work, keys: set<ViewingKey>, outs: seq<Output>, chain: Chain,
                                           os: seq<Output>)
    requires Knows(w.ctx, keys, outs, chain)
    ensures var r := ScanOutputs(w, chain, os);
            && Knows(r.ctx, keys, outs + os, chain) && r.ctx.spents == w.ctx.spents && r.ctx.deltaMap == w.ctx.deltaMap
            && forall vk, token ::
                 BalanceIn(r.delta, vk, token) == BalanceIn(w.delta, vk, token) + Received(keys, chain, os, vk, token)
    decreases |os|
  {
    hide Knows, ScanOutput, BalanceIn, Value;
    if os == [] {
      assert outs + os == outs;
    } else {
      var before, o := os[..|os| - 1], os[|os| - 1];
      ScanOutputsKnow(w, keys, outs, chain, before);
      var b := ScanOutputs(w, chain, before);
      KnowsKeys(b.ctx, keys, outs + before, chain);
      ScanOutputKnows(b, keys, outs + before, chain, o);
      ScanOutputCached(b, chain, o);
      assert outs + before + [o] == outs + os;
      forall vk, token
        ensures BalanceIn(ScanOutputs(w, chain, os).delta, vk, token) ==
                BalanceIn(w.delta, vk, token) + Received(keys, chain, os, vk, token)
      {
        ScanOutputBalance(b, chain, o, vk, token);
      }
    }
  }

  // ---- Spends ----

  lemma ScanSpendKnows(w: Work, keys: set<ViewingKey>, outs: seq<Output>, chain: Chain, nf: Nullifier)
    requires Knows(w.ctx, keys, outs, chain)
    ensures var r, holder := ScanSpend(w, chain, nf), HolderOf(outs, keys, chain, nf);
            && Knows(r.ctx, keys, outs, chain) && r.ctx.deltaMap == w.ctx.deltaMap
            && r.ctx.spents == w.ctx.spents + if holder.Some? then {holder.value} else {}
  {
    hide Credit, Learn, RecordedAt, IndexedAt, Cached, HolderOf;
    SpendCached(w, chain, nf);
    HolderRecorded(w.ctx, keys, outs, chain, nf);
    var r := ScanSpend(w, chain, nf).ctx;
    forall p: nat ensures RecordedAt(r, keys, outs, p) {
      SameRecord(w.ctx, r, keys, outs, p);
    }
    forall n: Nullifier ensures IndexedAt(r, keys, outs, chain, n) {
      SameIndex(w.ctx, r, keys, outs, chain, n);
    }
  }

  lemma SameIndex(a: Context, b: Context, keys: set<ViewingKey>, outs: seq<Output>, chain: Chain, nf: Nullifier)
    requires a.nfMap == b.nfMap && IndexedAt(a, keys, outs, chain, nf)
    ensures IndexedAt(b, keys, outs, chain, nf)
  {
  }

  /** The holder of a nullifier is recorded with its key and its note. */
  lemma HolderRecorded(c: Context, keys: set<ViewingKey>, outs: seq<Output>, chain: Chain, nf: Nullifier)
    requires Knows(c, keys, outs, chain)
    ensures var holder := HolderOf(outs, keys, chain, nf);
            && (nf in c.nfMap <==> holder.Some?)
            && (nf in c.nfMap ==>
                  var p := c.nfMap[nf];
                  && holder == Some(p) && p < |outs| && p in c.vkMap && p in c.noteMap
                  && Opener(keys, outs[p]) == Some(c.vkMap[p]) && c.vkMap[p] in outs[p].opens
                  && outs[p].opens[c.vkMap[p]].note == c.noteMap[p])
  {
    hide HolderOf, Cached, Opener;
    assert IndexedAt(c, keys, outs, chain, nf);
    if nf in c.nfMap {
      assert RecordedAt(c, keys, outs, c.nfMap[nf]);
    }
  }

  lemma ScanSpendBalance(w: Work, keys: set<ViewingKey>, outs: seq<Output>, chain: Chain, nf: Nullifier, vk: ViewingKey,
                         token: Token)
    requires Knows(w.ctx, keys, outs, chain)
    ensures var holder := HolderOf(outs, keys, chain, nf);
            BalanceIn(ScanSpend(w, chain, nf).delta, vk, token) ==
            BalanceIn(w.delta, vk, token) - if holder.Some? then Value(keys, chain, outs[holder.value], vk, token) else 0
  {
    hide Credit, Learn, Opener, BalanceIn, HolderOf, Records, Indexed;
    HolderRecorded(w.ctx, keys, outs, chain, nf);
    if nf in w.ctx.nfMap {
      var p := w.ctx.nfMap[nf];
      Credited(w, chain, w.ctx.vkMap[p], w.ctx.noteMap[p], -1, vk, token);
    }
  }

  /** The spends of a transaction: their notes are marked and every balance falls by their value. */
  lemma {:induction false} ScanSpendsKnow(w: Work, keys: set<ViewingKey>, outs: seq<Output>, chain: Chain,
                                          nfs: seq<Nullifier>)
    requires Knows(w.ctx, keys, outs, chain)
    ensures var r := ScanSpends(w, chain, nfs);
            && Knows(r.ctx, keys, outs, chain) && r.ctx.deltaMap == w.ctx.deltaMap
            && r.ctx.spents == w.ctx.spents + SpentPositions(keys, chain, outs, nfs)
            && forall vk, token ::
                 BalanceIn(r.delta, vk, token) == BalanceIn(w.delta, vk, token) - Spent(keys, chain, outs, nfs, vk, token)
    decreases |nfs|
  {
    hide Knows, ScanSpend, BalanceIn, Value, HolderOf;
    if nfs != [] {
      var before, nf := nfs[..|nfs| - 1], nfs[|nfs| - 1];
      ScanSpendsKnow(w, keys, outs, chain, before);
      var b := ScanSpends(w, chain, before);
      ScanSpendKnows(b, keys, outs, chain, nf);
      forall vk, token
        ensures BalanceIn(ScanSpends(w, chain, nfs).delta, vk, token) ==
                BalanceIn(w.delta, vk, token) - Spent(keys, chain, outs, nfs, vk, token)
      {
        ScanSpendBalance(b, keys, outs, chain, nf, vk, token);
      }
    }
  }

  // ---- Transactions ----

  /** One transaction: what it spends is marked, and its delta is what it brings less what it spends. */
  lemma ScanTxKnows(c: Context, keys: set<ViewingKey>, outs: seq<Output>, chain: Chain,
                    tx: Tx) returns (d: TransactionDelta)
    requires Knows(c, keys, outs, chain)
    ensures var r, all := ScanTx(c, chain, tx), outs + tx.outputs;
            && Knows(r, keys, all, chain)
            && r.spents == c.spents + SpentPositions(keys, chain, all, tx.spends)
            && r.deltaMap == c.deltaMap[tx.id := Delta(tx.epoch, TransferDelta(tx), d)]
            && forall vk, token ::
                 BalanceIn(d, vk, token) ==
                 Received(keys, chain, tx.outputs, vk, token) - Spent(keys, chain, all, tx.spends, vk, token)
  {
    hide Knows, ScanOutputs, ScanSpends, SpentPositions, Spent, Received;
    var w := Work(c, map[]);
    ScanOutputsKnow(w, keys, outs, chain, tx.outputs);
    var o := ScanOutputs(w, chain, tx.outputs);
    ScanSpendsKnow(o, keys, outs + tx.outputs, chain, tx.spends);
    var r := ScanSpends(o, chain, tx.spends);
    FinishKnows(r, tx, keys, outs + tx.outputs, chain);
    d := r.delta;
  }

  lemma FinishKnows(w: Work, tx: Tx, keys: set<ViewingKey>, outs: seq<Output>, chain: Chain)
    requires Knows(w.ctx, keys, outs, chain)
    ensures Knows(Finish(w, tx), keys, outs, chain)
  {
    hide RecordedAt, IndexedAt;
    FinishRecords(w, tx, keys, outs);
    forall nf: Nullifier ensures IndexedAt(Finish(w, tx), keys, outs, chain, nf) {
      SameIndex(w.ctx, Finish(w, tx), keys, outs, chain, nf);
    }
  }

  lemma FreshKnows(keys: set<ViewingKey>, chain: Chain)
    ensures Knows(Fresh(keys), keys, [], chain)
  {
    FreshRecords(keys);
  }

  function AllSpent(keys: set<ViewingKey>, chain: Chain, txs: seq<Tx>): set<nat> {
    if txs == [] then {}
    else AllSpent(keys, chain, txs[..|txs| - 1]) + SpentPositions(keys, chain, Outputs(txs), txs[|txs| - 1].spends)
  }

  lemma {:induction false} ScanKnows(keys: set<ViewingKey>, chain: Chain, txs: seq<Tx>)
    ensures Knows(ScanAll(Fresh(keys), chain, txs), keys, Outputs(txs), chain)
    ensures ScanAll(Fresh(keys), chain, txs).spents == AllSpent(keys, chain, txs)
    decreases |txs|
  {
    hide Knows, ScanTx, SpentPositions;
    if txs == [] {
      FreshKnows(keys, chain);
    } else {
      var before, tx := txs[..|txs| - 1], txs[|txs| - 1];
      ScanKnows(keys, chain, before);
      var d := ScanTxKnows(ScanAll(Fresh(keys), chain, before), keys, Outputs(before), chain, tx);
    }
  }

  // ---- Spent notes ----

  /** The nullifier of the note at this position is revealed by one of the spends. */
  ghost predicate Reveals(keys: set<ViewingKey>, chain: Chain, outs: seq<Output>, nfs: seq<Nullifier>, p: nat) {
    exists k :: 0 <= k < |nfs| && HolderOf(outs, keys, chain, nfs[k]) == Some(p)
  }

  lemma {:induction false} SpentPositionsAre(keys: set<ViewingKey>, chain: Chain, outs: seq<Output>,
                                             nfs: seq<Nullifier>, p: nat)
    ensures p in SpentPositions(keys, chain, outs, nfs) <==> Reveals(keys, chain, outs, nfs, p)
    decreases |nfs|
  {
    hide HolderOf;
    if nfs != [] {
      var before := nfs[..|nfs| - 1];
      SpentPositionsAre(keys, chain, outs, before, p);
      if k :| 0 <= k < |nfs| && HolderOf(outs, keys, chain, nfs[k]) == Some(p) {
        assert k < |before| ==> before[k] == nfs[k];
      }
      if k :| 0 <= k < |before| && HolderOf(outs, keys, chain, before[k]) == Some(p) {
        assert nfs[k] == before[k];
      }
      assert nfs[|nfs| - 1] == nfs[|before|];
    }
  }

  /** After any scan a position is spent exactly if some transaction reveals a nullifier whose note, among the outputs up to
      and with that transaction, is the one at this position. */
  lemma {:induction false} SpentExactly(keys: set<ViewingKey>, chain: Chain, txs: seq<Tx>, p: nat)
    ensures p in ScanAll(Fresh(keys), chain, txs).spents <==>
            exists j :: 0 <= j < |txs| && Reveals(keys, chain, Outputs(txs[..j + 1]), txs[j].spends, p)
    decreases |txs|
  {
    hide ScanAll, Reveals, SpentPositions, Outputs;
    ScanKnows(keys, chain, txs);
    if txs != [] {
      var n := |txs| - 1;
      var before := txs[..n];
      SpentExactly(keys, chain, before, p);
      ScanKnows(keys, chain, before);
      SpentPositionsAre(keys, chain, Outputs(txs), txs[n].spends, p);
      assert txs[..n + 1] == txs;
      forall j | 0 <= j < n ensures before[..j + 1] == txs[..j + 1] && before[j] == txs[j] {
      }
      if p in AllSpent(keys, chain, before) {
        var j :| 0 <= j < |before| && Reveals(keys, chain, Outputs(before[..j + 1]), before[j].spends, p);
        assert Reveals(keys, chain, Outputs(txs[..j + 1]), txs[j].spends, p);
      }
      if j :| 0 <= j < |txs| && Reveals(keys, chain, Outputs(txs[..j + 1]), txs[j].spends, p) {
        assert j < n ==> Reveals(keys, chain, Outputs(before[..j + 1]), before[j].spends, p);
      }
    }
  }

  // ---- Deltas ----

  /** The delta recorded for a transaction that no later one replaces: its epoch and transparent change, and for every key and
      token what it receives less what it spends. */
  lemma {:induction false} DeltaExactly(keys: set<ViewingKey>, chain: Chain, txs: seq<Tx>, j: nat, vk: ViewingKey,
                                        token: Token)
    requires j < |txs| && forall i | j < i < |txs| :: txs[i].id != txs[j].id
    ensures var deltas, tx := ScanAll(Fresh(keys), chain, txs).deltaMap, txs[j];
            && tx.id in deltas && deltas[tx.id].epoch == tx.epoch && deltas[tx.id].transfer == TransferDelta(tx)
            && BalanceIn(deltas[tx.id].transaction, vk, token) ==
               Received(keys, chain, tx.outputs, vk, token) - Spent(keys, chain, Outputs(txs[..j + 1]), tx.spends, vk, token)
    decreases |txs|
  {
    hide ScanTx, Received, Spent, Knows, BalanceIn;
    var n := |txs| - 1;
    var before := txs[..n];
    ScanKnows(keys, chain, before);
    var d := ScanTxKnows(ScanAll(Fresh(keys), chain, before), keys, Outputs(before), chain, txs[n]);
    assert txs[..n + 1] == txs;
    if j < n {
      DeltaExactly(keys, chain, before, j, vk, token);
      assert before[..j + 1] == txs[..j + 1];
    }
  }

  // ---- With different nullifiers for different notes ----

  lemma {:induction false} OutputsPrefix(txs: seq<Tx>, i: nat)
    requires i <= |txs|
    ensures Outputs(txs[..i]) <= Outputs(txs)
    decreases |txs| - i
  {
    if i == |txs| {
      assert txs[..i] == txs;
    } else {
      OutputsPrefix(txs, i + 1);
      assert txs[..i + 1][..i] == txs[..i];
    }
  }

  lemma OnlyHolder(all: seq<Output>, outs: seq<Output>, keys: set<ViewingKey>, chain: Chain, nf: Nullifier, p: nat)
    requires NullifiersDistinct(all, keys, chain) && outs <= all
    ensures HolderOf(outs, keys, chain, nf) == Some(p) <==> p < |outs| && HasNullifier(outs[p], p, keys, chain, nf)
  {
    hide HolderOf, Opener;
    var holder := HolderOf(outs, keys, chain, nf);
    if holder.Some? && p < |outs| {
      OpenerOpens(keys, all[p]);
      OpenerOpens(keys, all[holder.value]);
    }
  }

  /** If no two notes of the keys have the same nullifier: a position is spent exactly if a tracked key opens the output there
      and its nullifier is revealed by the transaction of the output or a later one. */
  lemma SpentWhenRevealed(keys: set<ViewingKey>, chain: Chain, txs: seq<Tx>, p: nat)
    requires NullifiersDistinct(Outputs(txs), keys, chain)
    ensures p in ScanAll(Fresh(keys), chain, txs).spents <==>
            exists j, k :: 0 <= j < |txs| && 0 <= k < |txs[j].spends| && p < |Outputs(txs[..j + 1])| &&
                           HasNullifier(Outputs(txs[..j + 1])[p], p, keys, chain, txs[j].spends[k])
  {
    hide ScanAll, NullifiersDistinct, HasNullifier, HolderOf, Outputs;
    SpentExactly(keys, chain, txs, p);
    forall j, k | 0 <= j < |txs| && 0 <= k < |txs[j].spends|
      ensures HolderOf(Outputs(txs[..j + 1]), keys, chain, txs[j].spends[k]) == Some(p) <==>
              p < |Outputs(txs[..j + 1])| && HasNullifier(Outputs(txs[..j + 1])[p], p, keys, chain, txs[j].spends[k])
    {
      OutputsPrefix(txs, j + 1);
      OnlyHolder(Outputs(txs), Outputs(txs[..j + 1]), keys, chain, txs[j].spends[k], p);
    }
  }

  // ---- The balance is the value of the unspent notes ----

  /** All nullifiers in the order in which they are revealed. */
  function Revealed(txs: seq<Tx>): seq<Nullifier> {
    if txs == [] then [] else Revealed(txs[..|txs| - 1]) + txs[|txs| - 1].spends
  }

  ghost predicate NoRepeat<T>(xs: seq<T>) {
    forall i, j | 0 <= i < j < |xs| :: xs[i] != xs[j]
  }

  ghost predicate UniqueIds(txs: seq<Tx>) {
    forall i, j | 0 <= i < j < |txs| :: txs[i].id != txs[j].id
  }

  /** The value of the notes that are not spent. */
  function Unspent(keys: set<ViewingKey>, chain: Chain, outs: seq<Output>, spents: set<nat>, vk: ViewingKey,
                   token: Token): nat {
    if outs == [] then 0
    else
      var p := |outs| - 1;
      Unspent(keys, chain, outs[..p], spents, vk, token) + if p in spents then 0 else Value(keys, chain, outs[p], vk, token)
  }

  ghost function Balances(deltas: map<TxId, Delta>, vk: ViewingKey, token: Token): map<TxId, int> {
    map id | id in deltas :: BalanceIn(deltas[id].transaction, vk, token)
  }

  lemma {:induction false} UnspentMore(keys: set<ViewingKey>, chain: Chain, outs: seq<Output>, os: seq<Output>,
                                       spents: set<nat>,
                                       vk: ViewingKey, token: Token)
    requires forall p | p in spents :: p < |outs|
    ensures Unspent(keys, chain, outs + os, spents, vk, token) ==
            Unspent(keys, chain, outs, spents, vk, token) + Received(keys, chain, os, vk, token)
    decreases |os|
  {
    hide Value;
    if os == [] {
      assert outs + os == outs;
    } else {
      var before := os[..|os| - 1];
      UnspentMore(keys, chain, outs, before, spents, vk, token);
      assert (outs + os)[..|outs| + |before|] == outs + before;
      assert (outs + os)[|outs| + |before|] == os[|os| - 1];
    }
  }

  lemma {:induction false} UnspentLess(keys: set<ViewingKey>, chain: Chain, outs: seq<Output>, spents: set<nat>, p: nat,
                                       vk: ViewingKey, token: Token)
    requires p < |outs| && p !in spents
    ensures Unspent(keys, chain, outs, spents + {p}, vk, token) ==
            Unspent(keys, chain, outs, spents, vk, token) - Value(keys, chain, outs[p], vk, token)
    decreases |outs|
  {
    hide Value;
    var last := |outs| - 1;
    if p < last {
      UnspentLess(keys, chain, outs[..last], spents, p, vk, token);
    } else {
      UnspentSame(keys, chain, outs[..last], spents, p, vk, token);
    }
  }

  lemma {:induction false} UnspentSame(keys: set<ViewingKey>, chain: Chain, outs: seq<Output>, spents: set<nat>, p: nat,
                                       vk: ViewingKey, token: Token)
    requires |outs| <= p
    ensures Unspent(keys, chain, outs, spents + {p}, vk, token) == Unspent(keys, chain, outs, spents, vk, token)
    decreases |outs|
  {
    hide Value;
    if outs != [] {
      UnspentSame(keys, chain, outs[..|outs| - 1], spents, p, vk, token);
    }
  }

  /** Every spent position is of a note whose nullifier was revealed. */
  ghost predicate Marked(keys: set<ViewingKey>, chain: Chain, outs: seq<Output>, spents: set<nat>,
                         revealed: seq<Nullifier>) {
    forall p | p in spents :: p < |outs| && exists nf :: nf in revealed && HasNullifier(outs[p], p, keys, chain, nf)
  }

  /** The spends of one transaction, none of them revealed before. */
  lemma {:induction false} SpendsUnspent(keys: set<ViewingKey>, chain: Chain, outs: seq<Output>, spents: set<nat>,
                                         revealed: seq<Nullifier>, nfs: seq<Nullifier>, vk: ViewingKey, token: Token)
    requires Marked(keys, chain, outs, spents, revealed) && NoRepeat(revealed + nfs)
    ensures var after := spents + SpentPositions(keys, chain, outs, nfs);
            && Marked(keys, chain, outs, after, revealed + nfs)
            && Unspent(keys, chain, outs, after, vk, token) ==
               Unspent(keys, chain, outs, spents, vk, token) - Spent(keys, chain, outs, nfs, vk, token)
    decreases |nfs|
  {
    hide HolderOf, Value, HasNullifier;
    if nfs == [] {
      assert revealed + nfs == revealed;
      assert spents + {} == spents;
    } else {
      var before, nf := nfs[..|nfs| - 1], nfs[|nfs| - 1];
      var all := revealed + nfs;
      assert all[..|all| - 1] == revealed + before && all[|all| - 1] == nf;
      assert forall i | 0 <= i < |all| - 1 :: (revealed + before)[i] == all[i];
      SpendsUnspent(keys, chain, outs, spents, revealed, before, vk, token);
      var mid := spents + SpentPositions(keys, chain, outs, before);
      var holder := HolderOf(outs, keys, chain, nf);
      if holder.Some? {
        NotYetSpent(keys, chain, outs, mid, revealed + before, nf, holder.value);
        UnspentLess(keys, chain, outs, mid, holder.value, vk, token);
        assert spents + SpentPositions(keys, chain, outs, nfs) == mid + {holder.value};
      } else {
        assert spents + SpentPositions(keys, chain, outs, nfs) == mid;
      }
      assert forall x | x in revealed + before :: x in all;
      assert nf in all;
    }
  }

  lemma NotYetSpent(keys: set<ViewingKey>, chain: Chain, outs: seq<Output>, spents: set<nat>, revealed: seq<Nullifier>,
                    nf: Nullifier, p: nat)
    requires Marked(keys, chain, outs, spents, revealed) && nf !in revealed
    requires p < |outs| && HasNullifier(outs[p], p, keys, chain, nf)
    ensures p !in spents
  {
  }

  lemma MarkedMore(keys: set<ViewingKey>, chain: Chain, outs: seq<Output>, os: seq<Output>, spents: set<nat>,
                   revealed: seq<Nullifier>)
    requires Marked(keys, chain, outs, spents, revealed)
    ensures Marked(keys, chain, outs + os, spents, revealed)
  {
    hide HasNullifier;
    assert forall p | 0 <= p < |outs| :: (outs + os)[p] == outs[p];
  }

  lemma {:induction false} DeltaIds(keys: set<ViewingKey>, chain: Chain, txs: seq<Tx>, id: TxId)
    requires id in ScanAll(Fresh(keys), chain, txs).deltaMap
    ensures exists j :: 0 <= j < |txs| && txs[j].id == id
    decreases |txs|
  {
    hide ScanTx, Knows;
    if txs != [] {
      var n := |txs| - 1;
      var before := txs[..n];
      ScanKnows(keys, chain, before);
      var d := ScanTxKnows(ScanAll(Fresh(keys), chain, before), keys, Outputs(before), chain, txs[n]);
      if id != txs[n].id {
        DeltaIds(keys, chain, before, id);
        var j :| 0 <= j < |before| && before[j].id == id;
        assert txs[j].id == id;
      }
    }
  }

  lemma PrefixOnce(txs: seq<Tx>)
    requires txs != [] && UniqueIds(txs) && NoRepeat(Revealed(txs))
    ensures UniqueIds(txs[..|txs| - 1]) && NoRepeat(Revealed(txs[..|txs| - 1]))
  {
    var before := Revealed(txs[..|txs| - 1]);
    assert forall i | 0 <= i < |before| :: Revealed(txs)[i] == before[i];
  }

  /** If transactions have different identifiers and no nullifier is revealed twice, then for every key and token the deltas of
      all transactions add up to the value of the notes that are not spent. */
  lemma {:induction false} BalanceIsUnspent(keys: set<ViewingKey>, chain: Chain, txs: seq<Tx>, vk: ViewingKey,
                                            token: Token)
    requires UniqueIds(txs) && NoRepeat(Revealed(txs))
    ensures var c := ScanAll(Fresh(keys), chain, txs);
            && Marked(keys, chain, Outputs(txs), c.spents, Revealed(txs))
            && Sum<TxId>(Balances(c.deltaMap, vk, token)) == Unspent(keys, chain, Outputs(txs), c.spents, vk, token)
    decreases |txs|
  {
    hide ScanTx, Knows, BalanceIn, Received, Spent, SpentPositions, NoRepeat, UniqueIds, Marked;
    if txs == [] {
      NothingYet(keys, chain, vk, token);
    } else {
      var before, tx := txs[..|txs| - 1], txs[|txs| - 1];
      PrefixOnce(txs);
      BalanceIsUnspent(keys, chain, before, vk, token);
      ScanKnows(keys, chain, before);
      var c := ScanAll(Fresh(keys), chain, before);
      var d := ScanTxKnows(c, keys, Outputs(before), chain, tx);
      MarkedMore(keys, chain, Outputs(before), tx.outputs, c.spents, Revealed(before));
      MarkedBelow(keys, chain, Outputs(before), c.spents, Revealed(before));
      UnspentMore(keys, chain, Outputs(before), tx.outputs, c.spents, vk, token);
      SpendsUnspent(keys, chain, Outputs(txs), c.spents, Revealed(before), tx.spends, vk, token);
      NewId(keys, chain, txs);
      PutBalance(c.deltaMap, tx.id, Delta(tx.epoch, TransferDelta(tx), d), vk, token);
    }
  }

  lemma NothingYet(keys: set<ViewingKey>, chain: Chain, vk: ViewingKey, token: Token)
    ensures Marked(keys, chain, [], {}, []) && Balances(map[], vk, token) == map[]
  {
  }

  lemma MarkedBelow(keys: set<ViewingKey>, chain: Chain, outs: seq<Output>, spents: set<nat>, revealed: seq<Nullifier>)
    requires Marked(keys, chain, outs, spents, revealed)
    ensures forall p | p in spents :: p < |outs|
  {
  }

  lemma NewId(keys: set<ViewingKey>, chain: Chain, txs: seq<Tx>)
    requires txs != [] && UniqueIds(txs)
    ensures txs[|txs| - 1].id !in ScanAll(Fresh(keys), chain, txs[..|txs| - 1]).deltaMap
  {
    hide ScanAll;
    var before := txs[..|txs| - 1];
    if txs[|txs| - 1].id in ScanAll(Fresh(keys), chain, before).deltaMap {
      DeltaIds(keys, chain, before, txs[|txs| - 1].id);
    }
    assert forall j | 0 <= j < |before| :: before[j] == txs[j];
  }

  lemma PutBalance(deltas: map<TxId, Delta>, id: TxId, delta: Delta, vk: ViewingKey, token: Token)
    requires id !in deltas
    ensures Sum<TxId>(Balances(deltas[id := delta], vk, token)) ==
            Sum<TxId>(Balances(deltas, vk, token)) + BalanceIn(delta.transaction, vk, token)
  {
    hide BalanceIn;
    var balance := BalanceIn(delta.transaction, vk, token);
    SumUpdate<TxId>(Balances(deltas, vk, token), id, balance);
    assert Balances(deltas[id := delta], vk, token) == Balances(deltas, vk, token)[id := balance];
  }

  // ---- The tree and the witnesses ----

  function Commitments(outs: seq<Output>): (nodes: seq<Node>)
    ensures |nodes| == |outs|
  {
    seq(|outs|, i requires 0 <= i < |outs| => outs[i].commitment)
  }

  /** The tree holds all commitments in order, and every position has the witness that starts with the tree up to it and was
      given every later node. */
  ghost predicate Witnessed(c: Context, outs: seq<Output>) {
    var nodes := Commitments(outs);
    && c.tree == nodes
    && (forall p: nat :: p in c.witnessMap <==> p < |outs|)
    && (forall p: nat | p < |outs| :: c.witnessMap[p] == Witness(nodes[..p + 1], nodes[p + 1..]))
  }

  lemma ScanOutputWitnessed(w: Work, outs: seq<Output>, chain: Chain, o: Output)
    requires Witnessed(w.ctx, outs)
    ensures Witnessed(ScanOutput(w, chain, o).ctx, outs + [o])
  {
    hide Credit, Learn, Opener;
    OpenerOpens(w.ctx.posMap.Keys, o);
    ExtendWitnessed(w.ctx, outs, o);
  }

  lemma ExtendWitnessed(c: Context, outs: seq<Output>, o: Output)
    requires Witnessed(c, outs)
    ensures Witnessed(Extend(c, o), outs + [o])
  {
    var nodes, more := Commitments(outs), Commitments(outs + [o]);
    assert more == nodes + [o.commitment];
    var r := Extend(c, o);
    forall p: nat | p <= |outs| ensures p in r.witnessMap && r.witnessMap[p] == Witness(more[..p + 1], more[p + 1..]) {
      if p < |outs| {
        assert c.witnessMap[p] == Witness(nodes[..p + 1], nodes[p + 1..]);
        assert more[..p + 1] == nodes[..p + 1] && more[p + 1..] == nodes[p + 1..] + [o.commitment];
      } else {
        assert more[..p + 1] == more && more[p + 1..] == [];
      }
    }
  }

  lemma {:induction false} ScanOutputsWitnessed(w: Work, outs: seq<Output>, chain: Chain, os: seq<Output>)
    requires Witnessed(w.ctx, outs)
    ensures Witnessed(ScanOutputs(w, chain, os).ctx, outs + os)
    decreases |os|
  {
    hide Witnessed, ScanOutput;
    if os == [] {
      assert outs + os == outs;
    } else {
      var before := os[..|os| - 1];
      ScanOutputsWitnessed(w, outs, chain, before);
      ScanOutputWitnessed(ScanOutputs(w, chain, before), outs + before, chain, os[|os| - 1]);
      assert outs + before + [os[|os| - 1]] == outs + os;
    }
  }

  lemma {:induction false} SpendsKeepTree(w: Work, chain: Chain, nfs: seq<Nullifier>)
    ensures var r := ScanSpends(w, chain, nfs).ctx; r.tree == w.ctx.tree && r.witnessMap == w.ctx.witnessMap
    decreases |nfs|
  {
    hide Credit, Learn;
    if nfs != [] {
      SpendsKeepTree(w, chain, nfs[..|nfs| - 1]);
    }
  }

  lemma {:induction false} ScanWitnessed(keys: set<ViewingKey>, chain: Chain, txs: seq<Tx>)
    ensures Witnessed(ScanAll(Fresh(keys), chain, txs), Outputs(txs))
    decreases |txs|
  {
    hide ScanOutputs, ScanSpends;
    if txs != [] {
      var before, tx := txs[..|txs| - 1], txs[|txs| - 1];
      ScanWitnessed(keys, chain, before);
      var w := Work(ScanAll(Fresh(keys), chain, before), map[]);
      ScanOutputsWitnessed(w, Outputs(before), chain, tx.outputs);
      SpendsKeepTree(ScanOutputs(w, chain, tx.outputs), chain, tx.spends);
    }
  }
}
