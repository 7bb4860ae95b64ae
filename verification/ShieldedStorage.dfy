/** The wallet's context, updated in place. */
module ShieldedStorage {
  import opened Types
  import opened FiniteSums
  import opened Shielded
  import opened ShieldedFetch

  // ---- Loops over collections ----

  /** Every witness gets the new node. */
  method AppendToWitnesses(ws: map<nat, Witness>, node: Node) returns (r: map<nat, Witness>)
    ensures r == AppendAll(ws, node)
  {
    r := map[];
    var rest := ws.Keys;
    while rest != {}
      invariant rest <= ws.Keys && r.Keys == ws.Keys - rest
      invariant forall p | p in r :: r[p] == ws[p].(added := ws[p].added + [node])
      decreases rest
    {
      var p :| p in rest;
      r := r[p := ws[p].(added := ws[p].added + [node])];
      rest := rest - {p};
    }
  }

  /** Try the keys one after the other until one decrypts the output. */
  method FindOpener(keys: set<ViewingKey>, o: Output) returns (r: Option<ViewingKey>)
    ensures r == Opener(keys, o)
  {
    var rest := keys;
    while rest != {}
      invariant rest <= keys
      invariant forall k | k in keys && k !in rest :: k !in o.opens && forall j | j in rest :: k <= j
      decreases rest
    {
      var vk := MinKey(rest);
      if vk in o.opens {
        FirstOpener(keys, rest, o, vk);
        return Some(vk);
      }
      rest := rest - {vk};
    }
    assert keys * o.opens.Keys == {};
    return None;
  }

  lemma FirstOpener(keys: set<ViewingKey>, rest: set<ViewingKey>, o: Output, vk: ViewingKey)
    requires rest <= keys && rest != {} && vk == MinKey(rest) && vk in o.opens
    requires forall k | k in keys && k !in rest :: k !in o.opens
    ensures Opener(keys, o) == Some(vk)
  {
    assert vk in keys * o.opens.Keys;
  }

  /** Deltas of the same transaction are merged, since different keys reveal different parts of it. */
  method MergeDeltaMaps(a: map<TxId, Delta>, b: map<TxId, Delta>) returns (r: map<TxId, Delta>)
    ensures r == MergeDeltas(a, b)
  {
    hide MergeDelta;
    r := a;
    var rest := b.Keys;
    while rest != {}
      invariant rest <= b.Keys && r.Keys == a.Keys + (b.Keys - rest)
      invariant forall id | id in r && id !in rest :: r[id] == MergedAt(a, b, id)
      invariant forall id | id in rest && id in r :: r[id] == a[id]
      decreases rest
    {
      var id :| id in rest;
      var entry := if id in r then r[id] else Delta(b[id].epoch, map[], map[]);
      r := r[id := MergeDelta(entry, b[id])];
      rest := rest - {id};
    }
  }

  // ---- The context ----

  class ShieldedContext {
    var lastTxIdx: nat
    var tree: seq<Node>
    var posMap: map<ViewingKey, set<nat>>
    var nfMap: map<Nullifier, nat>
    var noteMap: map<nat, Note>
    var memoMap: map<nat, nat>
    var divMap: map<nat, nat>
    var witnessMap: map<nat, Witness>
    var deltaMap: map<TxId, Delta>
    var spents: set<nat>
    var assetTypes: map<Asset, Token>
    var vkMap: map<nat, ViewingKey>

    constructor (keys: set<ViewingKey>)
      ensures Value() == Fresh(keys)
    {
      lastTxIdx, tree, spents := 0, [], {};
      posMap := map k | k in keys :: {};
      nfMap, noteMap, memoMap, divMap, witnessMap, deltaMap, assetTypes, vkMap :=
        map[], map[], map[], map[], map[], map[], map[], map[];
    }

    function Value(): Context
      reads this
    {
      Context(lastTxIdx, tree, posMap, nfMap, noteMap, memoMap, divMap, witnessMap, deltaMap, spents, assetTypes, vkMap)
    }

    /** Decode an asset type, from what is known or from the client. */
    method DecodeAsset(chain: Chain, asset: Asset) returns (token: Option<Token>)
      modifies this`assetTypes
      ensures assetTypes == Learn(old(assetTypes), chain, asset)
      ensures token == if asset in assetTypes then Some(assetTypes[asset]) else None
    {
      if asset in assetTypes {
        return Some(assetTypes[asset]);
      }
      if asset in chain.assets {
        assetTypes := assetTypes[asset := chain.assets[asset]];
        return Some(assetTypes[asset]);
      }
      return None;
    }

    /** Add the commitment to the tree and to all witnesses, and make a witness for it. */
    method ExtendTree(o: Output)
      modifies this`tree, this`witnessMap
      ensures Value() == Extend(old(Value()), o)
    {
      hide AppendAll;
      var ws := AppendToWitnesses(witnessMap, o.commitment);
      var pos := |tree|;
      tree := tree + [o.commitment];
      witnessMap := ws[pos := Witness(tree, [])];
    }

    /** What is known of a note by its position. */
    method RecordNote(pos: nat, opening: Opening)
      modifies this`noteMap, this`memoMap, this`divMap
      ensures noteMap == old(noteMap)[pos := opening.note]
      ensures memoMap == old(memoMap)[pos := opening.memo]
      ensures divMap == old(divMap)[pos := opening.diversifier]
    {
      noteMap := noteMap[pos := opening.note];
      memoMap := memoMap[pos := opening.memo];
      divMap := divMap[pos := opening.diversifier];
    }

    /** The key that decrypts a note, and the nullifier by which its spending will be seen. */
    method RecordKey(vk: ViewingKey, pos: nat, nf: Nullifier)
      requires vk in posMap
      modifies this`posMap, this`nfMap, this`vkMap
      ensures posMap == old(posMap)[vk := old(posMap)[vk] + {pos}]
      ensures nfMap == old(nfMap)[nf := pos]
      ensures vkMap == old(vkMap)[pos := vk]
    {
      posMap := posMap[vk := posMap[vk] + {pos}];
      nfMap := nfMap[nf := pos];
      vkMap := vkMap[pos := vk];
    }

    /** The balance changed by a note, in its token. */
    method ChangeBalance(chain: Chain, vk: ViewingKey, note: Note, sign: int, delta: TransactionDelta)
        returns (newDelta: TransactionDelta)
      modifies this`assetTypes
      ensures assetTypes == Learn(old(assetTypes), chain, note.asset)
      ensures newDelta == Credit(delta, assetTypes, vk, note, sign)
    {
      hide Learn;
      var balance := BalanceOf(delta, vk);
      var token := DecodeAsset(chain, note.asset);
      if token.Some? {
        balance := AddAmount(balance, token.value, sign * note.value);
      }
      newDelta := delta[vk := balance];
    }

    /** Record a note of ours. */
    method ReceiveNote(chain: Chain, vk: ViewingKey, pos: nat, opening: Opening, delta: TransactionDelta)
        returns (newDelta: TransactionDelta)
      requires vk in posMap
      modifies this
      ensures Work(Value(), newDelta) == Receive(Work(old(Value()), delta), chain, vk, pos, opening)
    {
      hide Learn, Credit;
      RecordKey(vk, pos, chain.nullifier(opening.note, vk, pos));
      RecordNote(pos, opening);
      newDelta := ChangeBalance(chain, vk, opening.note, 1, delta);
    }

    /** One output: extend the tree and the witnesses, and record the note if it is ours. */
    method ScanShieldedOutput(chain: Chain, o: Output, delta: TransactionDelta) returns (newDelta: TransactionDelta)
      modifies this
      ensures Work(Value(), newDelta) == ScanOutput(Work(old(Value()), delta), chain, o)
    {
      hide AppendAll, Opener, Learn, Receive;
      var pos := |tree|;
      ExtendTree(o);
      var found := FindOpener(posMap.Keys, o);
      OpenerAble(posMap.Keys, o);
      if found.None? {
        return delta;
      }
      newDelta := ReceiveNote(chain, found.value, pos, o.opens[found.value], delta);
    }

    /** One spend: if the nullifier is one of ours, its note is spent. The note of a nullifier is always there. */
    method ScanShieldedSpend(chain: Chain, nf: Nullifier, delta: TransactionDelta) returns (newDelta: TransactionDelta)
      requires nf in nfMap ==> nfMap[nf] in vkMap && nfMap[nf] in noteMap
      modifies this
      ensures Work(Value(), newDelta) == ScanSpend(Work(old(Value()), delta), chain, nf)
    {
      hide Learn, Credit;
      newDelta := delta;
      if nf in nfMap {
        var pos := nfMap[nf];
        spents := spents + {pos};
        newDelta := ChangeBalance(chain, vkMap[pos], noteMap[pos], -1, delta);
      }
    }

    /** `scan_tx` */
    method ScanTransaction(chain: Chain, tx: Tx)
      requires NotesThere(Value())
      modifies this
      ensures Value() == ScanTx(old(Value()), chain, tx) && NotesThere(Value())
    {
      hide NotesThere, ScanOutput, ScanSpend;
      var delta: TransactionDelta := map[];
      ghost var start := Work(Value(), delta);
      for i := 0 to |tx.outputs|
        invariant Work(Value(), delta) == ScanOutputs(start, chain, tx.outputs[..i]) && NotesThere(Value())
      {
        PrefixNext(tx.outputs, i);
        OutputThere(Work(Value(), delta), chain, tx.outputs[i]);
        delta := ScanShieldedOutput(chain, tx.outputs[i], delta);
      }
      assert tx.outputs[..|tx.outputs|] == tx.outputs;
      ghost var middle := Work(Value(), delta);
      for i := 0 to |tx.spends|
        invariant Work(Value(), delta) == ScanSpends(middle, chain, tx.spends[..i]) && NotesThere(Value())
      {
        PrefixNext(tx.spends, i);
        SpendThere(Work(Value(), delta), chain, tx.spends[i]);
        delta := ScanShieldedSpend(chain, tx.spends[i], delta);
      }
      assert tx.spends[..|tx.spends|] == tx.spends;
      FinishThere(Work(Value(), delta), tx);
      lastTxIdx := lastTxIdx + 1;
      deltaMap := deltaMap[tx.id := Delta(tx.epoch, TransferDelta(tx), delta)];
    }

    /** `merge` */
    method MergeWith(other: ShieldedContext)
      requires other != this && other.lastTxIdx == lastTxIdx
      modifies this
      ensures Value() == Merge(old(Value()), other.Value())
    {
      hide MergeDeltas;
      var extra := other.Value();
      var deltas := MergeDeltaMaps(deltaMap, extra.deltaMap);
      MergeKeys(extra);
      MergeNotes(extra);
      MergeRest(extra);
      deltaMap := deltas;
    }

    method MergeKeys(other: Context)
      modifies this`posMap, this`nfMap, this`vkMap
      ensures posMap == old(posMap) + other.posMap
      ensures nfMap == old(nfMap) + other.nfMap
      ensures vkMap == old(vkMap) + other.vkMap
    {
      posMap := posMap + other.posMap;
      nfMap := nfMap + other.nfMap;
      vkMap := vkMap + other.vkMap;
    }

    method MergeNotes(other: Context)
      modifies this`noteMap, this`memoMap, this`divMap
      ensures noteMap == old(noteMap) + other.noteMap
      ensures memoMap == old(memoMap) + other.memoMap
      ensures divMap == old(divMap) + other.divMap
    {
      noteMap := noteMap + other.noteMap;
      memoMap := memoMap + other.memoMap;
      divMap := divMap + other.divMap;
    }

    method MergeRest(other: Context)
      modifies this`witnessMap, this`spents, this`assetTypes
      ensures witnessMap == old(witnessMap) + other.witnessMap
      ensures spents == old(spents) + other.spents
      ensures assetTypes == old(assetTypes) + other.assetTypes
    {
      witnessMap := witnessMap + other.witnessMap;
      spents := spents + other.spents;
      assetTypes := assetTypes + other.assetTypes;
    }

    /** `fetch`, with all transactions of the ledger at hand */
    method FetchKeys(chain: Chain, keys: set<ViewingKey>, txs: seq<Tx>)
      requires NotesThere(Value()) && lastTxIdx <= |txs|
      modifies this
      ensures Value() == Fetch(old(Value()), chain, keys, txs) && NotesThere(Value())
    {
      hide NotesThere, ScanAll, Fresh, Merge;
      var unknown := keys - posMap.Keys;
      var at := lastTxIdx;
      if unknown != {} {
        var ctx := new ShieldedContext(unknown);
        ctx.CatchUp(chain, txs, unknown, lastTxIdx);
        MergeThere(Value(), ctx.Value());
        MergeWith(ctx);
      }
      ghost var start := Value();
      ScanNothing(start, chain, txs[at..]);
      for i := at to |txs|
        invariant Value() == ScanAll(start, chain, txs[at..][..i - at]) && NotesThere(Value())
      {
        ScanNext(start, chain, txs[at..], i - at);
        ScanTransaction(chain, txs[i]);
      }
      assert txs[at..][..|txs| - at] == txs[at..];
    }

    /** Scan from the beginning until the context is level with another one, or the transactions end. */
    method CatchUp(chain: Chain, txs: seq<Tx>, ghost keys: set<ViewingKey>, level: nat)
      requires Value() == Fresh(keys)
      modifies this
      ensures Value() == ScanAll(Fresh(keys), chain, txs[..Min(level, |txs|)]) && NotesThere(Value())
      ensures lastTxIdx == Min(level, |txs|)
    {
      hide NotesThere, ScanAll, Fresh;
      var i := 0;
      FreshThere(keys);
      ScanNothing(Fresh(keys), chain, txs);
      while lastTxIdx != level && i < |txs|
        invariant i <= |txs| && i <= level
        invariant Value() == ScanAll(Fresh(keys), chain, txs[..i]) && lastTxIdx == i && NotesThere(Value())
        decreases |txs| - i
      {
        ScanNext(Fresh(keys), chain, txs, i);
        ScanTransaction(chain, txs[i]);
        i := i + 1;
        ScanAllCounts(Fresh(keys), chain, txs[..i]);
      }
    }
  }

  // ---- Every nullifier leads to a note ----

  ghost predicate NotesThere(c: Context) {
    forall nf | nf in c.nfMap :: c.nfMap[nf] in c.vkMap && c.nfMap[nf] in c.noteMap
  }

  lemma OutputThere(w: Work, chain: Chain, o: Output)
    requires NotesThere(w.ctx)
    ensures NotesThere(ScanOutput(w, chain, o).ctx)
  {
    hide Credit, Learn, Opener;
    OpenerAble(w.ctx.posMap.Keys, o);
  }

  lemma SpendThere(w: Work, chain: Chain, nf: Nullifier)
    requires NotesThere(w.ctx)
    ensures NotesThere(ScanSpend(w, chain, nf).ctx)
    ensures nf in w.ctx.nfMap ==> w.ctx.nfMap[nf] in w.ctx.vkMap && w.ctx.nfMap[nf] in w.ctx.noteMap
  {
    hide Credit, Learn;
  }

  lemma FinishThere(w: Work, tx: Tx)
    requires NotesThere(w.ctx)
    ensures NotesThere(Finish(w, tx))
  {
  }

  lemma MergeThere(a: Context, b: Context)
    requires NotesThere(a) && NotesThere(b)
    ensures NotesThere(Merge(a, b))
  {
    hide MergeDeltas;
  }

  lemma FreshThere(keys: set<ViewingKey>)
    ensures NotesThere(Fresh(keys)) && Fresh(keys).lastTxIdx == 0
  {
  }

  lemma ScanNothing(c: Context, chain: Chain, txs: seq<Tx>)
    ensures ScanAll(c, chain, txs[..0]) == c
  {
  }

  lemma ScanNext(c: Context, chain: Chain, txs: seq<Tx>, i: nat)
    requires i < |txs|
    ensures ScanAll(c, chain, txs[..i + 1]) == ScanTx(ScanAll(c, chain, txs[..i]), chain, txs[i])
  {
    PrefixNext(txs, i);
  }
}
