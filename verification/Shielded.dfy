/** The shielded wallet: scanning transactions for the notes of the tracked viewing keys, and merging contexts. Decryption is
    data of an output, and nullifiers are an uninterpreted function. */
module Shielded {
  import opened Types
  import opened FiniteSums

  type ViewingKey = nat
  type Node = nat
  type Nullifier = nat
  type Asset = nat
  type Token = nat

  datatype Note = Note(asset: Asset, value: nat)

  /** What decryption of an output reveals. */
  datatype Opening = Opening(note: Note, memo: nat, diversifier: nat)

  /** An output with its note commitment and the keys that decrypt it. */
  datatype Output = Output(commitment: Node, opens: map<ViewingKey, Opening>)

  datatype TxId = TxId(height: nat, index: nat)

  datatype Tx = Tx(
    id: TxId,
    epoch: Epoch,
    source: Address,
    token: Token,
    amount: Amount,
    outputs: seq<Output>,
    spends: seq<Nullifier>)

  /** What the client answers: the nullifier of a note at a position, and the tokens of asset types. */
  datatype Chain = Chain(nullifier: (Note, ViewingKey, nat) -> Nullifier, assets: map<Asset, Token>)

  /** The tree when the note was added, and the nodes added since. */
  datatype Witness = Witness(start: seq<Node>, added: seq<Node>)

  type Balance = map<Token, int>
  type TransactionDelta = map<ViewingKey, Balance>

  datatype TransferChange = TransferChange(token: Token, change: int)

  datatype Delta = Delta(epoch: Epoch, transfer: map<Address, TransferChange>, transaction: TransactionDelta)

  datatype Context = Context(
    lastTxIdx: nat,
    tree: seq<Node>,
    posMap: map<ViewingKey, set<nat>>,
    nfMap: map<Nullifier, nat>,
    noteMap: map<nat, Note>,
    memoMap: map<nat, nat>,
    divMap: map<nat, nat>,
    witnessMap: map<nat, Witness>,
    deltaMap: map<TxId, Delta>,
    spents: set<nat>,
    assetTypes: map<Asset, Token>,
    vkMap: map<nat, ViewingKey>)

  /** A context that tracks keys and has seen nothing. */
  function Fresh(keys: set<ViewingKey>): Context {
    Context(0, [], map k | k in keys :: {}, map[], map[], map[], map[], map[], map[], {}, map[], map[])
  }

  // ---- Scanning one output ----

  /** The tracked key that decrypts an output: the first one in iteration order, taken to be ascending. */
  function Opener(keys: set<ViewingKey>, o: Output): Option<ViewingKey> {
    var able := keys * o.opens.Keys;
    if able == {} then None else Some(MinKey(able))
  }

  function AppendAll(ws: map<nat, Witness>, node: Node): map<nat, Witness> {
    map p | p in ws :: ws[p].(added := ws[p].added + [node])
  }

  /** Every output, ours or not, extends the tree and all witnesses and gets a witness of its own. */
  function Extend(c: Context, o: Output): Context {
    var tree := c.tree + [o.commitment];
    c.(tree := tree, witnessMap := AppendAll(c.witnessMap, o.commitment)[|c.tree| := Witness(tree, [])])
  }

  /** The context while one transaction is scanned, with the changes of accounts that it causes. */
  datatype Work = Work(ctx: Context, delta: TransactionDelta)

  /** The asset types known after decoding one. */
  function Learn(known: map<Asset, Token>, chain: Chain, asset: Asset): map<Asset, Token> {
    if asset !in known && asset in chain.assets then known[asset := chain.assets[asset]] else known
  }

  function BalanceOf(delta: TransactionDelta, vk: ViewingKey): Balance {
    if vk in delta then delta[vk] else map[]
  }

  /** Amounts of zero are not kept. */
  function AddAmount(balance: Balance, token: Token, change: int): Balance {
    var sum := GetInt(balance, token) + change;
    if sum == 0 then balance - {token} else balance[token := sum]
  }

  /** `balance += sign * value` in the token of the note, if that is known. */
  function AddNote(balance: Balance, known: map<Asset, Token>, note: Note, sign: int): Balance {
    if note.asset in known then AddAmount(balance, known[note.asset], sign * note.value) else balance
  }

  function Credit(delta: TransactionDelta, known: map<Asset, Token>, vk: ViewingKey, note: Note,
                  sign: int): TransactionDelta {
    delta[vk := AddNote(BalanceOf(delta, vk), known, note, sign)]
  }

  function Receive(w: Work, chain: Chain, vk: ViewingKey, pos: nat, opening: Opening): Work
    requires vk in w.ctx.posMap
  {
    var c := w.ctx;
    var known := Learn(c.assetTypes, chain, opening.note.asset);
    Work(c.(posMap := c.posMap[vk := c.posMap[vk] + {pos}],
            nfMap := c.nfMap[chain.nullifier(opening.note, vk, pos) := pos],
            noteMap := c.noteMap[pos := opening.note],
            memoMap := c.memoMap[pos := opening.memo],
            divMap := c.divMap[pos := opening.diversifier],
            assetTypes := known,
            vkMap := c.vkMap[pos := vk]),
         Credit(w.delta, known, vk, opening.note, 1))
  }

  function ScanOutput(w: Work, chain: Chain, o: Output): Work {
    var pos := |w.ctx.tree|;
    var extended := w.(ctx := Extend(w.ctx, o));
    var vk := Opener(w.ctx.posMap.Keys, o);
    if vk.None? then extended else Receive(extended, chain, vk.value, pos, o.opens[vk.value])
  }

  function ScanOutputs(w: Work, chain: Chain, os: seq<Output>): Work {
    if os == [] then w else ScanOutput(ScanOutputs(w, chain, os[..|os| - 1]), chain, os[|os| - 1])
  }

  // ---- Scanning spends ----

  /** A nullifier of ours marks its note as spent. A nullifier whose note is missing would be a panic; there is none. */
  function ScanSpend(w: Work, chain: Chain, nf: Nullifier): Work {
    var c := w.ctx;
    if nf !in c.nfMap || c.nfMap[nf] !in c.vkMap || c.nfMap[nf] !in c.noteMap then w
    else Spend(w, chain, c.nfMap[nf], c.vkMap[c.nfMap[nf]], c.noteMap[c.nfMap[nf]])
  }

  function Spend(w: Work, chain: Chain, pos: nat, vk: ViewingKey, note: Note): Work {
    var known := Learn(w.ctx.assetTypes, chain, note.asset);
    Work(w.ctx.(spents := w.ctx.spents + {pos}, assetTypes := known), Credit(w.delta, known, vk, note, -1))
  }

  function ScanSpends(w: Work, chain: Chain, nfs: seq<Nullifier>): Work {
    if nfs == [] then w else ScanSpend(ScanSpends(w, chain, nfs[..|nfs| - 1]), chain, nfs[|nfs| - 1])
  }

  // ---- Scanning transactions ----

  function TransferDelta(tx: Tx): map<Address, TransferChange> {
    map[tx.source := TransferChange(tx.token, -(tx.amount as int))]
  }

  function Finish(w: Work, tx: Tx): Context {
    w.ctx.(lastTxIdx := w.ctx.lastTxIdx + 1,
           deltaMap := w.ctx.deltaMap[tx.id := Delta(tx.epoch, TransferDelta(tx), w.delta)])
  }

  /** `scan_tx` */
  function ScanTx(c: Context, chain: Chain, tx: Tx): Context {
    Finish(ScanSpends(ScanOutputs(Work(c, map[]), chain, tx.outputs), chain, tx.spends), tx)
  }

  function ScanAll(c: Context, chain: Chain, txs: seq<Tx>): Context {
    if txs == [] then c else ScanTx(ScanAll(c, chain, txs[..|txs| - 1]), chain, txs[|txs| - 1])
  }

  // ---- Merging ----

  function MergeDelta(a: Delta, b: Delta): Delta {
    Delta(a.epoch, a.transfer + b.transfer, a.transaction + b.transaction)
  }

  function MergedAt(a: map<TxId, Delta>, b: map<TxId, Delta>, id: TxId): Delta
    requires id in a || id in b
  {
    if id !in b then a[id]
    else if id in a then MergeDelta(a[id], b[id])
    else MergeDelta(Delta(b[id].epoch, map[], map[]), b[id])
  }

  function MergeDeltas(a: map<TxId, Delta>, b: map<TxId, Delta>): map<TxId, Delta> {
    map id | id in a.Keys + b.Keys :: MergedAt(a, b, id)
  }

  /** `merge`: the maps of the second context extend those of the first. */
  function Merge(a: Context, b: Context): Context {
    Context(a.lastTxIdx, a.tree, a.posMap + b.posMap, a.nfMap + b.nfMap, a.noteMap + b.noteMap, a.memoMap + b.memoMap,
            a.divMap + b.divMap, a.witnessMap + b.witnessMap, MergeDeltas(a.deltaMap, b.deltaMap), a.spents + b.spents,
            a.assetTypes + b.assetTypes, a.vkMap + b.vkMap)
  }

  // ---- What makes two scans independent ----

  /** All outputs in order; the position of a note is its index here. */
  function Outputs(txs: seq<Tx>): seq<Output> {
    if txs == [] then [] else Outputs(txs[..|txs| - 1]) + txs[|txs| - 1].outputs
  }

  /** No output decrypts under two of the keys. */
  ghost predicate OneOpener(outs: seq<Output>, keys: set<ViewingKey>) {
    forall p, u, v | 0 <= p < |outs| && u in keys && v in keys && u in outs[p].opens && v in outs[p].opens :: u == v
  }

  /** The notes that the keys decrypt have different nullifiers. */
  ghost predicate NullifiersDistinct(outs: seq<Output>, keys: set<ViewingKey>, chain: Chain) {
    forall p, q, u, v | 0 <= p < q < |outs| && u in keys && v in keys && u in outs[p].opens && v in outs[q].opens ::
      chain.nullifier(outs[p].opens[u].note, u, p) != chain.nullifier(outs[q].opens[v].note, v, q)
  }

  /** The two contexts are level with the third and share its data between them. */
  ghost predicate Shares(a: Context, b: Context, f: Context) {
    && a.lastTxIdx == b.lastTxIdx == f.lastTxIdx
    && a.tree == b.tree == f.tree
    && a.witnessMap == b.witnessMap == f.witnessMap
    && f.posMap == a.posMap + b.posMap
    && f.nfMap == a.nfMap + b.nfMap
    && f.noteMap == a.noteMap + b.noteMap
    && f.memoMap == a.memoMap + b.memoMap
    && f.divMap == a.divMap + b.divMap
    && f.deltaMap == MergeDeltas(a.deltaMap, b.deltaMap)
    && f.spents == a.spents + b.spents
    && f.assetTypes == a.assetTypes + b.assetTypes
    && f.vkMap == a.vkMap + b.vkMap
  }

  /** A context holds the notes that its keys decrypt among the outputs seen so far. */
  ghost predicate Holds(c: Context, keys: set<ViewingKey>, outs: seq<Output>, chain: Chain) {
    && |c.tree| == |outs|
    && c.posMap.Keys == keys
    && c.noteMap.Keys == c.memoMap.Keys == c.divMap.Keys == c.vkMap.Keys
    && (forall p | p in c.vkMap :: NoteOk(c, keys, outs, p))
    && (forall nf | nf in c.nfMap :: NullifierOk(c, chain, nf))
    && Cached(c, chain)
  }

  ghost predicate NoteOk(c: Context, keys: set<ViewingKey>, outs: seq<Output>, p: nat)
    requires p in c.vkMap
  {
    && p < |outs| && p in c.noteMap
    && c.vkMap[p] in keys && c.vkMap[p] in outs[p].opens
    && c.noteMap[p] == outs[p].opens[c.vkMap[p]].note
  }

  ghost predicate NullifierOk(c: Context, chain: Chain, nf: Nullifier)
    requires nf in c.nfMap
  {
    var p := c.nfMap[nf];
    p in c.vkMap && p in c.noteMap && nf == chain.nullifier(c.noteMap[p], c.vkMap[p], p)
  }

  // ---- Every scan keeps what a context holds ----

  lemma ExtendHolds(c: Context, keys: set<ViewingKey>, outs: seq<Output>, chain: Chain, o: Output)
    requires Holds(c, keys, outs, chain)
    ensures Holds(Extend(c, o), keys, outs + [o], chain)
  {
    var e := Extend(c, o);
    forall p | p in e.vkMap ensures NoteOk(e, keys, outs + [o], p) {
      assert NoteOk(c, keys, outs, p);
    }
    forall nf | nf in e.nfMap ensures NullifierOk(e, chain, nf) {
      assert NullifierOk(c, chain, nf);
    }
  }

  lemma ReceiveNote(w: Work, keys: set<ViewingKey>, outs: seq<Output>, chain: Chain, vk: ViewingKey, pos: nat, p: nat)
    requires vk in w.ctx.posMap && vk in keys && pos < |outs| && vk in outs[pos].opens
    requires p in w.ctx.vkMap ==> NoteOk(w.ctx, keys, outs, p)
    ensures var r := Receive(w, chain, vk, pos, outs[pos].opens[vk]).ctx;
            p in r.vkMap ==> NoteOk(r, keys, outs, p)
  {
    hide Credit, Learn;
  }

  lemma ReceiveNullifier(w: Work, chain: Chain, vk: ViewingKey, pos: nat, opening: Opening, nf: Nullifier)
    requires vk in w.ctx.posMap && pos !in w.ctx.vkMap
    requires nf in w.ctx.nfMap ==> NullifierOk(w.ctx, chain, nf)
    ensures var r := Receive(w, chain, vk, pos, opening).ctx;
            nf in r.nfMap ==> NullifierOk(r, chain, nf)
  {
    hide Credit, Learn;
  }

  lemma ReceiveShape(w: Work, chain: Chain, vk: ViewingKey, pos: nat, opening: Opening)
    requires vk in w.ctx.posMap && Cached(w.ctx, chain)
    requires w.ctx.noteMap.Keys == w.ctx.memoMap.Keys == w.ctx.divMap.Keys == w.ctx.vkMap.Keys
    ensures var r := Receive(w, chain, vk, pos, opening).ctx;
            && r.tree == w.ctx.tree && r.posMap.Keys == w.ctx.posMap.Keys && Cached(r, chain)
            && r.noteMap.Keys == r.memoMap.Keys == r.divMap.Keys == r.vkMap.Keys
  {
    hide Credit;
  }

  lemma ReceiveHolds(w: Work, keys: set<ViewingKey>, outs: seq<Output>, chain: Chain, vk: ViewingKey, pos: nat)
    requires Holds(w.ctx, keys, outs, chain) && vk in keys && pos < |outs| && vk in outs[pos].opens && pos !in w.ctx.vkMap
    ensures Holds(Receive(w, chain, vk, pos, outs[pos].opens[vk]).ctx, keys, outs, chain)
  {
    hide Receive, NoteOk, NullifierOk, Cached;
    var r := Receive(w, chain, vk, pos, outs[pos].opens[vk]).ctx;
    ReceiveShape(w, chain, vk, pos, outs[pos].opens[vk]);
    forall p | p in r.vkMap ensures NoteOk(r, keys, outs, p) {
      ReceiveNote(w, keys, outs, chain, vk, pos, p);
    }
    forall nf | nf in r.nfMap ensures NullifierOk(r, chain, nf) {
      ReceiveNullifier(w, chain, vk, pos, outs[pos].opens[vk], nf);
    }
  }

  /** The place of the next note is free. */
  lemma NextFree(c: Context, keys: set<ViewingKey>, outs: seq<Output>, chain: Chain)
    requires Holds(c, keys, outs, chain)
    ensures |outs| !in c.vkMap && |outs| !in c.noteMap
  {
    assert |outs| in c.vkMap ==> NoteOk(c, keys, outs, |outs|);
  }

  lemma ScanOutputHolds(w: Work, keys: set<ViewingKey>, outs: seq<Output>, chain: Chain, o: Output)
    requires Holds(w.ctx, keys, outs, chain)
    ensures Holds(ScanOutput(w, chain, o).ctx, keys, outs + [o], chain)
  {
    hide Holds, Receive;
    HoldsShape(w.ctx, keys, outs, chain);
    ExtendHolds(w.ctx, keys, outs, chain, o);
    NextFree(w.ctx, keys, outs, chain);
    var vk := Opener(keys, o);
    if vk.Some? {
      ReceiveHolds(w.(ctx := Extend(w.ctx, o)), keys, outs + [o], chain, vk.value, |outs|);
    }
  }

  lemma HoldsShape(c: Context, keys: set<ViewingKey>, outs: seq<Output>, chain: Chain)
    requires Holds(c, keys, outs, chain)
    ensures |c.tree| == |outs| && c.posMap.Keys == keys
  {
  }

  lemma ScanSpendHolds(w: Work, keys: set<ViewingKey>, outs: seq<Output>, chain: Chain, nf: Nullifier)
    requires Holds(w.ctx, keys, outs, chain)
    ensures Holds(ScanSpend(w, chain, nf).ctx, keys, outs, chain)
  {
    hide Credit, Learn, Cached;
    SpendCached(w, chain, nf);
    var c, r := w.ctx, ScanSpend(w, chain, nf).ctx;
    forall p | p in r.vkMap ensures NoteOk(r, keys, outs, p) {
      assert NoteOk(c, keys, outs, p);
    }
    forall n | n in r.nfMap ensures NullifierOk(r, chain, n) {
      assert NullifierOk(c, chain, n);
    }
  }

  // ---- Nothing is missed ----

  /** Position by position: a note is recorded exactly if a tracked key opens the output, under the first key that does, with
      everything that the opening reveals. */
  ghost predicate RecordedAt(c: Context, keys: set<ViewingKey>, outs: seq<Output>, p: nat) {
    var vk := if p < |outs| then Opener(keys, outs[p]) else None;
    if vk.None? then p !in c.vkMap && p !in c.noteMap && p !in c.memoMap && p !in c.divMap && forall k | k in c.posMap :: p !in c.posMap[k]
    else
      && vk.value in outs[p].opens
      && (var opening := outs[p].opens[vk.value];
          && p in c.vkMap && c.vkMap[p] == vk.value
          && p in c.noteMap && c.noteMap[p] == opening.note
          && p in c.memoMap && c.memoMap[p] == opening.memo
          && p in c.divMap && c.divMap[p] == opening.diversifier)
      && forall k | k in c.posMap :: p in c.posMap[k] <==> k == vk.value
  }

  ghost predicate Records(c: Context, keys: set<ViewingKey>, outs: seq<Output>) {
    |c.tree| == |outs| && c.posMap.Keys == keys && forall p: nat :: RecordedAt(c, keys, outs, p)
  }

  lemma ScanOutputRecords(w: Work, keys: set<ViewingKey>, outs: seq<Output>, chain: Chain, o: Output)
    requires Records(w.ctx, keys, outs)
    ensures Records(ScanOutput(w, chain, o).ctx, keys, outs + [o])
  {
    hide RecordedAt, Credit, Learn;
    var r := ScanOutput(w, chain, o).ctx;
    forall p: nat ensures RecordedAt(r, keys, outs + [o], p) {
      ScanOutputRecordedAt(w, keys, outs, chain, o, p);
    }
  }

  lemma ScanOutputRecordedAt(w: Work, keys: set<ViewingKey>, outs: seq<Output>, chain: Chain, o: Output, p: nat)
    requires |w.ctx.tree| == |outs| && w.ctx.posMap.Keys == keys && RecordedAt(w.ctx, keys, outs, p)
    ensures RecordedAt(ScanOutput(w, chain, o).ctx, keys, outs + [o], p)
  {
    hide RecordedAt, ScanOutput, SameAt;
    var r := ScanOutput(w, chain, o).ctx;
    if p == |outs| {
      NewRecord(w, keys, outs, chain, o);
    } else {
      SameElsewhere(w, chain, o, p);
      SameRecord(w.ctx, r, keys, outs, p);
      SameOutput(r, keys, outs, o, p);
    }
  }

  lemma SameOutput(c: Context, keys: set<ViewingKey>, outs: seq<Output>, o: Output, p: nat)
    requires p != |outs| && RecordedAt(c, keys, outs, p)
    ensures RecordedAt(c, keys, outs + [o], p)
  {
    hide Opener;
    assert p < |outs| ==> (outs + [o])[p] == outs[p];
  }

  lemma OpenerOpens(keys: set<ViewingKey>, o: Output)
    ensures var vk := Opener(keys, o); vk.Some? ==> vk.value in keys && vk.value in o.opens
  {
  }

  /** The record of an output that is scanned. */
  lemma NewRecord(w: Work, keys: set<ViewingKey>, outs: seq<Output>, chain: Chain, o: Output)
    requires |w.ctx.tree| == |outs| && w.ctx.posMap.Keys == keys && RecordedAt(w.ctx, keys, outs, |outs|)
    ensures RecordedAt(ScanOutput(w, chain, o).ctx, keys, outs + [o], |outs|)
  {
    hide Credit, Learn, Opener;
    OpenerOpens(keys, o);
    assert (outs + [o])[|outs|] == o;
  }

  /** The same at one position. */
  ghost predicate SameAt(a: Context, b: Context, p: nat) {
    && (p in a.vkMap <==> p in b.vkMap) && (p in a.vkMap ==> a.vkMap[p] == b.vkMap[p])
    && (p in a.noteMap <==> p in b.noteMap) && (p in a.noteMap ==> a.noteMap[p] == b.noteMap[p])
    && (p in a.memoMap <==> p in b.memoMap) && (p in a.memoMap ==> a.memoMap[p] == b.memoMap[p])
    && (p in a.divMap <==> p in b.divMap) && (p in a.divMap ==> a.divMap[p] == b.divMap[p])
    && a.posMap.Keys == b.posMap.Keys && forall k | k in a.posMap :: p in a.posMap[k] <==> p in b.posMap[k]
  }

  lemma SameElsewhere(w: Work, chain: Chain, o: Output, p: nat)
    requires p != |w.ctx.tree|
    ensures SameAt(w.ctx, ScanOutput(w, chain, o).ctx, p)
  {
    hide Credit, Learn, Opener;
    OpenerOpens(w.ctx.posMap.Keys, o);
  }

  lemma {:induction false} ScanOutputsRecords(w: Work, keys: set<ViewingKey>, outs: seq<Output>, chain: Chain,
                                              os: seq<Output>)
    requires Records(w.ctx, keys, outs)
    ensures Records(ScanOutputs(w, chain, os).ctx, keys, outs + os)
    decreases |os|
  {
    hide Records, ScanOutput;
    if os == [] {
      assert outs + os == outs;
    } else {
      var before := os[..|os| - 1];
      ScanOutputsRecords(w, keys, outs, chain, before);
      ScanOutputRecords(ScanOutputs(w, chain, before), keys, outs + before, chain, os[|os| - 1]);
      assert outs + before + [os[|os| - 1]] == outs + os;
    }
  }

  /** Spends touch nothing of it. */
  lemma {:induction false} ScanSpendsRecords(w: Work, keys: set<ViewingKey>, outs: seq<Output>, chain: Chain,
                                             nfs: seq<Nullifier>)
    requires Records(w.ctx, keys, outs)
    ensures Records(ScanSpends(w, chain, nfs).ctx, keys, outs)
    decreases |nfs|
  {
    hide Credit, Learn, RecordedAt;
    if nfs != [] {
      var before := ScanSpends(w, chain, nfs[..|nfs| - 1]);
      ScanSpendsRecords(w, keys, outs, chain, nfs[..|nfs| - 1]);
      var r := ScanSpend(before, chain, nfs[|nfs| - 1]).ctx;
      forall p: nat ensures RecordedAt(r, keys, outs, p) {
        SameRecord(before.ctx, r, keys, outs, p);
      }
    }
  }

  lemma SameRecord(a: Context, b: Context, keys: set<ViewingKey>, outs: seq<Output>, p: nat)
    requires RecordedAt(a, keys, outs, p) && SameAt(a, b, p)
    ensures RecordedAt(b, keys, outs, p)
  {
    hide Opener;
  }

  /** After a scan of any transactions with any keys, the context holds exactly the decryptions of the outputs. */
  lemma {:induction false} ScanIsExact(keys: set<ViewingKey>, chain: Chain, txs: seq<Tx>)
    ensures Records(ScanAll(Fresh(keys), chain, txs), keys, Outputs(txs))
    decreases |txs|
  {
    hide Records;
    if txs == [] {
      FreshRecords(keys);
    } else {
      var before, tx := txs[..|txs| - 1], txs[|txs| - 1];
      ScanIsExact(keys, chain, before);
      var w := Work(ScanAll(Fresh(keys), chain, before), map[]);
      ScanOutputsRecords(w, keys, Outputs(before), chain, tx.outputs);
      var o := ScanOutputs(w, chain, tx.outputs);
      ScanSpendsRecords(o, keys, Outputs(txs), chain, tx.spends);
      FinishRecords(ScanSpends(o, chain, tx.spends), tx, keys, Outputs(txs));
    }
  }

  lemma FreshRecords(keys: set<ViewingKey>)
    ensures Records(Fresh(keys), keys, [])
  {
  }

  lemma FinishRecords(w: Work, tx: Tx, keys: set<ViewingKey>, outs: seq<Output>)
    requires Records(w.ctx, keys, outs)
    ensures Records(Finish(w, tx), keys, outs)
  {
    hide RecordedAt;
    forall p: nat ensures RecordedAt(Finish(w, tx), keys, outs, p) {
      SameRecord(w.ctx, Finish(w, tx), keys, outs, p);
    }
  }

  // ---- Two scans side by side ----

  /** Two scans with different keys and one with all of them, in the middle of a transaction. */
  ghost predicate Joint(wa: Work, wb: Work, wf: Work, ka: set<ViewingKey>, kb: set<ViewingKey>, outs: seq<Output>,
                        chain: Chain) {
    && Shares(wa.ctx, wb.ctx, wf.ctx)
    && Holds(wa.ctx, ka, outs, chain) && Holds(wb.ctx, kb, outs, chain)
    && wf.delta == wa.delta + wb.delta && wa.delta.Keys <= ka && wb.delta.Keys <= kb
  }

  lemma LearnShared(a: map<Asset, Token>, b: map<Asset, Token>, chain: Chain, asset: Asset)
    requires forall x | x in a :: x in chain.assets && a[x] == chain.assets[x]
    requires forall x | x in b :: x in chain.assets && b[x] == chain.assets[x]
    ensures Learn(a + b, chain, asset) == Learn(a, chain, asset) + b
    ensures Learn(a + b, chain, asset) == a + Learn(b, chain, asset)
  {
  }

  /** What is credited depends only on what the client knows. */
  lemma CreditSame(delta: TransactionDelta, a: map<Asset, Token>, b: map<Asset, Token>, chain: Chain, vk: ViewingKey,
                   note: Note, sign: int)
    requires forall x | x in a :: x in chain.assets && a[x] == chain.assets[x]
    requires forall x | x in b :: x in chain.assets && b[x] == chain.assets[x]
    ensures Credit(delta, Learn(a, chain, note.asset), vk, note, sign) == Credit(delta, Learn(b, chain, note.asset), vk, note, sign)
  {
  }

  lemma CreditLeft(da: TransactionDelta, db: TransactionDelta, known: map<Asset, Token>, vk: ViewingKey, note: Note,
                   sign: int)
    requires vk !in db
    ensures Credit(da + db, known, vk, note, sign) == Credit(da, known, vk, note, sign) + db
  {
    hide AddNote;
    PutLeft(da, db, vk, AddNote(BalanceOf(da, vk), known, note, sign));
  }

  lemma CreditRight(da: TransactionDelta, db: TransactionDelta, known: map<Asset, Token>, vk: ViewingKey, note: Note,
                    sign: int)
    requires vk !in da
    ensures Credit(da + db, known, vk, note, sign) == da + Credit(db, known, vk, note, sign)
  {
    hide AddNote;
    assert BalanceOf(da + db, vk) == BalanceOf(db, vk);
    PutRight(da, db, vk, AddNote(BalanceOf(db, vk), known, note, sign));
  }

  lemma PutLeft<K, V>(a: map<K, V>, b: map<K, V>, k: K, v: V)
    requires k !in b
    ensures a[k := v] + b == (a + b)[k := v]
  {
  }

  lemma PutRight<K, V>(a: map<K, V>, b: map<K, V>, k: K, v: V)
    ensures a + b[k := v] == (a + b)[k := v]
  {
  }

  lemma ReceiveLeft(wa: Work, wb: Work, wf: Work, chain: Chain, vk: ViewingKey, pos: nat, opening: Opening)
    requires Shares(wa.ctx, wb.ctx, wf.ctx) && wf.delta == wa.delta + wb.delta
    requires vk in wa.ctx.posMap && vk !in wb.ctx.posMap && vk !in wb.delta
    requires pos !in wb.ctx.noteMap && pos !in wb.ctx.memoMap && pos !in wb.ctx.divMap && pos !in wb.ctx.vkMap
    requires chain.nullifier(opening.note, vk, pos) !in wb.ctx.nfMap
    requires Cached(wa.ctx, chain) && Cached(wb.ctx, chain)
    ensures var ra, rf := Receive(wa, chain, vk, pos, opening), Receive(wf, chain, vk, pos, opening);
            Shares(ra.ctx, wb.ctx, rf.ctx) && rf.delta == ra.delta + wb.delta
  {
    hide Credit, Learn;
    var a, b, f := wa.ctx, wb.ctx, wf.ctx;
    var asset := opening.note.asset;
    PutLeft(a.posMap, b.posMap, vk, a.posMap[vk] + {pos});
    PutLeft(a.nfMap, b.nfMap, chain.nullifier(opening.note, vk, pos), pos);
    PutLeft(a.noteMap, b.noteMap, pos, opening.note);
    PutLeft(a.memoMap, b.memoMap, pos, opening.memo);
    PutLeft(a.divMap, b.divMap, pos, opening.diversifier);
    PutLeft(a.vkMap, b.vkMap, pos, vk);
    LearnShared(a.assetTypes, b.assetTypes, chain, asset);
    CreditSame(wf.delta, f.assetTypes, a.assetTypes, chain, vk, opening.note, 1);
    CreditLeft(wa.delta, wb.delta, Learn(a.assetTypes, chain, asset), vk, opening.note, 1);
  }

  lemma ReceiveRight(wa: Work, wb: Work, wf: Work, chain: Chain, vk: ViewingKey, pos: nat, opening: Opening)
    requires Shares(wa.ctx, wb.ctx, wf.ctx) && wf.delta == wa.delta + wb.delta
    requires vk in wb.ctx.posMap && vk !in wa.delta
    requires Cached(wa.ctx, chain) && Cached(wb.ctx, chain)
    ensures var rb, rf := Receive(wb, chain, vk, pos, opening), Receive(wf, chain, vk, pos, opening);
            Shares(wa.ctx, rb.ctx, rf.ctx) && rf.delta == wa.delta + rb.delta
  {
    hide Credit, Learn;
    var a, b, f := wa.ctx, wb.ctx, wf.ctx;
    var asset := opening.note.asset;
    PutRight(a.posMap, b.posMap, vk, b.posMap[vk] + {pos});
    PutRight(a.nfMap, b.nfMap, chain.nullifier(opening.note, vk, pos), pos);
    PutRight(a.noteMap, b.noteMap, pos, opening.note);
    PutRight(a.memoMap, b.memoMap, pos, opening.memo);
    PutRight(a.divMap, b.divMap, pos, opening.diversifier);
    PutRight(a.vkMap, b.vkMap, pos, vk);
    LearnShared(a.assetTypes, b.assetTypes, chain, asset);
    CreditSame(wf.delta, f.assetTypes, b.assetTypes, chain, vk, opening.note, 1);
    CreditRight(wa.delta, wb.delta, Learn(b.assetTypes, chain, asset), vk, opening.note, 1);
  }

  ghost predicate Cached(c: Context, chain: Chain) {
    forall x | x in c.assetTypes :: x in chain.assets && c.assetTypes[x] == chain.assets[x]
  }

  lemma SpendCached(w: Work, chain: Chain, nf: Nullifier)
    requires Cached(w.ctx, chain)
    ensures Cached(ScanSpend(w, chain, nf).ctx, chain)
  {
    hide Credit;
  }

  lemma ExtendShares(a: Context, b: Context, f: Context, o: Output)
    requires Shares(a, b, f)
    ensures Shares(Extend(a, o), Extend(b, o), Extend(f, o))
  {
    hide MergeDeltas;
  }

  /** A nullifier of a new note is none of those another context holds. */
  lemma NullifierNew(b: Context, kb: set<ViewingKey>, outs: seq<Output>, chain: Chain, keys: set<ViewingKey>,
                     vk: ViewingKey, o: Output)
    requires Holds(b, kb, outs, chain) && kb <= keys && vk in keys && vk in o.opens
    requires NullifiersDistinct(outs + [o], keys, chain)
    ensures chain.nullifier(o.opens[vk].note, vk, |outs|) !in b.nfMap
  {
    hide Holds, NullifiersDistinct;
    var all := outs + [o];
    assert all[|outs|] == o;
    forall nf | nf in b.nfMap ensures nf != chain.nullifier(o.opens[vk].note, vk, |outs|) {
      HeldNullifier(b, kb, outs, chain, nf);
      assert all[b.nfMap[nf]] == outs[b.nfMap[nf]];
      DistinctAt(all, keys, chain, b.nfMap[nf], |outs|, b.vkMap[b.nfMap[nf]], vk);
    }
  }

  lemma HeldNullifier(b: Context, kb: set<ViewingKey>, outs: seq<Output>, chain: Chain, nf: Nullifier)
    requires Holds(b, kb, outs, chain) && nf in b.nfMap
    ensures var q := b.nfMap[nf];
            && q in b.vkMap && q < |outs| && b.vkMap[q] in kb && b.vkMap[q] in outs[q].opens
            && nf == chain.nullifier(outs[q].opens[b.vkMap[q]].note, b.vkMap[q], q)
  {
    assert NullifierOk(b, chain, nf);
    assert NoteOk(b, kb, outs, b.nfMap[nf]);
  }

  /** With one opener the order of the keys does not matter. */
  lemma OpenerSplit(ka: set<ViewingKey>, kb: set<ViewingKey>, outs: seq<Output>, o: Output)
    requires OneOpener(outs + [o], ka + kb) && ka !! kb
    ensures Opener(ka, o).Some? ==> Opener(kb, o).None? && Opener(ka + kb, o) == Opener(ka, o)
    ensures Opener(ka, o).None? ==> Opener(ka + kb, o) == Opener(kb, o)
  {
    var all := outs + [o];
    assert all[|outs|] == o;
    if Opener(ka, o).Some? {
      var vk := Opener(ka, o).value;
      forall u | u in (ka + kb) * o.opens.Keys ensures u == vk {
        assert u in all[|outs|].opens && vk in all[|outs|].opens;
      }
      assert vk in ka * o.opens.Keys;
      assert (ka + kb) * o.opens.Keys == {vk};
      assert ka * o.opens.Keys == {vk};
      forall u | u in kb ensures u !in o.opens.Keys {
        assert u in o.opens.Keys ==> u in (ka + kb) * o.opens.Keys;
      }
    } else {
      forall u | u in ka ensures u !in o.opens.Keys {
        assert u in o.opens.Keys ==> u in ka * o.opens.Keys;
      }
      assert (ka + kb) * o.opens.Keys == kb * o.opens.Keys;
    }
  }

  lemma HoldsFacts(c: Context, keys: set<ViewingKey>, outs: seq<Output>, chain: Chain)
    requires Holds(c, keys, outs, chain)
    ensures |c.tree| == |outs| && c.posMap.Keys == keys && Cached(c, chain)
    ensures |outs| !in c.noteMap && |outs| !in c.memoMap && |outs| !in c.divMap && |outs| !in c.vkMap
  {
    NextFree(c, keys, outs, chain);
  }

  lemma ScanOutputJoint(wa: Work, wb: Work, wf: Work, ka: set<ViewingKey>, kb: set<ViewingKey>, outs: seq<Output>,
                        chain: Chain, o: Output)
    requires Joint(wa, wb, wf, ka, kb, outs, chain) && ka !! kb
    requires OneOpener(outs + [o], ka + kb) && NullifiersDistinct(outs + [o], ka + kb, chain)
    ensures Joint(ScanOutput(wa, chain, o), ScanOutput(wb, chain, o), ScanOutput(wf, chain, o), ka, kb, outs + [o], chain)
  {
    hide Shares, Holds, Receive, Extend, Opener, OneOpener, NullifiersDistinct, Cached;
    HoldsFacts(wa.ctx, ka, outs, chain);
    HoldsFacts(wb.ctx, kb, outs, chain);
    ScanOutputHolds(wa, ka, outs, chain, o);
    ScanOutputHolds(wb, kb, outs, chain, o);
    SharesShape(wa.ctx, wb.ctx, wf.ctx);
    ExtendShares(wa.ctx, wb.ctx, wf.ctx, o);
    ExtendMaps(wa.ctx, o);
    ExtendMaps(wb.ctx, o);
    ExtendMaps(wf.ctx, o);
    OpenerSplit(ka, kb, outs, o);
    OpenerAble(ka, o);
    OpenerAble(kb, o);
    OpenerAble(ka + kb, o);
    var ea, eb, ef := wa.(ctx := Extend(wa.ctx, o)), wb.(ctx := Extend(wb.ctx, o)), wf.(ctx := Extend(wf.ctx, o));
    var pos := |outs|;
    ExtendCached(wa.ctx, chain, o);
    ExtendCached(wb.ctx, chain, o);
    if Opener(ka, o).Some? {
      var vk := Opener(ka, o).value;
      NullifierNew(wb.ctx, kb, outs, chain, ka + kb, vk, o);
      ReceiveLeft(ea, eb, ef, chain, vk, pos, o.opens[vk]);
      ReceiveDelta(ea, chain, vk, pos, o.opens[vk]);
    } else if Opener(kb, o).Some? {
      var vk := Opener(kb, o).value;
      ReceiveRight(ea, eb, ef, chain, vk, pos, o.opens[vk]);
      ReceiveDelta(eb, chain, vk, pos, o.opens[vk]);
    }
  }

  lemma SharesShape(a: Context, b: Context, f: Context)
    requires Shares(a, b, f)
    ensures a.tree == b.tree == f.tree && f.posMap.Keys == a.posMap.Keys + b.posMap.Keys
  {
  }

  lemma ExtendMaps(c: Context, o: Output)
    ensures var e := Extend(c, o);
            && e.posMap == c.posMap && e.nfMap == c.nfMap && e.noteMap == c.noteMap && e.memoMap == c.memoMap
            && e.divMap == c.divMap && e.vkMap == c.vkMap
  {
  }

  lemma ExtendCached(c: Context, chain: Chain, o: Output)
    requires Cached(c, chain)
    ensures Cached(Extend(c, o), chain)
  {
  }

  lemma OpenerAble(keys: set<ViewingKey>, o: Output)
    ensures Opener(keys, o).Some? ==> Opener(keys, o).value in keys && Opener(keys, o).value in o.opens
  {
  }

  lemma ReceiveDelta(w: Work, chain: Chain, vk: ViewingKey, pos: nat, opening: Opening)
    requires vk in w.ctx.posMap
    ensures Receive(w, chain, vk, pos, opening).delta.Keys == w.delta.Keys + {vk}
  {
  }

  lemma OneOpenerPrefix(outs: seq<Output>, more: seq<Output>, keys: set<ViewingKey>)
    requires OneOpener(outs + more, keys)
    ensures OneOpener(outs, keys)
  {
    assert forall p | 0 <= p < |outs| :: (outs + more)[p] == outs[p];
  }

  lemma NullifiersPrefix(outs: seq<Output>, more: seq<Output>, keys: set<ViewingKey>, chain: Chain)
    requires NullifiersDistinct(outs + more, keys, chain)
    ensures NullifiersDistinct(outs, keys, chain)
  {
    assert forall p | 0 <= p < |outs| :: (outs + more)[p] == outs[p];
  }

  lemma {:induction false} ScanOutputsJoint(wa: Work, wb: Work, wf: Work, ka: set<ViewingKey>, kb: set<ViewingKey>,
                                            outs: seq<Output>, chain: Chain, os: seq<Output>)
    requires Joint(wa, wb, wf, ka, kb, outs, chain) && ka !! kb
    requires OneOpener(outs + os, ka + kb) && NullifiersDistinct(outs + os, ka + kb, chain)
    ensures Joint(ScanOutputs(wa, chain, os), ScanOutputs(wb, chain, os), ScanOutputs(wf, chain, os), ka, kb, outs + os, chain)
    decreases |os|
  {
    hide Joint, ScanOutput, OneOpener, NullifiersDistinct;
    if os == [] {
      assert outs + os == outs;
    } else {
      var before, o := os[..|os| - 1], os[|os| - 1];
      assert outs + os == (outs + before) + [o];
      OneOpenerPrefix(outs + before, [o], ka + kb);
      NullifiersPrefix(outs + before, [o], ka + kb, chain);
      ScanOutputsJoint(wa, wb, wf, ka, kb, outs, chain, before);
      ScanOutputJoint(ScanOutputs(wa, chain, before), ScanOutputs(wb, chain, before), ScanOutputs(wf, chain, before),
                      ka, kb, outs + before, chain, o);
    }
  }

  /** The two contexts hold different notes. */
  lemma NotesApart(a: Context, b: Context, ka: set<ViewingKey>, kb: set<ViewingKey>, outs: seq<Output>, chain: Chain,
                   p: nat)
    requires Holds(a, ka, outs, chain) && Holds(b, kb, outs, chain) && ka !! kb && OneOpener(outs, ka + kb)
    ensures p in a.vkMap ==> p !in b.vkMap
  {
    assert p in a.vkMap ==> NoteOk(a, ka, outs, p);
    assert p in b.vkMap ==> NoteOk(b, kb, outs, p);
  }

  /** A nullifier is held by at most one of the two contexts. */
  lemma NullifierApart(a: Context, b: Context, ka: set<ViewingKey>, kb: set<ViewingKey>, outs: seq<Output>,
                       chain: Chain, nf: Nullifier)
    requires Holds(a, ka, outs, chain) && Holds(b, kb, outs, chain) && ka !! kb
    requires OneOpener(outs, ka + kb) && NullifiersDistinct(outs, ka + kb, chain)
    ensures nf in a.nfMap ==> nf !in b.nfMap
  {
    hide Holds, OneOpener, NullifiersDistinct;
    if nf in a.nfMap {
      HeldNullifier(a, ka, outs, chain, nf);
      var p := a.nfMap[nf];
      NotesApart(a, b, ka, kb, outs, chain, p);
      forall n | n in b.nfMap ensures n != nf {
        HeldNullifier(b, kb, outs, chain, n);
        DistinctAt(outs, ka + kb, chain, p, b.nfMap[n], a.vkMap[p], b.vkMap[b.nfMap[n]]);
      }
    }
  }

  lemma DistinctAt(outs: seq<Output>, keys: set<ViewingKey>, chain: Chain, p: nat, q: nat, u: ViewingKey, v: ViewingKey)
    requires NullifiersDistinct(outs, keys, chain) && p < |outs| && q < |outs| && p != q
    requires u in keys && v in keys && u in outs[p].opens && v in outs[q].opens
    ensures chain.nullifier(outs[p].opens[u].note, u, p) != chain.nullifier(outs[q].opens[v].note, v, q)
  {
    assert p < q || q < p;
  }

  lemma SpendNothing(w: Work, chain: Chain, nf: Nullifier)
    requires nf !in w.ctx.nfMap
    ensures ScanSpend(w, chain, nf) == w
  {
  }

  lemma SpendLeft(wa: Work, wb: Work, wf: Work, chain: Chain, pos: nat, vk: ViewingKey, note: Note)
    requires Shares(wa.ctx, wb.ctx, wf.ctx) && wf.delta == wa.delta + wb.delta && vk !in wb.delta
    requires Cached(wa.ctx, chain) && Cached(wb.ctx, chain)
    ensures var ra, rf := Spend(wa, chain, pos, vk, note), Spend(wf, chain, pos, vk, note);
            Shares(ra.ctx, wb.ctx, rf.ctx) && rf.delta == ra.delta + wb.delta
  {
    hide Credit, Learn, MergeDeltas;
    var a, b, f := wa.ctx, wb.ctx, wf.ctx;
    LearnShared(a.assetTypes, b.assetTypes, chain, note.asset);
    CreditSame(wf.delta, f.assetTypes, a.assetTypes, chain, vk, note, -1);
    CreditLeft(wa.delta, wb.delta, Learn(a.assetTypes, chain, note.asset), vk, note, -1);
    assert f.spents + {pos} == (a.spents + {pos}) + b.spents;
  }

  lemma SpendRight(wa: Work, wb: Work, wf: Work, chain: Chain, pos: nat, vk: ViewingKey, note: Note)
    requires Shares(wa.ctx, wb.ctx, wf.ctx) && wf.delta == wa.delta + wb.delta && vk !in wa.delta
    requires Cached(wa.ctx, chain) && Cached(wb.ctx, chain)
    ensures var rb, rf := Spend(wb, chain, pos, vk, note), Spend(wf, chain, pos, vk, note);
            Shares(wa.ctx, rb.ctx, rf.ctx) && rf.delta == wa.delta + rb.delta
  {
    hide Credit, Learn, MergeDeltas;
    var a, b, f := wa.ctx, wb.ctx, wf.ctx;
    LearnShared(a.assetTypes, b.assetTypes, chain, note.asset);
    CreditSame(wf.delta, f.assetTypes, b.assetTypes, chain, vk, note, -1);
    CreditRight(wa.delta, wb.delta, Learn(b.assetTypes, chain, note.asset), vk, note, -1);
    assert f.spents + {pos} == a.spents + (b.spents + {pos});
  }

  /** What the nullifier of a held note leads to, in the context that holds it and in the one with all keys. */
  lemma SpendFound(w: Work, wf: Work, chain: Chain, nf: Nullifier)
    requires nf in w.ctx.nfMap && nf in wf.ctx.nfMap && wf.ctx.nfMap[nf] == w.ctx.nfMap[nf]
    requires var p := w.ctx.nfMap[nf];
             && p in w.ctx.vkMap && p in w.ctx.noteMap && p in wf.ctx.vkMap && p in wf.ctx.noteMap
             && wf.ctx.vkMap[p] == w.ctx.vkMap[p] && wf.ctx.noteMap[p] == w.ctx.noteMap[p]
    ensures var p := w.ctx.nfMap[nf];
            && ScanSpend(w, chain, nf) == Spend(w, chain, p, w.ctx.vkMap[p], w.ctx.noteMap[p])
            && ScanSpend(wf, chain, nf) == Spend(wf, chain, p, w.ctx.vkMap[p], w.ctx.noteMap[p])
  {
  }

  lemma SharedLeft(a: Context, b: Context, f: Context, nf: Nullifier)
    requires Shares(a, b, f) && nf in a.nfMap && nf !in b.nfMap
    requires var p := a.nfMap[nf]; p in a.vkMap && p in a.noteMap && p !in b.vkMap && p !in b.noteMap
    ensures nf in f.nfMap && f.nfMap[nf] == a.nfMap[nf]
    ensures var p := a.nfMap[nf];
            p in f.vkMap && p in f.noteMap && f.vkMap[p] == a.vkMap[p] && f.noteMap[p] == a.noteMap[p]
  {
    hide MergeDeltas;
  }

  lemma SharedRight(a: Context, b: Context, f: Context, nf: Nullifier)
    requires Shares(a, b, f) && nf in b.nfMap
    requires var p := b.nfMap[nf]; p in b.vkMap && p in b.noteMap
    ensures nf in f.nfMap && f.nfMap[nf] == b.nfMap[nf]
    ensures var p := b.nfMap[nf];
            p in f.vkMap && p in f.noteMap && f.vkMap[p] == b.vkMap[p] && f.noteMap[p] == b.noteMap[p]
  {
    hide MergeDeltas;
  }

  lemma SpendDelta(w: Work, keys: set<ViewingKey>, outs: seq<Output>, chain: Chain, nf: Nullifier)
    requires Holds(w.ctx, keys, outs, chain) && w.delta.Keys <= keys
    ensures ScanSpend(w, chain, nf).delta.Keys <= keys
    ensures Cached(w.ctx, chain)
    ensures nf in w.ctx.nfMap ==>
              var p := w.ctx.nfMap[nf]; p in w.ctx.vkMap && p in w.ctx.noteMap && w.ctx.vkMap[p] in keys
  {
    hide AddNote, Learn;
    if nf in w.ctx.nfMap {
      assert NullifierOk(w.ctx, chain, nf);
      assert NoteOk(w.ctx, keys, outs, w.ctx.nfMap[nf]);
    }
  }

  lemma SameNotes(c: Context, keys: set<ViewingKey>, outs: seq<Output>, chain: Chain)
    requires Holds(c, keys, outs, chain)
    ensures c.noteMap.Keys == c.vkMap.Keys
  {
  }

  lemma ScanSpendJoint(wa: Work, wb: Work, wf: Work, ka: set<ViewingKey>, kb: set<ViewingKey>, outs: seq<Output>,
                       chain: Chain, nf: Nullifier)
    requires Joint(wa, wb, wf, ka, kb, outs, chain) && ka !! kb
    requires OneOpener(outs, ka + kb) && NullifiersDistinct(outs, ka + kb, chain)
    ensures Joint(ScanSpend(wa, chain, nf), ScanSpend(wb, chain, nf), ScanSpend(wf, chain, nf), ka, kb, outs, chain)
  {
    hide Shares, Holds, ScanSpend, Spend, OneOpener, NullifiersDistinct, Cached;
    ScanSpendHolds(wa, ka, outs, chain, nf);
    ScanSpendHolds(wb, kb, outs, chain, nf);
    SpendDelta(wa, ka, outs, chain, nf);
    SpendDelta(wb, kb, outs, chain, nf);
    NullifierApart(wa.ctx, wb.ctx, ka, kb, outs, chain, nf);
    if nf in wa.ctx.nfMap {
      NotesApart(wa.ctx, wb.ctx, ka, kb, outs, chain, wa.ctx.nfMap[nf]);
      SameNotes(wb.ctx, kb, outs, chain);
      SpendNothing(wb, chain, nf);
      SharedLeft(wa.ctx, wb.ctx, wf.ctx, nf);
      SpendFound(wa, wf, chain, nf);
      var p := wa.ctx.nfMap[nf];
      SpendLeft(wa, wb, wf, chain, p, wa.ctx.vkMap[p], wa.ctx.noteMap[p]);
    } else if nf in wb.ctx.nfMap {
      SpendNothing(wa, chain, nf);
      SharedRight(wa.ctx, wb.ctx, wf.ctx, nf);
      SpendFound(wb, wf, chain, nf);
      var p := wb.ctx.nfMap[nf];
      SpendRight(wa, wb, wf, chain, p, wb.ctx.vkMap[p], wb.ctx.noteMap[p]);
    } else {
      SpendNothing(wa, chain, nf);
      SpendNothing(wb, chain, nf);
      SharedNullifiers(wa.ctx, wb.ctx, wf.ctx, nf);
      SpendNothing(wf, chain, nf);
    }
  }

  lemma SharedNullifiers(a: Context, b: Context, f: Context, nf: Nullifier)
    requires Shares(a, b, f) && nf !in a.nfMap && nf !in b.nfMap
    ensures nf !in f.nfMap
  {
  }

  lemma {:induction false} ScanSpendsJoint(wa: Work, wb: Work, wf: Work, ka: set<ViewingKey>, kb: set<ViewingKey>,
                                           outs: seq<Output>, chain: Chain, nfs: seq<Nullifier>)
    requires Joint(wa, wb, wf, ka, kb, outs, chain) && ka !! kb
    requires OneOpener(outs, ka + kb) && NullifiersDistinct(outs, ka + kb, chain)
    ensures Joint(ScanSpends(wa, chain, nfs), ScanSpends(wb, chain, nfs), ScanSpends(wf, chain, nfs), ka, kb, outs, chain)
    decreases |nfs|
  {
    hide Joint, ScanSpend, OneOpener, NullifiersDistinct;
    if nfs != [] {
      var before, nf := nfs[..|nfs| - 1], nfs[|nfs| - 1];
      ScanSpendsJoint(wa, wb, wf, ka, kb, outs, chain, before);
      ScanSpendJoint(ScanSpends(wa, chain, before), ScanSpends(wb, chain, before), ScanSpends(wf, chain, before),
                     ka, kb, outs, chain, nf);
    }
  }

  lemma FinishShares(wa: Work, wb: Work, wf: Work, tx: Tx)
    requires Shares(wa.ctx, wb.ctx, wf.ctx) && wf.delta == wa.delta + wb.delta
    ensures Shares(Finish(wa, tx), Finish(wb, tx), Finish(wf, tx))
  {
    var da, db := Delta(tx.epoch, TransferDelta(tx), wa.delta), Delta(tx.epoch, TransferDelta(tx), wb.delta);
    MergeDeltasPut(wa.ctx.deltaMap, wb.ctx.deltaMap, tx.id, da, db);
    assert TransferDelta(tx) + TransferDelta(tx) == TransferDelta(tx);
  }

  lemma MergeDeltasPut(a: map<TxId, Delta>, b: map<TxId, Delta>, id: TxId, da: Delta, db: Delta)
    ensures MergeDeltas(a[id := da], b[id := db]) == MergeDeltas(a, b)[id := MergeDelta(da, db)]
  {
  }

  lemma FinishHolds(w: Work, keys: set<ViewingKey>, outs: seq<Output>, chain: Chain, tx: Tx)
    requires Holds(w.ctx, keys, outs, chain)
    ensures Holds(Finish(w, tx), keys, outs, chain)
  {
    var f := Finish(w, tx);
    forall p | p in f.vkMap ensures NoteOk(f, keys, outs, p) {
      assert NoteOk(w.ctx, keys, outs, p);
    }
    forall nf | nf in f.nfMap ensures NullifierOk(f, chain, nf) {
      assert NullifierOk(w.ctx, chain, nf);
    }
  }

  lemma ScanTxShares(a: Context, b: Context, f: Context, ka: set<ViewingKey>, kb: set<ViewingKey>, outs: seq<Output>,
                     chain: Chain, tx: Tx)
    requires Shares(a, b, f) && Holds(a, ka, outs, chain) && Holds(b, kb, outs, chain) && ka !! kb
    requires OneOpener(outs + tx.outputs, ka + kb) && NullifiersDistinct(outs + tx.outputs, ka + kb, chain)
    ensures Shares(ScanTx(a, chain, tx), ScanTx(b, chain, tx), ScanTx(f, chain, tx))
    ensures Holds(ScanTx(a, chain, tx), ka, outs + tx.outputs, chain)
    ensures Holds(ScanTx(b, chain, tx), kb, outs + tx.outputs, chain)
  {
    hide Shares, Holds, ScanOutputs, ScanSpends, Finish, OneOpener, NullifiersDistinct;
    var none: TransactionDelta := map[];
    var wa, wb, wf := Work(a, none), Work(b, none), Work(f, none);
    assert none + none == none;
    ScanOutputsJoint(wa, wb, wf, ka, kb, outs, chain, tx.outputs);
    var oa, ob, of := ScanOutputs(wa, chain, tx.outputs), ScanOutputs(wb, chain, tx.outputs), ScanOutputs(wf, chain, tx.outputs);
    ScanSpendsJoint(oa, ob, of, ka, kb, outs + tx.outputs, chain, tx.spends);
    var sa, sb, sf := ScanSpends(oa, chain, tx.spends), ScanSpends(ob, chain, tx.spends), ScanSpends(of, chain, tx.spends);
    FinishShares(sa, sb, sf, tx);
    FinishHolds(sa, ka, outs + tx.outputs, chain, tx);
    FinishHolds(sb, kb, outs + tx.outputs, chain, tx);
  }

  lemma {:induction false} ScanAllShares(ka: set<ViewingKey>, kb: set<ViewingKey>, chain: Chain, txs: seq<Tx>)
    requires ka !! kb && OneOpener(Outputs(txs), ka + kb) && NullifiersDistinct(Outputs(txs), ka + kb, chain)
    ensures Shares(ScanAll(Fresh(ka), chain, txs), ScanAll(Fresh(kb), chain, txs), ScanAll(Fresh(ka + kb), chain, txs))
    ensures Holds(ScanAll(Fresh(ka), chain, txs), ka, Outputs(txs), chain)
    ensures Holds(ScanAll(Fresh(kb), chain, txs), kb, Outputs(txs), chain)
    decreases |txs|
  {
    hide Shares, Holds, ScanTx, OneOpener, NullifiersDistinct, Fresh;
    if txs == [] {
      FreshShares(ka, kb);
      FreshHolds(ka, chain);
      FreshHolds(kb, chain);
    } else {
      var before, tx := txs[..|txs| - 1], txs[|txs| - 1];
      OneOpenerPrefix(Outputs(before), tx.outputs, ka + kb);
      NullifiersPrefix(Outputs(before), tx.outputs, ka + kb, chain);
      ScanAllShares(ka, kb, chain, before);
      ScanTxShares(ScanAll(Fresh(ka), chain, before), ScanAll(Fresh(kb), chain, before),
                   ScanAll(Fresh(ka + kb), chain, before), ka, kb, Outputs(before), chain, tx);
    }
  }

  lemma FreshShares(ka: set<ViewingKey>, kb: set<ViewingKey>)
    ensures Shares(Fresh(ka), Fresh(kb), Fresh(ka + kb))
  {
  }

  lemma FreshHolds(keys: set<ViewingKey>, chain: Chain)
    ensures Holds(Fresh(keys), keys, [], chain)
  {
  }

  /** Scanning for new keys separately and merging is the same as one scan with all keys. */
  lemma MergeIsFullScan(ka: set<ViewingKey>, kb: set<ViewingKey>, chain: Chain, txs: seq<Tx>)
    requires ka !! kb && OneOpener(Outputs(txs), ka + kb) && NullifiersDistinct(Outputs(txs), ka + kb, chain)
    ensures Merge(ScanAll(Fresh(ka), chain, txs), ScanAll(Fresh(kb), chain, txs)) == ScanAll(Fresh(ka + kb), chain, txs)
  {
    hide ScanAll, OneOpener, NullifiersDistinct, Holds, MergeDeltas;
    ScanAllShares(ka, kb, chain, txs);
  }
}
