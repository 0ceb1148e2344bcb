/** What a block means for the wallet, and that a filter that watches the wallet's
    look-ahead finds exactly that. */
module OwnTransactions {
  import opened ChainData
  import opened Optional
  import opened Recovery
  import opened BlockFilter
  import opened BlockRelevance
  import opened FilterBlocks
  import opened KeyTree
  import opened RecoveryScan

  predicate PaysChild(b: Backend, keys: Keys, script: Script, id: BranchId, i: nat) {
    keys.valid(id)(i) && b.extract(script).Some? && keys.addr(id)(i) in b.extract(script).value
  }

  /** The output pays to a valid child of a tracked branch. */
  ghost predicate PaysOwn(b: Backend, keys: Keys, ids: set<BranchId>, script: Script) {
    exists id, i :: id in ids && PaysChild(b, keys, script, id, i)
  }

  ghost predicate PaysOwnAt(b: Backend, keys: Keys, ids: set<BranchId>, tx: Tx, o: nat) {
    o < |tx.outs| && PaysOwn(b, keys, ids, tx.outs[o])
  }

  /** One of the transactions creates this outpoint for the wallet. */
  ghost predicate CreatesOwn(b: Backend, keys: Keys, ids: set<BranchId>, txs: seq<Tx>, op: OutPoint) {
    exists tx :: tx in txs && tx.id == op.tx && PaysOwnAt(b, keys, ids, tx, op.index)
  }

  /** The block creates this outpoint for the wallet. */
  ghost predicate OwnOutput(b: Backend, keys: Keys, ids: set<BranchId>, h: nat, op: OutPoint) {
    b.fetch(h).Some? && CreatesOwn(b, keys, ids, b.fetch(h).value.txs, op)
  }

  /** The outpoint was known from the start, or one of the first j blocks creates it for the
      wallet. */
  ghost predicate KnownBy(
    b: Backend, keys: Keys, ids: set<BranchId>, known: set<OutPoint>, batch: seq<nat>, j: nat, op: OutPoint)
    requires j <= |batch|
  {
    op in known || exists k :: 0 <= k < j && OwnOutput(b, keys, ids, batch[k], op)
  }

  /** A transaction of block j pays to the wallet, or spends an outpoint that was known
      before the block or that the given transactions create for the wallet. */
  ghost predicate ConcernsGiven(
    b: Backend, keys: Keys, ids: set<BranchId>, known: set<OutPoint>, batch: seq<nat>, j: nat, given: seq<Tx>, tx: Tx)
    requires j <= |batch|
  {
    || (exists o :: PaysOwnAt(b, keys, ids, tx, o))
    || exists op :: op in tx.ins &&
         (KnownBy(b, keys, ids, known, batch, j, op) || CreatesOwn(b, keys, ids, given, op))
  }

  /** Block j holds the transaction, and it concerns the wallet: what the block itself has
      created for the wallet by then counts too. */
  ghost predicate Concerns(
    b: Backend, keys: Keys, ids: set<BranchId>, known: set<OutPoint>, batch: seq<nat>, j: nat, tx: Tx)
    requires j < |batch|
  {
    && b.fetch(batch[j]).Some?
    && var txs := b.fetch(batch[j]).value.txs;
       exists i :: 0 <= i < |txs| && txs[i] == tx && ConcernsGiven(b, keys, ids, known, batch, j, txs[..i], tx)
  }

  /** In a topologically ordered block, as every valid one is, the order does not matter:
      what the block creates for the wallet anywhere counts. */
  lemma {:induction false} ConcernsInAnyOrder(
    b: Backend, keys: Keys, ids: set<BranchId>, known: set<OutPoint>, batch: seq<nat>, j: nat, tx: Tx)
    requires j < |batch| && b.fetch(batch[j]).Some? && TopologicallyOrdered(b.fetch(batch[j]).value.txs)
    ensures
      var txs := b.fetch(batch[j]).value.txs;
      Concerns(b, keys, ids, known, batch, j, tx) <==>
        tx in txs && ConcernsGiven(b, keys, ids, known, batch, j, txs, tx)
  {
    var txs := b.fetch(batch[j]).value.txs;
    forall i | 0 <= i < |txs| && txs[i] == tx
      ensures ConcernsGiven(b, keys, ids, known, batch, j, txs[..i], tx) <==>
                ConcernsGiven(b, keys, ids, known, batch, j, txs, tx)
    {
      forall op | op in tx.ins
        ensures CreatesOwn(b, keys, ids, txs[..i], op) <==> CreatesOwn(b, keys, ids, txs, op)
      {
        CreatedBefore(b, keys, ids, txs, i, op);
      }
    }
  }

  lemma CreatedBefore(b: Backend, keys: Keys, ids: set<BranchId>, txs: seq<Tx>, i: nat, op: OutPoint)
    requires i < |txs| && TopologicallyOrdered(txs) && op in txs[i].ins
    ensures CreatesOwn(b, keys, ids, txs[..i], op) <==> CreatesOwn(b, keys, ids, txs, op)
  {
    if CreatesOwn(b, keys, ids, txs, op) {
      var tx :| tx in txs && tx.id == op.tx && PaysOwnAt(b, keys, ids, tx, op.index);
      var k :| 0 <= k < |txs| && txs[k] == tx;
      assert tx in txs[..i];
    }
  }

  /** The addresses of the watched children are on the watch list, and no others. */
  lemma ChildIsWatched(
    b: Backend, keys: Keys, branches: Branches, outPoints: map<OutPoint, Address>, req: seq<nat>, id: BranchId, i: nat)
    requires GoodKeys(keys) && AllWatching(keys, branches) && id in branches && i in branches[id].addresses
    ensures Watched(WatchOf(b, RequestOf(branches, outPoints, req)), keys.addr(id)(i))
  {
    RequestIsDistinct(keys, branches, outPoints, req);
    var m := AddrsOf(branches, id.internal);
    assert ScopedIndex(id.scope, i) in m;
    assert m[ScopedIndex(id.scope, i)] in Reverse(m);
  }

  lemma ReverseIsChild(keys: Keys, branches: Branches, internal: bool, a: Address) returns (id: BranchId, i: nat)
    requires AllWatching(keys, branches) && a in Reverse(AddrsOf(branches, internal))
    ensures id in branches && keys.valid(id)(i) && keys.addr(id)(i) == a
  {
    var si := Reverse(AddrsOf(branches, internal))[a];
    AddrIsOfChild(keys, branches, internal, si);
    id, i := BranchId(si.scope, internal), si.index;
  }

  lemma WatchedIsChild(
    b: Backend, keys: Keys, branches: Branches, outPoints: map<OutPoint, Address>, req: seq<nat>, a: Address)
    returns (id: BranchId, i: nat)
    requires AllWatching(keys, branches) && Watched(WatchOf(b, RequestOf(branches, outPoints, req)), a)
    ensures id in branches && keys.valid(id)(i) && keys.addr(id)(i) == a
  {
    if a in Reverse(AddrsOf(branches, false)) {
      id, i := ReverseIsChild(keys, branches, false, a);
    } else {
      id, i := ReverseIsChild(keys, branches, true, a);
    }
  }

  lemma AddrPays(w: Watch, tx: Tx, o: nat, a: Address)
    requires o < |tx.outs| && w.extract(tx.outs[o]).Some? && a in w.extract(tx.outs[o]).value && Watched(w, a)
    ensures PaysAt(w, tx, o)
  {
    assert a in Addrs(w, tx.outs[o]);
  }

  /** The watch list sees an output of the block if and only if it pays to the wallet, if
      the block uses only watched children. */
  lemma OwnIsSeen(
    b: Backend, keys: Keys, branches: Branches, outPoints: map<OutPoint, Address>, req: seq<nat>, h: nat, tx: Tx, o: nat)
    requires GoodKeys(keys) && AllWatching(keys, branches)
    requires b.fetch(h).Some? && tx in b.fetch(h).value.txs
    requires forall id, i: nat :: id in branches && Uses(b, keys, h, id, i) ==> i in branches[id].addresses
    ensures PaysOwnAt(b, keys, branches.Keys, tx, o) ==> PaysAt(WatchOf(b, RequestOf(branches, outPoints, req)), tx, o)
  {
    var w := WatchOf(b, RequestOf(branches, outPoints, req));
    if PaysOwnAt(b, keys, branches.Keys, tx, o) {
      var id, i: nat :| id in branches.Keys && PaysChild(b, keys, tx.outs[o], id, i);
      assert Uses(b, keys, h, id, i);
      ChildIsWatched(b, keys, branches, outPoints, req, id, i);
      AddrPays(w, tx, o, keys.addr(id)(i));
    }
  }

  lemma SeenIsOwn(
    b: Backend, keys: Keys, branches: Branches, outPoints: map<OutPoint, Address>, req: seq<nat>, tx: Tx, o: nat)
    requires AllWatching(keys, branches) && PaysAt(WatchOf(b, RequestOf(branches, outPoints, req)), tx, o)
    ensures PaysOwnAt(b, keys, branches.Keys, tx, o)
  {
    var w := WatchOf(b, RequestOf(branches, outPoints, req));
    var a :| a in Addrs(w, tx.outs[o]) && Watched(w, a);
    var id, i := WatchedIsChild(b, keys, branches, outPoints, req, a);
    assert PaysChild(b, keys, tx.outs[o], id, i);
  }

  /** The watch list sees exactly the wallet's outputs among those of the transactions. */
  ghost predicate SeesOwn(b: Backend, keys: Keys, ids: set<BranchId>, w: Watch, txs: seq<Tx>) {
    forall x, o: nat :: x in txs ==> (PaysAt(w, x, o) <==> PaysOwnAt(b, keys, ids, x, o))
  }

  /** If the watch list sees exactly the wallet's outputs and outpoints, what it calls
      relevant is what concerns the wallet. */
  lemma RelevantIsConcerning(
    b: Backend, keys: Keys, ids: set<BranchId>, known: set<OutPoint>, batch: seq<nat>, j: nat, w: Watch,
    given: seq<Tx>, tx: Tx)
    requires j <= |batch| && SeesOwn(b, keys, ids, w, given) && SeesOwn(b, keys, ids, w, [tx])
    requires forall op :: op in w.outPoints <==> KnownBy(b, keys, ids, known, batch, j, op)
    ensures Relevant(w, given, tx) <==> ConcernsGiven(b, keys, ids, known, batch, j, given, tx)
  {
    assert tx in [tx];
    assert Pays(w, tx, |tx.outs|) <==> exists o :: PaysOwnAt(b, keys, ids, tx, o) by {
      if i :| 0 <= i < |tx.outs| && PaysAt(w, tx, i) {
        assert PaysOwnAt(b, keys, ids, tx, i);
      }
      if o: nat :| PaysOwnAt(b, keys, ids, tx, o) {
        assert PaysAt(w, tx, o);
      }
    }
    forall op
      ensures CreatedIn(w, given, op) <==> CreatesOwn(b, keys, ids, given, op)
    {
    }
  }

  lemma OwnAreSeen(
    b: Backend, keys: Keys, branches: Branches, outPoints: map<OutPoint, Address>, req: seq<nat>, h: nat)
    requires GoodKeys(keys) && AllWatching(keys, branches) && b.fetch(h).Some?
    requires forall id, i: nat :: id in branches && Uses(b, keys, h, id, i) ==> i in branches[id].addresses
    ensures SeesOwn(b, keys, branches.Keys, WatchOf(b, RequestOf(branches, outPoints, req)), b.fetch(h).value.txs)
  {
    var w := WatchOf(b, RequestOf(branches, outPoints, req));
    forall x, o: nat | x in b.fetch(h).value.txs
      ensures PaysAt(w, x, o) <==> PaysOwnAt(b, keys, branches.Keys, x, o)
    {
      OwnIsSeen(b, keys, branches, outPoints, req, h, x, o);
      if PaysAt(w, x, o) {
        SeenIsOwn(b, keys, branches, outPoints, req, x, o);
      }
    }
  }

  /** A block's outputs to the wallet are exactly the outpoints that the filter finds. */
  lemma {:induction false} OwnIsFound(b: Backend, keys: Keys, ids: set<BranchId>, w: Watch, h: nat, op: OutPoint)
    requires b.fetch(h).Some? && SeesOwn(b, keys, ids, w, b.fetch(h).value.txs)
    ensures op in BlockFound(w, NothingFound, b.fetch(h).value.txs).outPoints <==> OwnOutput(b, keys, ids, h, op)
  {
    FoundOutPointsExactly(w, b.fetch(h).value.txs, op);
  }

  /** The transactions that concern the wallet are exactly those that the filter finds. */
  lemma {:induction false} ConcernsIsFound(
    b: Backend, keys: Keys, ids: set<BranchId>, known: set<OutPoint>, batch: seq<nat>, j: nat, w: Watch, tx: Tx)
    requires j < |batch| && b.fetch(batch[j]).Some? && SeesOwn(b, keys, ids, w, b.fetch(batch[j]).value.txs)
    requires forall op :: op in w.outPoints <==> KnownBy(b, keys, ids, known, batch, j, op)
    ensures tx in BlockFound(w, NothingFound, b.fetch(batch[j]).value.txs).txs <==>
              Concerns(b, keys, ids, known, batch, j, tx)
  {
    var txs := b.fetch(batch[j]).value.txs;
    FoundTxnsExactly(w, txs, tx);
    forall i | 0 <= i < |txs| && txs[i] == tx
      ensures Relevant(w, txs[..i], tx) <==> ConcernsGiven(b, keys, ids, known, batch, j, txs[..i], tx)
    {
      RelevantIsConcerning(b, keys, ids, known, batch, j, w, txs[..i], tx);
    }
  }
}
