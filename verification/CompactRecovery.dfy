/** When recovery may rely on compact filters (the FilterBlocks of chain/flcd.go and
    chain/neutrino.go): the filters of the blocks and the scripts in them are such that a
    request is answered as by a scan of every block. */
module CompactRecovery {
  import opened ChainData
  import opened Optional
  import opened KeyTree
  import opened Recovery
  import opened BlockFilter
  import opened BlockRelevance
  import opened FilterBlocks
  import opened RecoveryScan
  import opened OwnTransactions

  /** The script of every outpoint, and the scripts that basic filters leave out. */
  datatype Scripts = Scripts(spent: OutPoint -> Script, leftOut: Script -> bool)

  /** An output that pays to one of the wallet's keys has that address's own script, which
      pays to no other address. */
  ghost predicate CanonicalOutput(b: Backend, keys: Keys, ids: set<BranchId>, script: Script) {
    forall id, i: nat :: id in ids && PaysChild(b, keys, script, id, i) ==>
      script == b.payToAddr(keys.addr(id)(i)) && b.extract(script).value == [keys.addr(id)(i)]
  }

  ghost predicate CanonicalBlock(b: Backend, keys: Keys, ids: set<BranchId>, block: Block, scripts: Scripts) {
    forall tx, i: nat :: tx in block.txs && i < |tx.outs| ==>
      CanonicalOutput(b, keys, ids, tx.outs[i]) && scripts.spent(OutPoint(tx.id, i)) == tx.outs[i]
  }

  /** A watched outpoint is watched with the address its script pays to. */
  ghost predicate WatchedTruly(b: Backend, scripts: Scripts, watched: map<OutPoint, Address>) {
    forall op :: op in watched ==> scripts.spent(op) == b.payToAddr(watched[op])
  }

  /** The blocks can be fetched, have basic filters, and pay to the wallet in canonical form
      only; and no address has a script that filters leave out. */
  ghost predicate Filtered(b: Backend, keys: Keys, ids: set<BranchId>, blocks: seq<nat>, scripts: Scripts) {
    && (forall a :: !scripts.leftOut(b.payToAddr(a)))
    && forall h :: h in blocks ==>
         && b.fetch(h).Some?
         && BasicFilter(b.filter(h), b.fetch(h).value, scripts.spent, scripts.leftOut)
         && CanonicalBlock(b, keys, ids, b.fetch(h).value, scripts)
  }

  /** A full scan may be relied on in any case. */
  ghost predicate Reliable(b: Backend, keys: Keys, ids: set<BranchId>, blocks: seq<nat>, scripts: Scripts) {
    b.compact ==> Filtered(b, keys, ids, blocks, scripts)
  }

  lemma CanonicalForWatch(
    b: Backend, keys: Keys, branches: Branches, outPoints: map<OutPoint, Address>, req: seq<nat>, block: Block,
    scripts: Scripts, w: Watch)
    requires AllWatching(keys, branches) && w == WatchOf(b, RequestOf(branches, outPoints, req))
    requires CanonicalBlock(b, keys, branches.Keys, block, scripts) && WatchedTruly(b, scripts, outPoints)
    ensures CanonicalScripts(b, w, block, scripts.spent)
  {
    forall tx, i: nat, a | tx in block.txs && i < |tx.outs| && a in Addrs(w, tx.outs[i]) && Watched(w, a)
      ensures tx.outs[i] == b.payToAddr(a)
    {
      var id, c := WatchedIsChild(b, keys, branches, outPoints, req, a);
      CanonicalPays(b, keys, branches.Keys, block, scripts, tx, i, id, c);
    }
  }

  lemma ListIsNotLeftOut(b: Backend, req: Request, list: seq<Script>, scripts: Scripts, s: Script)
    requires IsWatchList(b, req, list) && s in list && forall a :: !scripts.leftOut(b.payToAddr(a))
    ensures !scripts.leftOut(s)
  {
    assert OnWatchList(b, req, s);
  }

  /** Every request that recovery makes can be trusted. */
  lemma {:induction false} RequestIsTrustworthy(
    b: Backend, keys: Keys, branches: Branches, outPoints: map<OutPoint, Address>, blocks: seq<nat>, scripts: Scripts)
    requires AllWatching(keys, branches) && Filtered(b, keys, branches.Keys, blocks, scripts)
    requires WatchedTruly(b, scripts, outPoints)
    ensures
      var req := RequestOf(branches, outPoints, blocks);
      Trustworthy(b, req, WatchOf(b, req), scripts.spent)
  {
    var req := RequestOf(branches, outPoints, blocks);
    forall list, h | IsWatchList(b, req, list) && h in blocks
      ensures NoFalseNegatives(b.filter(h), b.fetch(h).value, scripts.spent, list)
      ensures CanonicalScripts(b, WatchOf(b, req), b.fetch(h).value, scripts.spent)
    {
      forall s | s in list
        ensures !scripts.leftOut(s)
      {
        ListIsNotLeftOut(b, req, list, scripts, s);
      }
      BasicFilterIsSound(b.filter(h), b.fetch(h).value, scripts.spent, scripts.leftOut, list);
      CanonicalForWatch(b, keys, branches, outPoints, blocks, b.fetch(h).value, scripts, WatchOf(b, req));
    }
  }

  /** A found outpoint is recorded with the first address of its script. */
  lemma {:induction false} FoundOutPointIsOf(w: Watch, txs: seq<Tx>, op: OutPoint) returns (tx: Tx)
    requires op in BlockFound(w, NothingFound, txs).outPoints
    ensures tx in txs && tx.id == op.tx && PaysAt(w, tx, op.index)
    ensures BlockFound(w, NothingFound, txs).outPoints[op] == Addrs(w, tx.outs[op.index])[0]
  {
    var n := |txs| - 1;
    var before := BlockFound(w, NothingFound, txs[..n]);
    OutputsFoundOutPoints(w, before, txs[n], |txs[n].outs|, op);
    if op.tx == txs[n].id && PaysAt(w, txs[n], op.index) {
      tx := txs[n];
    } else {
      tx := FoundOutPointIsOf(w, txs[..n], op);
    }
  }

  lemma CanonicalPays(
    b: Backend, keys: Keys, ids: set<BranchId>, block: Block, scripts: Scripts, tx: Tx, o: nat, id: BranchId, i: nat)
    requires CanonicalBlock(b, keys, ids, block, scripts) && tx in block.txs && o < |tx.outs|
    requires id in ids && PaysChild(b, keys, tx.outs[o], id, i)
    ensures scripts.spent(OutPoint(tx.id, o)) == tx.outs[o] == b.payToAddr(keys.addr(id)(i))
    ensures b.extract(tx.outs[o]).value == [keys.addr(id)(i)]
  {
    assert CanonicalOutput(b, keys, ids, tx.outs[o]);
  }

  /** An output that the filter sees is that of its first address, and no other's. */
  lemma SeenIsTrue(
    b: Backend, keys: Keys, branches: Branches, outPoints: map<OutPoint, Address>, req: seq<nat>, block: Block,
    scripts: Scripts, w: Watch, tx: Tx, o: nat)
    requires AllWatching(keys, branches) && w == WatchOf(b, RequestOf(branches, outPoints, req))
    requires CanonicalBlock(b, keys, branches.Keys, block, scripts) && tx in block.txs && PaysAt(w, tx, o)
    ensures Addrs(w, tx.outs[o]) != [] && scripts.spent(OutPoint(tx.id, o)) == b.payToAddr(Addrs(w, tx.outs[o])[0])
  {
    SeenIsOwn(b, keys, branches, outPoints, req, tx, o);
    var id, i: nat :| id in branches.Keys && PaysChild(b, keys, tx.outs[o], id, i);
    CanonicalPays(b, keys, branches.Keys, block, scripts, tx, o, id, i);
    assert Addrs(w, tx.outs[o]) == b.extract(tx.outs[o]).value;
  }

  lemma TrulyTogether(b: Backend, scripts: Scripts, watched: map<OutPoint, Address>, found: map<OutPoint, Address>)
    requires WatchedTruly(b, scripts, watched) && WatchedTruly(b, scripts, found)
    ensures WatchedTruly(b, scripts, watched + found)
  {
  }

  /** What a block adds to the watched outpoints is watched truly as well. */
  lemma {:induction false} FoundIsWatchedTruly(
    b: Backend, keys: Keys, branches: Branches, outPoints: map<OutPoint, Address>, req: seq<nat>, block: Block,
    scripts: Scripts, w: Watch)
    requires AllWatching(keys, branches) && w == WatchOf(b, RequestOf(branches, outPoints, req))
    requires CanonicalBlock(b, keys, branches.Keys, block, scripts) && WatchedTruly(b, scripts, outPoints)
    ensures WatchedTruly(b, scripts, outPoints + BlockFound(w, NothingFound, block.txs).outPoints)
  {
    var found := BlockFound(w, NothingFound, block.txs).outPoints;
    forall op | op in found
      ensures scripts.spent(op) == b.payToAddr(found[op])
    {
      var tx := FoundOutPointIsOf(w, block.txs, op);
      assert op == OutPoint(tx.id, op.index);
      SeenIsTrue(b, keys, branches, outPoints, req, block, scripts, w, tx, op.index);
    }
    TrulyTogether(b, scripts, outPoints, found);
  }
}
