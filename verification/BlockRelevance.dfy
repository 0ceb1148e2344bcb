/** What a block filterer finds, said without reference to the order in which it looks. */
module BlockRelevance {
  import opened ChainData
  import opened Optional
  import opened BlockFilter

  /** Some output of the transactions pays to this address. */
  predicate PaidIn(w: Watch, txs: seq<Tx>, a: Address) {
    exists tx, i :: tx in txs && 0 <= i < |tx.outs| && a in Addrs(w, tx.outs[i])
  }

  /** The outpoint was created by one of the transactions, paying to a watched address. */
  predicate CreatedIn(w: Watch, txs: seq<Tx>, op: OutPoint) {
    exists tx :: tx in txs && tx.id == op.tx && PaysAt(w, tx, op.index)
  }

  /** The transaction concerns the wallet: it pays to a watched address, or spends an
      outpoint that is watched or that the given transactions create for one. */
  predicate Relevant(w: Watch, txs: seq<Tx>, tx: Tx) {
    || Pays(w, tx, |tx.outs|)
    || exists op :: op in tx.ins && (op in w.outPoints || CreatedIn(w, txs, op))
  }

  /** The relevant transactions, in block order. */
  function RelevantOf(w: Watch, block: seq<Tx>, txs: seq<Tx>): seq<Tx> {
    if txs == [] then []
    else
      var before, tx := RelevantOf(w, block, txs[..|txs| - 1]), txs[|txs| - 1];
      if Relevant(w, block, tx) then before + [tx] else before
  }

  /** No transaction spends an output of itself or of a later one. */
  predicate TopologicallyOrdered(txs: seq<Tx>) {
    forall i, j :: 0 <= i <= j < |txs| ==> forall op :: op in txs[i].ins ==> op.tx != txs[j].id
  }

  /** One transaction id names one transaction. */
  predicate OneTxPerId(txs: seq<Tx>) {
    forall x, y :: x in txs && y in txs && x.id == y.id ==> x == y
  }

  /** The found indexes after a list of addresses: those found before, and the owner of
      each address that is watched. */
  lemma {:induction false} AddrsFoundExactly(w: Watch, f: Found, addrs: seq<Address>, si: ScopedIndex)
    ensures AddrsFound(w, f, addrs).outPoints == f.outPoints && AddrsFound(w, f, addrs).txs == f.txs
    ensures InFound(AddrsFound(w, f, addrs).external, si) <==>
              InFound(f.external, si) || exists a :: a in addrs && a in w.exReverse && w.exReverse[a] == si
    ensures InFound(AddrsFound(w, f, addrs).internal, si) <==>
              InFound(f.internal, si) || exists a :: a in addrs && a in w.inReverse && w.inReverse[a] == si
  {
    if addrs != [] {
      var n := |addrs| - 1;
      AddrsFoundExactly(w, f, addrs[..n], si);
      assert forall a :: a in addrs <==> a in addrs[..n] || a == addrs[n];
    }
  }

  lemma {:induction false} OutputsFoundIndexes(w: Watch, f: Found, tx: Tx, n: nat, si: ScopedIndex)
    requires n <= |tx.outs|
    ensures OutputsFound(w, f, tx, n).txs == f.txs
    ensures InFound(OutputsFound(w, f, tx, n).external, si) <==>
              || InFound(f.external, si)
              || exists i, a :: 0 <= i < n && a in Addrs(w, tx.outs[i]) && a in w.exReverse && w.exReverse[a] == si
    ensures InFound(OutputsFound(w, f, tx, n).internal, si) <==>
              || InFound(f.internal, si)
              || exists i, a :: 0 <= i < n && a in Addrs(w, tx.outs[i]) && a in w.inReverse && w.inReverse[a] == si
  {
    if n > 0 {
      OutputsFoundIndexes(w, f, tx, n - 1, si);
      var before := OutputsFound(w, f, tx, n - 1);
      var addrs := Addrs(w, tx.outs[n - 1]);
      AddrsFoundExactly(w, before, addrs, si);
      if !PaysAt(w, tx, n - 1) {
        assert forall a :: a in addrs ==> !Watched(w, a);
      }
    }
  }

  lemma {:induction false} OutputsFoundOutPoints(w: Watch, f: Found, tx: Tx, n: nat, op: OutPoint)
    requires n <= |tx.outs|
    ensures op in OutputsFound(w, f, tx, n).outPoints <==>
              op in f.outPoints || (op.tx == tx.id && op.index < n && PaysAt(w, tx, op.index))
    ensures op in OutputsFound(w, f, tx, n).outPoints ==>
              (OutputsFound(w, f, tx, n).outPoints[op] ==
                 if op.tx == tx.id && op.index < n && PaysAt(w, tx, op.index) then Addrs(w, tx.outs[op.index])[0]
                 else f.outPoints[op])
  {
    if n > 0 {
      OutputsFoundOutPoints(w, f, tx, n - 1, op);
      AddrsFoundExactly(w, OutputsFound(w, f, tx, n - 1), Addrs(w, tx.outs[n - 1]), ScopedIndex(0, 0));
    }
  }

  /** The found outpoints are exactly the outputs that pay to watched addresses, each with
      the first address of its script. */
  lemma {:induction false} FoundOutPointsExactly(w: Watch, txs: seq<Tx>, op: OutPoint)
    ensures op in BlockFound(w, NothingFound, txs).outPoints <==> CreatedIn(w, txs, op)
    ensures OneTxPerId(txs) ==> forall tx :: tx in txs && tx.id == op.tx && PaysAt(w, tx, op.index) ==>
              BlockFound(w, NothingFound, txs).outPoints[op] == Addrs(w, tx.outs[op.index])[0]
  {
    if txs != [] {
      var n := |txs| - 1;
      FoundOutPointsExactly(w, txs[..n], op);
      OutputsFoundOutPoints(w, BlockFound(w, NothingFound, txs[..n]), txs[n], |txs[n].outs|, op);
      assert forall tx :: tx in txs <==> tx in txs[..n] || tx == txs[n];
      assert PaysAt(w, txs[n], op.index) ==> op.index < |txs[n].outs|;
    }
  }

  /** The found external indexes are exactly the owners of the watched external addresses
      that some output of the block pays to; likewise the internal ones. */
  lemma {:induction false} FoundIndexesExactly(w: Watch, txs: seq<Tx>, si: ScopedIndex)
    ensures InFound(BlockFound(w, NothingFound, txs).external, si) <==>
              exists a :: a in w.exReverse && w.exReverse[a] == si && PaidIn(w, txs, a)
    ensures InFound(BlockFound(w, NothingFound, txs).internal, si) <==>
              exists a :: a in w.inReverse && w.inReverse[a] == si && PaidIn(w, txs, a)
  {
    if txs != [] {
      var n := |txs| - 1;
      FoundIndexesExactly(w, txs[..n], si);
      OutputsFoundIndexes(w, BlockFound(w, NothingFound, txs[..n]), txs[n], |txs[n].outs|, si);
      forall a
        ensures PaidIn(w, txs, a) <==>
                  PaidIn(w, txs[..n], a) || exists i :: 0 <= i < |txs[n].outs| && a in Addrs(w, txs[n].outs[i])
      {
        assert forall tx :: tx in txs <==> tx in txs[..n] || tx == txs[n];
      }
    }
  }

  /** At each transaction, what the filterer calls relevant is what the transactions before
      it, and only those, make relevant. */
  lemma {:induction false} RelevantNowExactly(w: Watch, before: seq<Tx>, tx: Tx)
    ensures RelevantNow(w, BlockFound(w, NothingFound, before), tx) <==> Relevant(w, before, tx)
  {
    var f := BlockFound(w, NothingFound, before);
    forall i | 0 <= i < |tx.ins|
      ensures tx.ins[i] in f.outPoints <==> CreatedIn(w, before, tx.ins[i])
    {
      FoundOutPointsExactly(w, before, tx.ins[i]);
    }
  }

  lemma OrderIrrelevant(w: Watch, txs: seq<Tx>, i: nat)
    requires i < |txs| && TopologicallyOrdered(txs)
    ensures Relevant(w, txs[..i], txs[i]) <==> Relevant(w, txs, txs[i])
  {
    forall op | op in txs[i].ins
      ensures CreatedIn(w, txs[..i], op) <==> CreatedIn(w, txs, op)
    {
      if CreatedIn(w, txs, op) {
        var tx :| tx in txs && tx.id == op.tx && PaysAt(w, tx, op.index);
        var j :| 0 <= j < |txs| && txs[j] == tx;
        assert tx in txs[..i];
      }
    }
  }

  /** On a topologically ordered block the relevant transactions are exactly those of the
      order-free predicate, in block order. */
  lemma {:induction false} RelevantTxnsExactly(w: Watch, block: seq<Tx>, n: nat)
    requires n <= |block| && TopologicallyOrdered(block)
    ensures BlockFound(w, NothingFound, block[..n]).txs == RelevantOf(w, block, block[..n])
  {
    if n > 0 {
      RelevantTxnsExactly(w, block, n - 1);
      assert block[..n][..n - 1] == block[..n - 1];
      RelevantNowExactly(w, block[..n - 1], block[n - 1]);
      OrderIrrelevant(w, block, n - 1);
      var before := BlockFound(w, NothingFound, block[..n - 1]);
      OutputsFoundIndexes(w, before, block[n - 1], |block[n - 1].outs|, ScopedIndex(0, 0));
    }
  }

  /** On any block a filterer finds no relevant transaction exactly when none is relevant
      by the order-free predicate. */
  lemma {:induction false} MatchExactly(w: Watch, txs: seq<Tx>)
    ensures BlockFound(w, NothingFound, txs).txs == [] <==> forall tx :: tx in txs ==> !Relevant(w, [], tx)
    ensures (forall tx :: tx in txs ==> !Relevant(w, [], tx)) <==> forall tx :: tx in txs ==> !Relevant(w, txs, tx)
    decreases |txs|
  {
    if txs != [] {
      var n := |txs| - 1;
      MatchExactly(w, txs[..n]);
      assert forall tx :: tx in txs <==> tx in txs[..n] || tx == txs[n];
      RelevantNowExactly(w, txs[..n], txs[n]);
      var before := BlockFound(w, NothingFound, txs[..n]);
      OutputsFoundIndexes(w, before, txs[n], |txs[n].outs|, ScopedIndex(0, 0));
    }
    NoneRelevant(w, txs);
    if txs != [] {
      NoneRelevant(w, txs[..|txs| - 1]);
    }
  }

  /** Spending an output created in the block makes the creating transaction relevant too,
      so a block without payments and watched spends has no relevant transaction at all. */
  lemma NoneRelevant(w: Watch, txs: seq<Tx>)
    ensures (forall tx :: tx in txs ==> !Relevant(w, [], tx)) ==>
              forall tx, more :: tx in txs && (forall x :: x in more ==> x in txs) ==> !Relevant(w, more, tx)
  {
    if forall tx :: tx in txs ==> !Relevant(w, [], tx) {
      forall tx, more | tx in txs && (forall x :: x in more ==> x in txs)
        ensures !Relevant(w, more, tx)
      {
        forall op | op in tx.ins
          ensures !CreatedIn(w, more, op)
        {
          forall x | x in more
            ensures !PaysAt(w, x, op.index)
          {
            assert !Relevant(w, [], x);
          }
        }
        assert !Relevant(w, [], tx);
      }
    }
  }

  lemma {:induction false} TxsOnlyGrow(w: Watch, f: Found, txs: seq<Tx>)
    ensures f.txs <= BlockFound(w, f, txs).txs
    ensures BlockFound(w, f, txs).txs == f.txs ==> BlockFound(w, f, txs) == f
  {
    if txs != [] {
      var n := |txs| - 1;
      TxsOnlyGrow(w, f, txs[..n]);
      var before := BlockFound(w, f, txs[..n]);
      OutputsFoundIndexes(w, before, txs[n], |txs[n].outs|, ScopedIndex(0, 0));
      if !RelevantNow(w, before, txs[n]) {
        NothingPaid(w, before, txs[n], |txs[n].outs|);
      }
    }
  }

  lemma {:induction false} NothingPaid(w: Watch, f: Found, tx: Tx, n: nat)
    requires n <= |tx.outs| && !Pays(w, tx, |tx.outs|)
    ensures OutputsFound(w, f, tx, n) == f
  {
    if n > 0 {
      NothingPaid(w, f, tx, n - 1);
      assert !PaysAt(w, tx, n - 1);
    }
  }

  /** A call of FilterBlock that reports nothing leaves everything found as it was, so a
      filterer reused up to its first match answers as a fresh one would. */
  lemma {:induction false} NoMatchNoChange(w: Watch, f: Found, txs: seq<Tx>)
    ensures |BlockFound(w, f, txs).txs| <= |f.txs| ==> BlockFound(w, f, txs) == f
  {
    TxsOnlyGrow(w, f, txs);
  }

  /** On any block, the transactions found are exactly those made relevant by the ones before
      them: an output found in the block counts once the block has reached a spend of it. */
  lemma {:induction false} FoundTxnsExactly(w: Watch, txs: seq<Tx>, tx: Tx)
    ensures tx in BlockFound(w, NothingFound, txs).txs <==>
              exists i :: 0 <= i < |txs| && txs[i] == tx && Relevant(w, txs[..i], tx)
  {
    if txs != [] {
      var n := |txs| - 1;
      var before := BlockFound(w, NothingFound, txs[..n]);
      FoundTxnsExactly(w, txs[..n], tx);
      RelevantNowExactly(w, txs[..n], txs[n]);
      OutputsFoundIndexes(w, before, txs[n], |txs[n].outs|, ScopedIndex(0, 0));
      assert forall i :: 0 <= i < n ==> txs[..n][..i] == txs[..i];
      assert tx in BlockFound(w, NothingFound, txs).txs <==>
        tx in before.txs || (tx == txs[n] && Relevant(w, txs[..n], tx));
    }
  }

  predicate NoEmptyScope(f: Found) {
    && (forall scope :: scope in f.external ==> f.external[scope] != {})
    && (forall scope :: scope in f.internal ==> f.internal[scope] != {})
  }

  lemma {:induction false} AddrsFoundScopes(w: Watch, f: Found, addrs: seq<Address>)
    requires NoEmptyScope(f)
    ensures NoEmptyScope(AddrsFound(w, f, addrs))
  {
    if addrs != [] {
      AddrsFoundScopes(w, f, addrs[..|addrs| - 1]);
    }
  }

  lemma {:induction false} OutputsFoundScopes(w: Watch, f: Found, tx: Tx, n: nat)
    requires n <= |tx.outs| && NoEmptyScope(f)
    ensures NoEmptyScope(OutputsFound(w, f, tx, n))
  {
    if n > 0 {
      OutputsFoundScopes(w, f, tx, n - 1);
      AddrsFoundScopes(w, OutputsFound(w, f, tx, n - 1), Addrs(w, tx.outs[n - 1]));
    }
  }

  /** A scope is among the findings only with indexes found in it. */
  lemma {:induction false} FoundScopesAreNotEmpty(w: Watch, txs: seq<Tx>)
    ensures NoEmptyScope(BlockFound(w, NothingFound, txs))
  {
    if txs != [] {
      var n := |txs| - 1;
      FoundScopesAreNotEmpty(w, txs[..n]);
      OutputsFoundScopes(w, BlockFound(w, NothingFound, txs[..n]), txs[n], |txs[n].outs|);
    }
  }
}
