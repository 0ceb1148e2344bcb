/** What any interleaving of the mempool's locked steps leaves in it. */
module MempoolRuns {
  import opened ChainData
  import opened Mempool

  function Empty(): Pool { Pool(map[], map[], true) }

  predicate Adds(op: Op, h: TxId) {
    op.Add? && !op.tx.coinbase && op.tx.id == h
  }

  predicate Cleans(op: Op, h: TxId) {
    op.Clean? && h in op.ids
  }

  predicate Spends(op: Op, o: OutPoint) {
    op.Add? && !op.tx.coinbase && o in op.tx.ins
  }

  predicate NoCleanFrom(ops: seq<Op>, i: nat, h: TxId) {
    forall j :: i <= j < |ops| ==> !Cleans(ops[j], h)
  }

  /** Step i added h with an input spending o, no later step added another spender, and h
      has been in the pool ever since. */
  predicate SpendsSince(ops: seq<Op>, i: nat, o: OutPoint, h: TxId) {
    && i < |ops| && Spends(ops[i], o) && ops[i].tx.id == h
    && (forall j :: i < j < |ops| ==> !Spends(ops[j], o))
    && (forall j :: i < j <= |ops| ==> h in Run(Empty(), ops[..j]).txs)
  }

  lemma {:induction false} SpendersAreKnown(ops: seq<Op>)
    ensures Run(Empty(), ops).tracks
    ensures forall o :: o in Run(Empty(), ops).spends ==> Run(Empty(), ops).spends[o] in Run(Empty(), ops).txs
  {
    if ops != [] {
      SpendersAreKnown(ops[..|ops| - 1]);
    }
  }

  lemma {:induction false} SinceOneMore(ops: seq<Op>, i: nat, o: OutPoint, h: TxId)
    requires i < |ops|
    ensures
      var before, last := ops[..|ops| - 1], ops[|ops| - 1];
      SpendsSince(ops, i, o, h) <==>
        && h in Run(Empty(), ops).txs
        && if i == |ops| - 1 then Spends(last, o) && last.tx.id == h else SpendsSince(before, i, o, h) && !Spends(last, o)
  {
    var n := |ops| - 1;
    var before := ops[..n];
    assert forall j :: 0 <= j <= n ==> before[..j] == ops[..j];
    assert ops[..n + 1] == ops;
  }

  /** At every moment of every run, the index answers with the last transaction added that
      spends the outpoint if it has not been removed since, and with nothing otherwise. */
  lemma {:induction false} SpenderIsLastAdded(ops: seq<Op>, o: OutPoint, h: TxId)
    ensures
      var s := Run(Empty(), ops);
      (o in s.spends && s.spends[o] == h) <==> exists i :: SpendsSince(ops, i, o, h)
  {
    if ops != [] {
      var n := |ops| - 1;
      var before, last := ops[..n], ops[n];
      SpenderIsLastAdded(before, o, h);
      SpendersAreKnown(before);
      forall i: nat | i < |ops|
        ensures SpendsSince(ops, i, o, h) <==>
          && h in Run(Empty(), ops).txs
          && if i == n then Spends(last, o) && last.tx.id == h else SpendsSince(before, i, o, h) && !Spends(last, o)
      {
        SinceOneMore(ops, i, o, h);
      }
      IndexOneMore(Run(Empty(), before), last, o, h);
      if Spends(last, o) && last.tx.id == h {
        assert SpendsSince(ops, n, o, h);
      }
    }
  }

  /** What one step does to one entry of the index. */
  lemma IndexOneMore(s: Pool, op: Op, o: OutPoint, h: TxId)
    requires s.tracks && forall x :: x in s.spends ==> s.spends[x] in s.txs
    ensures
      var s' := Step(s, op);
      (o in s'.spends && s'.spends[o] == h) <==>
        && h in s'.txs
        && if Spends(op, o) then op.tx.id == h else o in s.spends && s.spends[o] == h
  {
  }

  /** The steps that others may take between the unmarking and the sweep of one pass. */
  predicate Between(w: seq<Op>) {
    forall op :: op in w ==> op.Add? || op.Clean? || op.Mark?
  }

  predicate AddedSince(w: seq<Op>, i: nat, h: TxId) {
    i < |w| && Adds(w[i], h) && NoCleanFrom(w, i + 1, h)
  }

  /** Added after the unmarking and not cleaned after that; or known before it, never
      cleaned, and marked. */
  ghost predicate Renewed(s: Pool, w: seq<Op>, h: TxId) {
    || (exists i :: AddedSince(w, i, h))
    || (h in s.txs && NoCleanFrom(w, 0, h) && Mark(h) in w)
  }

  lemma {:induction false} DuringPass(s: Pool, w: seq<Op>, h: TxId)
    requires Between(w)
    ensures
      var r := Run(Step(s, UnmarkAll), w);
      && (h in r.txs <==> (h in s.txs && NoCleanFrom(w, 0, h)) || exists i :: AddedSince(w, i, h))
      && (h in r.txs && r.txs[h] <==> Renewed(s, w, h))
  {
    if w != [] {
      var n := |w| - 1;
      var before, last := w[..n], w[n];
      assert forall op :: op in before ==> op in w;
      DuringPass(s, before, h);
      assert w == before + [last];
      assert NoCleanFrom(w, 0, h) <==> NoCleanFrom(before, 0, h) && !Cleans(last, h);
      assert forall i :: 0 <= i < n ==> (AddedSince(w, i, h) <==> AddedSince(before, i, h) && !Cleans(last, h));
      assert AddedSince(w, n, h) <==> Adds(last, h);
      assert (exists i :: AddedSince(w, i, h)) <==> Adds(last, h) || (!Cleans(last, h) && exists i :: AddedSince(before, i, h));
      assert Mark(h) in w <==> Mark(h) in before || last == Mark(h);
    }
  }

  /** The sweep keeps exactly what was renewed since the unmarking, whatever adds, cleans
      and marks came in between. So a transaction added in between survives unless it was
      cleaned after that, and marking never brings a cleaned transaction back. */
  lemma {:induction false} SweepKeepsRenewed(s: Pool, w: seq<Op>, h: TxId)
    requires Between(w)
    ensures h in Step(Run(Step(s, UnmarkAll), w), DeleteUnmarked).txs <==> Renewed(s, w, h)
  {
    DuringPass(s, w, h);
  }
}
