/** One reconciliation of the local mempool with the node's (UpdateMempoolTxes and
    batchGetRawTxes in chain/mempool.go). */
module MempoolUpdate {
  import opened ChainData
  import opened Optional
  import opened Mempool

  /** The node's answers to a request for a raw transaction. */
  type Fetch = TxId -> Option<MsgTx>

  ghost predicate Honest(fetch: Fetch) {
    forall h :: fetch(h).Some? ==> fetch(h).value.id == h
  }

  predicate Distinct(ids: seq<TxId>) {
    forall j, k :: 0 <= j < k < |ids| ==> ids[j] != ids[k]
  }

  /** Whether fetching this transaction puts it into the pool. */
  predicate Joins(fetch: Fetch, h: TxId) {
    fetch(h).Some? && !fetch(h).value.coinbase
  }

  /** The list holds the answers for exactly the given transactions. */
  predicate AnswersFor(txes: seq<MsgTx>, fetch: Fetch, hs: set<TxId>) {
    && (forall tx :: tx in txes ==> tx.id in hs && fetch(tx.id) == Some(tx))
    && (forall h :: h in hs && fetch(h).Some? ==> fetch(h).value in txes)
  }

  predicate Once(txes: seq<MsgTx>) {
    forall j, k :: 0 <= j < k < |txes| ==> txes[j].id != txes[k].id
  }

  /** The pool after the given transactions were fetched and added. */
  ghost predicate Joined(before: map<TxId, bool>, fetch: Fetch, hs: set<TxId>, after: map<TxId, bool>) {
    && (forall h :: h in after <==> h in before || (h in hs && Joins(fetch, h)))
    && (forall h :: h in after ==> after[h] == ((h in hs && Joins(fetch, h)) || (h in before && before[h])))
  }

  lemma JoinedBoth(
    before: map<TxId, bool>, mid: map<TxId, bool>, after: map<TxId, bool>, fetch: Fetch, hs: set<TxId>, hs': set<TxId>)
    requires Joined(before, fetch, hs, mid) && Joined(mid, fetch, hs', after)
    ensures Joined(before, fetch, hs + hs', after)
  {
  }

  function Ids(txids: seq<TxId>): set<TxId> {
    set h | h in txids
  }

  lemma IdsSnoc(txids: seq<TxId>, i: nat)
    requires i < |txids|
    ensures Ids(txids[..i + 1]) == Ids(txids[..i]) + {txids[i]}
    ensures Distinct(txids) ==> txids[i] !in Ids(txids[..i])
  {
    assert txids[..i + 1] == txids[..i] + [txids[i]];
  }

  lemma OnlyFullDivides(n: nat, batchSize: nat)
    requires 0 < n <= batchSize
    ensures n % batchSize == 0 <==> n == batchSize
  {
    if n < batchSize {
      assert n % batchSize == n;
    }
  }

  /** Sends a batch of requests and adds the answers to the pool. If the batch cannot be
      sent, nothing is added. */
  method ProcessBatch(
    m: Mempool, results: set<TxId>, fetch: Fetch, sent: bool, txes: seq<MsgTx>, ghost answered: set<TxId>)
    returns (newTxes: seq<MsgTx>)
    requires m.Valid() && Honest(fetch) && AnswersFor(txes, fetch, answered)
    modifies m.Repr()
    ensures m.Valid()
    ensures sent ==> Joined(old(m.txs), fetch, results, m.txs) && AnswersFor(newTxes, fetch, answered + results)
    ensures sent && Once(txes) && answered !! results ==> Once(newTxes)
    ensures !sent ==> m.txs == old(m.txs)
  {
    newTxes := txes;
    if !sent {
      return;
    }
    var rest := results;
    ghost var done := {};
    while rest != {}
      invariant done + rest == results && done !! rest && m.Valid()
      invariant Joined(old(m.txs), fetch, done, m.txs)
      invariant AnswersFor(newTxes, fetch, answered + done)
      invariant Once(txes) && answered !! results ==> Once(newTxes)
      decreases rest
    {
      var txid :| txid in rest;
      rest, done := rest - {txid}, done + {txid};
      if fetch(txid).Some? {
        m.AddTx(fetch(txid).value);
        newTxes := newTxes + [fetch(txid).value];
      }
    }
    assert done == results;
  }

  /** What a fetch in batches is given: the transactions, the answers, which batches can be
      sent, by their number, how large they are, and the pool beforehand. */
  datatype Order = Order(
    txids: seq<TxId>, fetch: Fetch, sends: nat -> bool, batchSize: nat, before: map<TxId, bool>)

  datatype Aspect = Waiting | Pooled | Listed | Sent | Counted

  /** How far it has come: k batches have been sent, with the first n transactions; their
      answers are in the pool and in the list; the transactions from n up to i are waiting.
      If the transactions are distinct, the k batches were full, but for the last. */
  ghost predicate StandsAt(
    aspect: Aspect, o: Order, k: nat, n: nat, i: nat, done: set<TxId>, receivers: set<TxId>,
    pool: map<TxId, bool>, list: seq<MsgTx>)
    requires n <= i <= |o.txids|
  {
    match aspect
    case Waiting =>
      && done == Ids(o.txids[..n]) && done + receivers == Ids(o.txids[..i]) && (n == i <==> receivers == {})
      && (Distinct(o.txids) ==> done !! receivers)
    case Pooled => Joined(o.before, o.fetch, done, pool)
    case Listed => AnswersFor(list, o.fetch, done) && (Distinct(o.txids) ==> Once(list))
    case Sent => forall j :: 0 <= j < k ==> o.sends(j)
    case Counted =>
      Distinct(o.txids) ==> n + |receivers| == i && (n == k * o.batchSize || n == |o.txids| <= k * o.batchSize)
  }

  ghost predicate Underway(
    o: Order, k: nat, n: nat, i: nat, done: set<TxId>, receivers: set<TxId>, pool: map<TxId, bool>, list: seq<MsgTx>)
  {
    n <= i <= |o.txids| && forall aspect :: StandsAt(aspect, o, k, n, i, done, receivers, pool, list)
  }

  lemma AtFirst(o: Order)
    ensures Underway(o, 0, 0, 0, {}, {}, o.before, [])
  {
  }

  lemma WaitingMore(txids: seq<TxId>, i: nat, done: set<TxId>, receivers: set<TxId>)
    requires i < |txids| && done + receivers == Ids(txids[..i]) && (Distinct(txids) ==> done !! receivers)
    ensures done + (receivers + {txids[i]}) == Ids(txids[..i + 1])
    ensures Distinct(txids) ==> done !! receivers + {txids[i]} && txids[i] !in receivers
  {
    IdsSnoc(txids, i);
  }

  lemma OneMore(
    o: Order, k: nat, n: nat, i: nat, done: set<TxId>, receivers: set<TxId>, pool: map<TxId, bool>, list: seq<MsgTx>)
    requires Underway(o, k, n, i, done, receivers, pool, list) && i < |o.txids|
    ensures Underway(o, k, n, i + 1, done, receivers + {o.txids[i]}, pool, list)
    ensures |receivers + {o.txids[i]}| <= |receivers| + 1
  {
    var j, more := i + 1, receivers + {o.txids[i]};
    assert StandsAt(Waiting, o, k, n, j, done, more, pool, list) && (Distinct(o.txids) ==> |more| == |receivers| + 1) by {
      assert StandsAt(Waiting, o, k, n, i, done, receivers, pool, list);
      WaitingMore(o.txids, i, done, receivers);
    }
    forall aspect
      ensures StandsAt(aspect, o, k, n, j, done, more, pool, list)
    {
      assert StandsAt(aspect, o, k, n, i, done, receivers, pool, list);
    }
  }

  /** What a batch that has been sent adds. */
  ghost predicate Added(
    fetch: Fetch, done: set<TxId>, receivers: set<TxId>, mid: map<TxId, bool>, list: seq<MsgTx>,
    pool: map<TxId, bool>, more: seq<MsgTx>)
  {
    && Joined(mid, fetch, receivers, pool) && AnswersFor(more, fetch, done + receivers)
    && (Once(list) && done !! receivers ==> Once(more))
  }

  lemma WaitingDone(
    o: Order, k: nat, n: nat, i: nat, done: set<TxId>, receivers: set<TxId>, mid: map<TxId, bool>, list: seq<MsgTx>,
    pool: map<TxId, bool>, more: seq<MsgTx>)
    requires n <= i <= |o.txids| && StandsAt(Waiting, o, k, n, i, done, receivers, mid, list)
    ensures StandsAt(Waiting, o, k + 1, i, i, done + receivers, {}, pool, more)
    ensures Distinct(o.txids) ==> done !! receivers
  {
    assert done + receivers + {} == done + receivers;
  }

  lemma CountedDone(
    o: Order, k: nat, n: nat, i: nat, done: set<TxId>, receivers: set<TxId>, mid: map<TxId, bool>, list: seq<MsgTx>,
    pool: map<TxId, bool>, more: seq<MsgTx>)
    requires n <= i <= |o.txids| && StandsAt(Counted, o, k, n, i, done, receivers, mid, list)
    requires |receivers| == o.batchSize || (i == |o.txids| && |receivers| < o.batchSize)
    ensures StandsAt(Counted, o, k + 1, i, i, done + receivers, {}, pool, more)
  {
    assert (k + 1) * o.batchSize == k * o.batchSize + o.batchSize;
  }

  lemma BatchDone(
    o: Order, k: nat, n: nat, i: nat, done: set<TxId>, receivers: set<TxId>, mid: map<TxId, bool>, list: seq<MsgTx>,
    pool: map<TxId, bool>, more: seq<MsgTx>)
    requires Underway(o, k, n, i, done, receivers, mid, list) && o.sends(k)
    requires Added(o.fetch, done, receivers, mid, list, pool, more)
    requires |receivers| == o.batchSize || (i == |o.txids| && |receivers| < o.batchSize)
    ensures Underway(o, k + 1, i, i, done + receivers, {}, pool, more)
  {
    var k', all := k + 1, done + receivers;
    WaitingDone(o, k, n, i, done, receivers, mid, list, pool, more);
    CountedDone(o, k, n, i, done, receivers, mid, list, pool, more);
    forall aspect
      ensures StandsAt(aspect, o, k', i, i, all, {}, pool, more)
    {
      assert StandsAt(aspect, o, k, n, i, done, receivers, mid, list);
      if aspect == Pooled {
        JoinedBoth(o.before, mid, pool, o.fetch, done, receivers);
      }
    }
  }

  /** Sends what is waiting as one batch. */
  method NextBatch(
    m: Mempool, receivers: set<TxId>, fetch: Fetch, sent: bool, list: seq<MsgTx>,
    ghost o: Order, ghost k: nat, ghost n: nat, ghost i: nat, ghost done: set<TxId>)
    returns (more: seq<MsgTx>)
    requires m.Valid() && Honest(fetch) && fetch == o.fetch && sent == o.sends(k)
    requires Underway(o, k, n, i, done, receivers, m.txs, list)
    requires |receivers| == o.batchSize || (i == |o.txids| && |receivers| < o.batchSize)
    modifies m.Repr()
    ensures m.Valid()
    ensures if sent then Underway(o, k + 1, i, i, done + receivers, {}, m.txs, more) else m.txs == old(m.txs)
  {
    ghost var mid := m.txs;
    assert AnswersFor(list, fetch, done) by {
      assert StandsAt(Listed, o, k, n, i, done, receivers, m.txs, list);
    }
    more := ProcessBatch(m, receivers, fetch, sent, list, done);
    if sent {
      BatchDone(o, k, n, i, done, receivers, mid, list, m.txs, more);
    }
  }

  /** Whether all batches that n transactions make can be sent. */
  ghost predicate AllSent(sends: nat -> bool, n: nat, batchSize: nat) {
    forall j: nat :: j * batchSize < n ==> sends(j)
  }

  lemma LaterStart(j: nat, k: nat, batchSize: nat)
    requires k <= j
    ensures k * batchSize <= j * batchSize
  {
    assert j * batchSize == k * batchSize + (j - k) * batchSize;
  }

  lemma NothingWaits(
    o: Order, k: nat, n: nat, i: nat, done: set<TxId>, receivers: set<TxId>, pool: map<TxId, bool>, list: seq<MsgTx>)
    requires Underway(o, k, n, i, done, receivers, pool, list)
    ensures n == i <==> receivers == {}
  {
    assert StandsAt(Waiting, o, k, n, i, done, receivers, pool, list);
  }

  lemma GivesUp(
    o: Order, k: nat, n: nat, i: nat, done: set<TxId>, receivers: set<TxId>, pool: map<TxId, bool>, list: seq<MsgTx>)
    requires Underway(o, k, n, i, done, receivers, pool, list) && receivers != {} && !o.sends(k)
    ensures n < |o.txids| && Joined(o.before, o.fetch, Ids(o.txids[..n]), pool) && forall j :: 0 <= j < k ==> o.sends(j)
    ensures Distinct(o.txids) ==> n == k * o.batchSize && !AllSent(o.sends, |o.txids|, o.batchSize)
  {
    assert StandsAt(Waiting, o, k, n, i, done, receivers, pool, list);
    assert StandsAt(Pooled, o, k, n, i, done, receivers, pool, list);
    assert StandsAt(Sent, o, k, n, i, done, receivers, pool, list);
    assert StandsAt(Counted, o, k, n, i, done, receivers, pool, list);
  }

  lemma Finishes(o: Order, k: nat, n: nat, done: set<TxId>, pool: map<TxId, bool>, list: seq<MsgTx>)
    requires Underway(o, k, n, n, done, {}, pool, list) && n == |o.txids|
    ensures Joined(o.before, o.fetch, Ids(o.txids[..n]), pool)
    ensures AnswersFor(list, o.fetch, Ids(o.txids)) && (Distinct(o.txids) ==> Once(list))
    ensures Distinct(o.txids) ==> AllSent(o.sends, n, o.batchSize)
  {
    assert o.txids[..n] == o.txids;
    assert StandsAt(Waiting, o, k, n, n, done, {}, pool, list) && StandsAt(Pooled, o, k, n, n, done, {}, pool, list);
    assert StandsAt(Listed, o, k, n, n, done, {}, pool, list) && StandsAt(Sent, o, k, n, n, done, {}, pool, list);
    assert StandsAt(Counted, o, k, n, n, done, {}, pool, list);
    forall j: nat | Distinct(o.txids) && j * o.batchSize < n
      ensures o.sends(j)
    {
      if j >= k {
        LaterStart(j, k, o.batchSize);
      }
    }
  }

  /** Fetches raw transactions in batches and adds them to the pool. sends tells which
      batches can be sent, by their number. It gives up at the first one that cannot, the
      k-th, if the transactions reach that far: the batches before it are in the pool, but
      nothing is returned. */
  method BatchGetRawTxes(m: Mempool, txids: seq<TxId>, fetch: Fetch, sends: nat -> bool, batchSize: nat)
    returns (ok: bool, newTxes: seq<MsgTx>, ghost reached: nat, ghost k: nat)
    requires m.Valid() && Honest(fetch) && batchSize >= 1
    modifies m.Repr()
    ensures m.Valid() && reached <= |txids| && (ok <==> reached == |txids|)
    ensures Joined(old(m.txs), fetch, Ids(txids[..reached]), m.txs)
    ensures ok ==> AnswersFor(newTxes, fetch, Ids(txids)) && (Distinct(txids) ==> Once(newTxes))
    ensures !ok ==> newTxes == [] && !sends(k) && forall j :: 0 <= j < k ==> sends(j)
    ensures Distinct(txids) ==> (ok <==> AllSent(sends, |txids|, batchSize)) && (ok || reached == k * batchSize)
  {
    ghost var o := Order(txids, fetch, sends, batchSize, m.txs);
    ghost var done: set<TxId> := {};
    var receivers: set<TxId> := {};
    var batch: nat := 0;
    reached, newTxes := 0, [];
    AtFirst(o);
    for i := 0 to |txids|
      invariant m.Valid() && |receivers| < batchSize
      invariant Underway(o, batch, reached, i, done, receivers, m.txs, newTxes)
    {
      OneMore(o, batch, reached, i, done, receivers, m.txs, newTxes);
      receivers := receivers + {txids[i]};
      OnlyFullDivides(|receivers|, batchSize);
      if |receivers| % batchSize == 0 {
        ghost var list := newTxes;
        newTxes := NextBatch(m, receivers, fetch, sends(batch), newTxes, o, batch, reached, i + 1, done);
        if !sends(batch) {
          GivesUp(o, batch, reached, i + 1, done, receivers, m.txs, list);
          return false, [], reached, batch;
        }
        batch, reached, done, receivers := batch + 1, i + 1, done + receivers, {};
      }
    }
    NothingWaits(o, batch, reached, |txids|, done, receivers, m.txs, newTxes);
    if receivers != {} {
      ghost var list := newTxes;
      newTxes := NextBatch(m, receivers, fetch, sends(batch), newTxes, o, batch, reached, |txids|, done);
      if !sends(batch) {
        GivesUp(o, batch, reached, |txids|, done, receivers, m.txs, list);
        return false, [], reached, batch;
      }
      batch, reached, done, receivers := batch + 1, |txids|, done + receivers, {};
    }
    Finishes(o, batch, reached, done, m.txs, newTxes);
    ok, k := true, batch;
  }

  /** Marks the listed transactions that are known, and returns the others. */
  method MarkKnown(m: Mempool, txids: seq<TxId>) returns (newTxids: seq<TxId>)
    requires m.Valid() && forall h :: h in m.txs ==> !m.txs[h]
    modifies m.Repr()
    ensures m.Valid() && m.txs.Keys == old(m.txs.Keys) && forall h :: h in m.txs ==> m.txs[h] == (h in txids)
    ensures forall h :: h in newTxids <==> h in txids && h !in m.txs
    ensures Distinct(txids) ==> Distinct(newTxids)
  {
    newTxids := [];
    for i := 0 to |txids|
      invariant m.Valid() && m.txs.Keys == old(m.txs.Keys)
      invariant forall h :: h in m.txs ==> m.txs[h] == (h in txids[..i])
      invariant forall h :: h in newTxids <==> h in txids[..i] && h !in old(m.txs)
      invariant Distinct(txids) ==> Distinct(newTxids)
    {
      assert txids[..i + 1] == txids[..i] + [txids[i]];
      if txids[i] in m.txs {
        m.MarkTx(txids[i]);
      } else {
        newTxids := newTxids + [txids[i]];
      }
    }
    assert txids[..|txids|] == txids;
  }

  lemma {:induction false} SizeOfIds(ids: seq<TxId>)
    requires Distinct(ids)
    ensures |Ids(ids)| == |ids|
  {
    if ids != [] {
      var n := |ids| - 1;
      assert ids[..|ids|] == ids;
      IdsSnoc(ids, n);
      SizeOfIds(ids[..n]);
    }
  }

  /** One pass over the node's mempool. What is left is what the node listed and was known
      before, or was fetched; what is returned is what was fetched, each once. If all
      batches are sent, all that was not known is fetched, for any batch size; so with every
      fetch answered by a non-coinbase transaction the pool becomes the node's list. If not,
      the pool keeps what the batches before the first failing one, the k-th, fetched, but
      none of that is returned. */
  method UpdateMempoolTxes(m: Mempool, txids: seq<TxId>, fetch: Fetch, sends: nat -> bool, batchSize: nat)
    returns (newTxes: seq<MsgTx>, ghost complete: bool, ghost fetched: set<TxId>, ghost k: nat)
    requires m.Valid() && Honest(fetch) && batchSize >= 1
    modifies m.Repr()
    ensures m.Valid() && forall h :: h in m.txs ==> m.txs[h]
    ensures forall h :: h in m.txs <==> (h in txids && h in old(m.txs)) || (h in fetched && Joins(fetch, h))
    ensures (forall k :: sends(k)) ==> complete
    ensures Distinct(txids) ==>
              var unknown := set h | h in txids && h !in old(m.txs);
              && (complete <==> AllSent(sends, |unknown|, batchSize))
              && (complete || |fetched| == k * batchSize)
    ensures !complete ==> !sends(k) && forall j :: 0 <= j < k ==> sends(j)
    ensures
      var unknown := set h | h in txids && h !in old(m.txs);
      if complete then fetched == unknown && AnswersFor(newTxes, fetch, unknown) && (Distinct(txids) ==> Once(newTxes))
      else fetched <= unknown && newTxes == []
    ensures complete && (forall h :: h in txids ==> Joins(fetch, h)) ==> m.txs.Keys == Ids(txids)
  {
    m.UnmarkAllTxs();
    var newTxids := MarkKnown(m, txids);
    m.DeleteUnmarkedTxs();
    ghost var reached;
    var ok;
    ok, newTxes, reached, k := BatchGetRawTxes(m, newTxids, fetch, sends, batchSize);
    complete, fetched := ok, Ids(newTxids[..reached]);
    assert newTxids[..|newTxids|] == newTxids;
    assert Ids(newTxids) == set h | h in txids && h !in old(m.txs);
    if Distinct(newTxids) {
      SizeOfIds(newTxids);
      SizeOfIds(newTxids[..reached]);
    }
  }
}
