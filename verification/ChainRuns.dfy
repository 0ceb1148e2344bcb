/** Whole runs of the chain-following client: any number of block notifications, in any
    order and from any branch. */
module ChainRuns {
  import opened BlockTree
  import opened ChainEvents
  import opened ChainClient

  /** Successive client states over a list of notified blocks; RPC calls may fail. */
  predicate IsRun(t: Tree, states: seq<ClientState>, blocks: seq<Hash>) {
    && |states| == |blocks| + 1
    && forall i :: 0 <= i < |blocks| ==>
         blocks[i] in t && (TrueTip(t, states[i]) ==> MayHandle(t, states[i], blocks[i], states[i + 1]))
  }

  /** The best block is always a block of the tree with its own height and time, and the
      best height never falls, whatever blocks arrive and whichever RPC calls fail. */
  lemma {:induction false} BestBlockIsTrue(t: Tree, states: seq<ClientState>, blocks: seq<Hash>, i: nat)
    requires IsRun(t, states, blocks) && TrueTip(t, states[0]) && i < |states|
    ensures TrueTip(t, states[i])
    ensures states[i].best.height == t[states[i].best.hash].height
    ensures states[0].best.height <= states[i].best.height && states[0].events <= states[i].events
  {
    if i > 0 {
      BestBlockIsTrue(t, states, blocks, i - 1);
      var b := blocks[i - 1];
      assert b in t;
      assert Linked(t, b);
      assert MayHandle(t, states[i - 1], b, states[i]);
    }
  }

  /** The state after all the given notifications when every RPC call is answered. */
  function RunAll(t: Tree, s: ClientState, blocks: seq<Hash>): (r: ClientState)
    requires TrueTip(t, s) && forall b :: b in blocks ==> b in t
    ensures TrueTip(t, r)
  {
    if blocks == [] then s
    else Handled(t, RunAll(t, s, blocks[..|blocks| - 1]), blocks[|blocks| - 1])
  }

  /** The last block announced at height k, if any, is the best block's ancestor there. */
  predicate AnnouncedTruly(t: Tree, s: ClientState, k: int)
    requires TrueTip(t, s)
  {
    LastConnected(s.events, k) != {} ==>
      0 <= k <= s.best.height && LastConnected(s.events, k) == {Ancestor(t, s.best.hash, k)}
  }

  lemma {:induction false} HandledAnnouncesTruly(t: Tree, s: ClientState, x: Hash, k: int)
    requires TrueTip(t, s) && x in t && AnnouncedTruly(t, s, k)
    ensures AnnouncedTruly(t, Handled(t, s, x), k)
    ensures s.best.height < k <= Handled(t, s, x).best.height ==> LastConnected(Handled(t, s, x).events, k) != {}
    ensures LastConnected(s.events, k) != {} ==> LastConnected(Handled(t, s, x).events, k) != {}
  {
    var tip, h := s.best.hash, s.best.height;
    if t[x].header.prev == tip {
      assert Linked(t, x);
      LastConnectedOfPair(t, x, h + 1, k);
      LastConnectedConcat(s.events, ConnectPair(t, x, h + 1), k);
    } else if h <= t[x].height {
      var a := Fork(t, tip, x);
      LastConnectedOfReorg(t, tip, x, k);
      LastConnectedConcat(s.events, ReorgEvents(t, tip, x), k);
      if 0 <= k <= a {
        AgreeBelow(t, tip, x, a, k);
      }
    }
  }

  /** Without RPC failures, at every height the last block announced as connected is the
      ancestor of the best block there, and every height above the starting tip has been
      announced. */
  lemma {:induction false} LastAnnouncedIsAncestor(t: Tree, tip: Hash, blocks: seq<Hash>, k: int)
    requires tip in t && forall b :: b in blocks ==> b in t
    ensures
      var s := RunAll(t, ClientState(Stamp(t, tip), []), blocks);
      && (LastConnected(s.events, k) != {} ==> 0 <= k <= s.best.height)
      && (t[tip].height < k <= s.best.height ==> LastConnected(s.events, k) != {})
      && (LastConnected(s.events, k) != {} ==> LastConnected(s.events, k) == {Ancestor(t, s.best.hash, k)})
  {
    if blocks != [] {
      LastAnnouncedIsAncestor(t, tip, blocks[..|blocks| - 1], k);
      var s := RunAll(t, ClientState(Stamp(t, tip), []), blocks[..|blocks| - 1]);
      HandledAnnouncesTruly(t, s, blocks[|blocks| - 1], k);
    }
  }

  /** Announced block i is no lower than the start and every block announced before it. */
  predicate IsRecord(t: Tree, tip: Hash, blocks: seq<Hash>, i: nat)
    requires tip in t && (forall b :: b in blocks ==> b in t) && i < |blocks|
  {
    && t[tip].height <= t[blocks[i]].height
    && forall j :: 0 <= j < i ==> t[blocks[j]].height <= t[blocks[i]].height
  }

  /** The height is the start's or that of a block, and none is higher. */
  predicate IsTop(t: Tree, tip: Hash, blocks: seq<Hash>, top: int)
    requires tip in t && forall b :: b in blocks ==> b in t
  {
    && t[tip].height <= top && (forall j :: 0 <= j < |blocks| ==> t[blocks[j]].height <= top)
    && (top == t[tip].height || exists j :: 0 <= j < |blocks| && t[blocks[j]].height == top)
  }

  lemma RecordOneMore(t: Tree, tip: Hash, blocks: seq<Hash>, n: nat, top: int)
    requires tip in t && (forall b :: b in blocks ==> b in t) && |blocks| == n + 1
    requires IsTop(t, tip, blocks[..n], top)
    ensures forall j :: 0 <= j < n ==> (IsRecord(t, tip, blocks, j) <==> IsRecord(t, tip, blocks[..n], j))
    ensures IsRecord(t, tip, blocks, n) <==> top <= t[blocks[n]].height
    ensures IsTop(t, tip, blocks, if top <= t[blocks[n]].height then t[blocks[n]].height else top)
  {
    var before := blocks[..n];
    assert forall j :: 0 <= j < n ==> before[j] == blocks[j];
  }

  predicate NoRecordFrom(t: Tree, tip: Hash, blocks: seq<Hash>, i: nat)
    requires tip in t && forall b :: b in blocks ==> b in t
  {
    forall j :: i <= j < |blocks| ==> !IsRecord(t, tip, blocks, j)
  }

  /** Block i is the last record, and this is its stamp. */
  predicate LastRecordAt(t: Tree, tip: Hash, blocks: seq<Hash>, bs: BlockStamp, i: nat)
    requires tip in t && forall b :: b in blocks ==> b in t
  {
    i < |blocks| && IsRecord(t, tip, blocks, i) && bs == Stamp(t, blocks[i]) && NoRecordFrom(t, tip, blocks, i + 1)
  }

  /** The stamp is that of the last record, or of the start if there is none. */
  ghost predicate IsOfLastRecord(t: Tree, tip: Hash, blocks: seq<Hash>, bs: BlockStamp)
    requires tip in t && forall b :: b in blocks ==> b in t
  {
    || (bs == Stamp(t, tip) && NoRecordFrom(t, tip, blocks, 0))
    || exists i :: LastRecordAt(t, tip, blocks, bs, i)
  }

  /** Without RPC failures, the best block is the last such block, or the start if there is
      none; so it is a highest block of all, and of several equally high ones the last. */
  lemma {:induction false} BestIsLastRecord(t: Tree, tip: Hash, blocks: seq<Hash>)
    requires tip in t && forall b :: b in blocks ==> b in t
    ensures
      var best := RunAll(t, ClientState(Stamp(t, tip), []), blocks).best;
      IsTop(t, tip, blocks, best.height) && IsOfLastRecord(t, tip, blocks, best)
  {
    if blocks != [] {
      var n := |blocks| - 1;
      var s := RunAll(t, ClientState(Stamp(t, tip), []), blocks[..n]);
      BestIsLastRecord(t, tip, blocks[..n]);
      assert Linked(t, blocks[n]);
      RecordOneMore(t, tip, blocks, n, s.best.height);
      RecordKept(t, tip, blocks, n, s.best);
    }
  }

  /** A record stays the last one until another comes. */
  lemma RecordKept(t: Tree, tip: Hash, blocks: seq<Hash>, n: nat, bs: BlockStamp)
    requires tip in t && (forall b :: b in blocks ==> b in t) && |blocks| == n + 1
    requires IsOfLastRecord(t, tip, blocks[..n], bs)
    requires forall j :: 0 <= j < n ==> (IsRecord(t, tip, blocks, j) <==> IsRecord(t, tip, blocks[..n], j))
    ensures IsOfLastRecord(t, tip, blocks, if IsRecord(t, tip, blocks, n) then Stamp(t, blocks[n]) else bs)
  {
    if IsRecord(t, tip, blocks, n) {
      assert LastRecordAt(t, tip, blocks, Stamp(t, blocks[n]), n);
    } else if i: nat :| LastRecordAt(t, tip, blocks[..n], bs, i) {
      assert LastRecordAt(t, tip, blocks, bs, i);
    } else {
      assert NoRecordFrom(t, tip, blocks, 0);
    }
  }
}
