/** Client, queue and wallet composed: when the wallet ends up on the client's best chain. */
module ChainFollowing {
  import opened BlockTree
  import opened ChainEvents
  import opened ChainClient
  import opened ChainRuns
  import opened Optional
  import opened SyncStore
  import opened WalletSync
  import opened ReorgDelivery
  import NotificationQueue

  /** The wallet stands on block x, and every hash it stores above height a is x's ancestor. */
  ghost predicate Followed(t: Tree, s: SyncState, x: Hash, a: int)
    requires x in t && -1 <= a
  {
    && s.current == s.stored == Stamp(t, x)
    && forall k :: k in s.hashes && k > a ==> k <= t[x].height && s.hashes[k] == Ancestor(t, x, k)
  }

  /** The fork is inside the stored window, or at genesis or below; or the new branch is so
      long that the whole old window falls out; or only the old tip was stored and it is on
      the new branch. */
  predicate Recoverable(t: Tree, tip: Hash, x: Hash, lo: int)
    requires tip in t && x in t && t[tip].height <= t[x].height
  {
    var a, h := Fork(t, tip, x), t[tip].height;
    || lo <= a
    || a <= 0
    || lo + MaxReorgDepth <= t[x].height
    || (lo == h && Ancestor(t, x, h) == tip)
  }

  function Max(x: int, y: int): int { if x < y then y else x }

  /** The lowest stored height, genesis apart, after a reorganisation was followed. */
  function NextLo(t: Tree, tip: Hash, x: Hash, lo: int): int
    requires tip in t && x in t && t[tip].height <= t[x].height
  {
    Max(if Fork(t, tip, x) <= 0 then 1 else lo, t[x].height - MaxReorgDepth + 1)
  }

  /** After the disconnects nothing but the hash below the old tip can have changed. */
  lemma AfterDisconnectsFacts(t: Tree, s: SyncState, tip: Hash, lo: int, d: Delivery)
    requires tip in t && InSync(t, s, tip, lo)
    ensures
      var s1 := AfterDisconnects(s, d, t[tip].height);
      && s1.birthdaySet && s1.hashes.Keys == s.hashes.Keys
      && (forall k :: k in s.hashes && k != t[tip].height - 1 ==> s1.hashes[k] == s.hashes[k])
  {
  }

  lemma ReorgFollowedInWindow(t: Tree, s: SyncState, s1: SyncState, s': SyncState, tip: Hash, x: Hash, lo: int)
    requires tip in t && x in t && t[tip].height <= t[x].height && InSync(t, s, tip, lo)
    requires s1.birthdaySet && s1.hashes.Keys == s.hashes.Keys && OnBranch(t, s1, tip)
    requires ConnectedUp(t, s1, s', x, Fork(t, tip, x) + 1, t[x].height)
    requires lo <= Fork(t, tip, x) || Fork(t, tip, x) <= 0
    ensures Followed(t, s', x, Fork(t, tip, x)) && InSync(t, s', x, NextLo(t, tip, x, lo))
  {
    var a, h, hx := Fork(t, tip, x), t[tip].height, t[x].height;
    forall k | k in s'.hashes
      ensures s'.hashes[k] == Ancestor(t, x, k) || (k <= a && s'.hashes[k] == ZeroHash)
    {
      assert k in s.hashes || a + 1 <= k <= hx;
      if k <= a {
        AgreeBelow(t, tip, x, a, k);
      }
    }
  }

  lemma ReorgOutsideWindow(t: Tree, s: SyncState, s1: SyncState, s': SyncState, tip: Hash, x: Hash, lo: int)
    requires tip in t && x in t && t[tip].height <= t[x].height && InSync(t, s, tip, lo)
    requires s1.birthdaySet && s1.hashes.Keys == s.hashes.Keys && OnBranch(t, s1, tip)
    requires forall k :: k in s.hashes && k != t[tip].height - 1 ==> s1.hashes[k] == s.hashes[k]
    requires t[tip].height == t[x].height == lo ==> s1 == s
    requires ConnectedUp(t, s1, s', x, lo + 1, t[x].height)
    requires 0 < Fork(t, tip, x) < lo <= t[tip].height
    ensures Followed(t, s', x, Fork(t, tip, x)) <==> Recoverable(t, tip, x, lo)
    ensures Recoverable(t, tip, x, lo) ==> InSync(t, s', x, NextLo(t, tip, x, lo))
  {
    var a, h, hx := Fork(t, tip, x), t[tip].height, t[x].height;
    AgreeBelow(t, tip, x, a, 0);
    assert lo in s1.hashes;
    if hx < lo + MaxReorgDepth {
      assert lo in s'.hashes && s'.hashes[lo] == s1.hashes[lo];
      assert lo < h ==> s1.hashes[lo] != Ancestor(t, x, lo);
      assert lo == h ==> s1.hashes[lo] == tip;
    }
    if Recoverable(t, tip, x, lo) {
      forall k | k in s'.hashes
        ensures s'.hashes[k] == Ancestor(t, x, k) || (k == 0 && s'.hashes[k] == ZeroHash)
      {
        assert k == 0 || lo <= k <= hx;
      }
    }
  }

  /** Delivering a reorganisation to a synced wallet puts it on the new tip, with the new
      branch's hash at every stored height above the fork, exactly when the condition of
      Recoverable holds; and then it is synced again. This is so although every disconnect
      after the first carries a hash the wallet does not store, because the new tip is
      never lower than the old one. */
  lemma {:induction false} ReorgFollowed(t: Tree, s: SyncState, tip: Hash, x: Hash, lo: int, ds: seq<Delivery>)
    requires tip in t && x in t && t[tip].height <= t[x].height && InSync(t, s, tip, lo)
    requires Events(ds) == ReorgEvents(t, tip, x)
    ensures Followed(t, AppliedAll(s, ds), x, Fork(t, tip, x)) <==> Recoverable(t, tip, x, lo)
    ensures Recoverable(t, tip, x, lo) ==> InSync(t, AppliedAll(s, ds), x, NextLo(t, tip, x, lo))
  {
    var a, h, hx := Fork(t, tip, x), t[tip].height, t[x].height;
    var u, v := SplitReorg(t, s, tip, x, ds);
    DisconnectsDelivered(t, s, tip, lo, a, u);
    AfterDisconnectsFacts(t, s, tip, lo, u[0]);
    var s1 := AppliedAll(s, u);
    if lo <= a || a <= 0 {
      ConnectsDelivered(t, s1, x, a + 1, hx, v);
      ReorgFollowedInWindow(t, s, s1, AppliedAll(s, ds), tip, x, lo);
    } else {
      LateConnectsDelivered(t, s1, x, a + 1, lo, v);
      ReorgOutsideWindow(t, s, s1, AppliedAll(s, ds), tip, x, lo);
    }
  }

  lemma TakeDrop(u: seq<Event>, v: seq<Event>)
    ensures (u + v)[..|u|] == u && (u + v)[|u|..] == v
  {
  }

  lemma {:induction false} EventsSplit(s: SyncState, ds: seq<Delivery>, n: nat)
    requires n <= |ds|
    ensures ds == ds[..n] + ds[n..] && Events(ds[..n]) == Events(ds)[..n] && Events(ds[n..]) == Events(ds)[n..]
    ensures |ds| == |Events(ds)| && AppliedAll(s, ds) == AppliedAll(AppliedAll(s, ds[..n]), ds[n..])
  {
    assert ds == ds[..n] + ds[n..];
    AppliedConcat(s, ds[..n], ds[n..]);
  }

  /** Connects that start below the window are refused up to its lowest height, and
      accepted from there on. */
  lemma {:induction false} LateConnectsDelivered(t: Tree, s: SyncState, x: Hash, from: int, lo: int, v: seq<Delivery>)
    requires x in t && 1 <= from <= lo <= t[x].height
    requires s.birthdaySet && lo in s.hashes && forall k :: from <= k + 1 <= lo ==> k !in s.hashes
    requires Events(v) == ConnectEvents(t, x, from, t[x].height)
    ensures ConnectedUp(t, s, AppliedAll(s, v), x, lo + 1, t[x].height)
  {
    var n, hx := 2 * (lo - from + 1), t[x].height;
    ConnectSplit(t, x, from, lo, hx);
    TakeDrop(ConnectEvents(t, x, from, lo), ConnectEvents(t, x, lo + 1, hx));
    EventsSplit(s, v, n);
    ConnectsRefused(t, s, x, from, lo, v[..n]);
    ConnectsDelivered(t, s, x, lo + 1, hx, v[n..]);
  }

  /** The deliveries of a reorganisation: first its disconnects, then its connects. */
  lemma SplitReorg(t: Tree, s: SyncState, tip: Hash, x: Hash, ds: seq<Delivery>)
    returns (u: seq<Delivery>, v: seq<Delivery>)
    requires tip in t && x in t && t[tip].height <= t[x].height
    requires Events(ds) == ReorgEvents(t, tip, x)
    ensures ds == u + v && AppliedAll(s, ds) == AppliedAll(AppliedAll(s, u), v)
    ensures Events(u) == DisconnectEvents(t, tip, Fork(t, tip, x))
    ensures Events(v) == ConnectEvents(t, x, Fork(t, tip, x) + 1, t[x].height)
  {
    var n := t[tip].height - Fork(t, tip, x);
    u, v := ds[..n], ds[n..];
    EventsSplit(s, ds, n);
  }

  /** A reorganisation whose fork is stored: its disconnects, then all of its connects. */
  lemma {:induction false} ForkStored(t: Tree, s: SyncState, tip: Hash, x: Hash, lo: int, ds: seq<Delivery>)
    requires tip in t && x in t && t[tip].height <= t[x].height && InSync(t, s, tip, lo)
    requires Events(ds) == ReorgEvents(t, tip, x) && Fork(t, tip, x) in s.hashes
    ensures |ds| > 0
    ensures ConnectedUp(t, AfterDisconnects(s, ds[0], t[tip].height), AppliedAll(s, ds), x, Fork(t, tip, x) + 1, t[x].height)
  {
    var a := Fork(t, tip, x);
    var u, v := SplitReorg(t, s, tip, x, ds);
    DisconnectsDelivered(t, s, tip, lo, a, u);
    AfterDisconnectsFacts(t, s, tip, lo, u[0]);
    var s1 := AppliedAll(s, u);
    assert u[0] == ds[0] && CanPut(s1, a + 1);
    ConnectsDelivered(t, s1, x, a + 1, t[x].height, v);
  }

  /** What a reorganisation does to the stored hash of the common ancestor: it is kept,
      unless the reorganisation is one block deep and its disconnect took effect, which
      leaves a blank hash behind. */
  lemma {:induction false} ForkHash(t: Tree, s: SyncState, tip: Hash, x: Hash, lo: int, ds: seq<Delivery>)
    requires tip in t && x in t && t[tip].height <= t[x].height && InSync(t, s, tip, lo)
    requires Events(ds) == ReorgEvents(t, tip, x)
    requires Fork(t, tip, x) in s.hashes && Fork(t, tip, x) in AppliedAll(s, ds).hashes
    ensures |ds| > 0
    ensures AppliedAll(s, ds).hashes[Fork(t, tip, x)] ==
              if Fork(t, tip, x) == t[tip].height - 1 && TipRolls(s, ds[0], t[tip].height) && ds[0].txRollback then ZeroHash
              else s.hashes[Fork(t, tip, x)]
  {
    ForkStored(t, s, tip, x, lo, ds);
    AfterDisconnectsFacts(t, s, tip, lo, ds[0]);
    KeptBelow(t, AfterDisconnects(s, ds[0], t[tip].height), AppliedAll(s, ds), x, Fork(t, tip, x));
  }

  lemma KeptBelow(t: Tree, s: SyncState, s': SyncState, x: Hash, a: int)
    requires x in t && -1 <= a < t[x].height && ConnectedUp(t, s, s', x, a + 1, t[x].height)
    requires a in s.hashes && a in s'.hashes
    ensures s'.hashes[a] == s.hashes[a]
  {
  }

  /** A block on top of the tip is followed without a reorganisation. */
  lemma {:induction false} ExtensionFollowed(t: Tree, s: SyncState, tip: Hash, x: Hash, lo: int, ds: seq<Delivery>)
    requires tip in t && x in t && t[x].header.prev == tip && InSync(t, s, tip, lo)
    requires Events(ds) == ConnectPair(t, x, t[tip].height + 1)
    ensures t[x].height == t[tip].height + 1
    ensures InSync(t, AppliedAll(s, ds), x, Max(lo, t[x].height - MaxReorgDepth + 1))
  {
    assert Linked(t, x);
    PairDelivered(t, s, x, t[x].height, ds);
  }

  predicate StepRecoverable(t: Tree, tip: Hash, x: Hash, lo: int)
    requires tip in t && x in t
  {
    t[x].header.prev == tip || t[x].height < t[tip].height || Recoverable(t, tip, x, lo)
  }

  function StepLo(t: Tree, tip: Hash, x: Hash, lo: int): int
    requires tip in t && x in t
  {
    if t[x].header.prev == tip then Max(lo, t[x].height - MaxReorgDepth + 1)
    else if t[x].height < t[tip].height then lo
    else NextLo(t, tip, x, lo)
  }

  /** The client's state after a list of blocks, having started on tip. */
  function ClientAfter(t: Tree, tip: Hash, blocks: seq<Hash>): ClientState
    requires tip in t && forall b :: b in blocks ==> b in t
  {
    RunAll(t, ClientState(Stamp(t, tip), []), blocks)
  }

  /** The lowest stored height, genesis apart, as a run of blocks moves it. */
  function RunLo(t: Tree, tip: Hash, lo: int, blocks: seq<Hash>): int
    requires tip in t && forall b :: b in blocks ==> b in t
  {
    if blocks == [] then lo
    else
      var before, last := blocks[..|blocks| - 1], blocks[|blocks| - 1];
      StepLo(t, ClientAfter(t, tip, before).best.hash, last, RunLo(t, tip, lo, before))
  }

  predicate RunRecoverable(t: Tree, tip: Hash, lo: int, blocks: seq<Hash>)
    requires tip in t && forall b :: b in blocks ==> b in t
  {
    blocks == [] ||
    var before, last := blocks[..|blocks| - 1], blocks[|blocks| - 1];
    && RunRecoverable(t, tip, lo, before)
    && StepRecoverable(t, ClientAfter(t, tip, before).best.hash, last, RunLo(t, tip, lo, before))
  }

  /** One notified block: what the client emits for it keeps the wallet in sync. */
  lemma {:induction false} StepFollowed(t: Tree, s: SyncState, c: ClientState, x: Hash, lo: int, ds: seq<Delivery>)
    requires TrueTip(t, c) && x in t && InSync(t, s, c.best.hash, lo) && StepRecoverable(t, c.best.hash, x, lo)
    requires Handled(t, c, x).events == c.events + Events(ds)
    ensures InSync(t, AppliedAll(s, ds), Handled(t, c, x).best.hash, StepLo(t, c.best.hash, x, lo))
  {
    var tip, e := c.best.hash, Events(ds);
    assert e == Handled(t, c, x).events[|c.events|..];
    if t[x].header.prev == tip {
      assert e == ConnectPair(t, x, t[tip].height + 1);
      ExtensionFollowed(t, s, tip, x, lo, ds);
    } else if t[x].height < t[tip].height {
      assert |ds| == |e| == 0;
    } else {
      assert e == ReorgEvents(t, tip, x);
      ReorgFollowed(t, s, tip, x, lo, ds);
    }
  }

  /** Over any run of block notifications whose reorganisations stay within what the
      window can recover from, the wallet that has received everything the client sent
      stands on the client's best block, with true hashes stored along its chain. */
  lemma {:induction false} WalletFollowsClient(
    t: Tree, s: SyncState, tip: Hash, lo: int, blocks: seq<Hash>, ds: seq<Delivery>)
    requires tip in t && forall b :: b in blocks ==> b in t
    requires InSync(t, s, tip, lo) && RunRecoverable(t, tip, lo, blocks)
    requires Events(ds) == ClientAfter(t, tip, blocks).events
    ensures InSync(t, AppliedAll(s, ds), ClientAfter(t, tip, blocks).best.hash, RunLo(t, tip, lo, blocks))
    ensures AppliedAll(s, ds).current == ClientAfter(t, tip, blocks).best
    decreases |blocks|
  {
    if blocks == [] {
      assert |ds| == |Events(ds)|;
    } else {
      var before, last := blocks[..|blocks| - 1], blocks[|blocks| - 1];
      var c := ClientAfter(t, tip, before);
      var n := |c.events|;
      assert |ds| == |Events(ds)|;
      var u, v := ds[..n], ds[n..];
      assert ds == u + v;
      assert Handled(t, c, last).events == c.events + Handled(t, c, last).events[n..];
      assert Events(u) == Events(ds)[..n] == c.events;
      assert Events(v) == Events(ds)[n..];
      WalletFollowsClient(t, s, tip, lo, before, u);
      StepFollowed(t, AppliedAll(s, u), c, last, RunLo(t, tip, lo, before), v);
      AppliedConcat(s, u, v);
    }
  }

  /** The same with the notification queue in between, whatever its capacity and however
      its operations interleave: at every moment the wallet has processed a prefix of what
      the client sent, and once the queue is empty it is in sync with the client. */
  lemma {:induction false} PipelineFollowsClient(
    t: Tree, s: SyncState, tip: Hash, lo: int, blocks: seq<Hash>,
    capacity: nat, actions: seq<NotificationQueue.Action<Event>>, ds: seq<Delivery>)
    requires tip in t && forall b :: b in blocks ==> b in t
    requires InSync(t, s, tip, lo) && RunRecoverable(t, tip, lo, blocks)
    requires NotificationQueue.Pushed(actions) == ClientAfter(t, tip, blocks).events
    requires Events(ds) == NotificationQueue.Run(NotificationQueue.Empty(capacity), actions).delivered
    ensures Events(ds) <= ClientAfter(t, tip, blocks).events
    ensures
      var q := NotificationQueue.Run(NotificationQueue.Empty(capacity), actions);
      q.chanOut == [] && q.overflow == [] ==>
        InSync(t, AppliedAll(s, ds), ClientAfter(t, tip, blocks).best.hash, RunLo(t, tip, lo, blocks))
  {
    NotificationQueue.Fifo(capacity, actions);
    var q := NotificationQueue.Run(NotificationQueue.Empty(capacity), actions);
    if q.chanOut == [] && q.overflow == [] {
      assert q.delivered == ClientAfter(t, tip, blocks).events;
      WalletFollowsClient(t, s, tip, lo, blocks, ds);
    }
  }
}
