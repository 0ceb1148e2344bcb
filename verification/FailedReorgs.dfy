/** What the wallet holds after a reorganisation that failed half-way, because the client
    could not read a block (chain/lokid_client.go), and when the client's next step, which
    starts from the old tip again, repairs it. */
module FailedReorgs {
  import opened BlockTree
  import opened ChainEvents
  import opened Optional
  import opened SyncStore
  import opened WalletSync
  import opened ReorgDelivery
  import opened ChainFollowing

  /** Block x is no lower than the tip, as in every reorganisation. */
  predicate Rivals(t: Tree, tip: Hash, x: Hash) {
    tip in t && x in t && t[tip].height <= t[x].height
  }

  /** How high the first n notifications of a reorganisation have connected the new branch. */
  function ConnectedTo(t: Tree, tip: Hash, x: Hash, n: nat): int
    requires Rivals(t, tip, x)
  {
    var a, h := Fork(t, tip, x), t[tip].height;
    if n <= h - a then a else a + (n - (h - a)) / 2
  }

  datatype Respect = Bounds | Stored | Heights | Hashes

  ghost predicate BetweenIn(respect: Respect, t: Tree, s: SyncState, tip: Hash, x: Hash, lo: int, m: int)
    requires Rivals(t, tip, x)
  {
    var a, h, hx := Fork(t, tip, x), t[tip].height, t[x].height;
    match respect
    case Bounds => s.birthdaySet && 1 <= lo <= h + 1 && h - lo < MaxReorgDepth && lo - 1 <= a <= m <= hx
    case Stored =>
      forall k :: k in s.hashes <==> (k == 0 || lo <= k <= h || a < k <= m) && !(k > 0 && a < k + MaxReorgDepth <= m)
    case Heights => forall k :: k in s.hashes ==> 0 <= k && (a < k <= m || k <= h)
    case Hashes =>
      forall k :: k in s.hashes && 0 <= k ==>
        if a < k <= m && k <= hx then s.hashes[k] == Ancestor(t, x, k)
        else k <= h ==> s.hashes[k] == Ancestor(t, tip, k) || s.hashes[k] == ZeroHash
  }

  /** Between two branches: the hashes above the fork and up to height m are those of the new
      branch, the other ones, from height lo on, those of the old branch, or blank. */
  ghost predicate Between(t: Tree, s: SyncState, tip: Hash, x: Hash, lo: int, m: int)
    requires Rivals(t, tip, x)
  {
    forall respect :: BetweenIn(respect, t, s, tip, x, lo, m)
  }

  lemma {:induction false} BetweenMeans(t: Tree, s: SyncState, tip: Hash, x: Hash, lo: int, m: int)
    requires Rivals(t, tip, x) && Between(t, s, tip, x, lo, m)
    ensures
      var a, h := Fork(t, tip, x), t[tip].height;
      && s.birthdaySet && 1 <= lo <= h + 1 && h - lo < MaxReorgDepth && lo - 1 <= a <= m <= t[x].height
      && (forall k :: k in s.hashes <==> (k == 0 || lo <= k <= h || a < k <= m) && !(k > 0 && a < k + MaxReorgDepth <= m))
      && forall k :: k in s.hashes ==>
           0 <= k && if a < k <= m then s.hashes[k] == Ancestor(t, x, k)
                     else k <= h && (s.hashes[k] == Ancestor(t, tip, k) || s.hashes[k] == ZeroHash)
  {
    assert BetweenIn(Bounds, t, s, tip, x, lo, m) && BetweenIn(Stored, t, s, tip, x, lo, m);
    assert BetweenIn(Heights, t, s, tip, x, lo, m) && BetweenIn(Hashes, t, s, tip, x, lo, m);
  }

  /** A wallet in sync, before and after the disconnects. */
  lemma {:induction false} DisconnectedHalfWay(t: Tree, s: SyncState, tip: Hash, x: Hash, lo: int, ds: seq<Delivery>)
    requires Rivals(t, tip, x) && InSync(t, s, tip, lo) && lo - 1 <= Fork(t, tip, x)
    requires |ds| <= t[tip].height - Fork(t, tip, x)
    requires Events(ds) == DisconnectEvents(t, tip, t[tip].height - |ds|)
    ensures Between(t, AppliedAll(s, ds), tip, x, lo, Fork(t, tip, x))
  {
    if ds != [] {
      DisconnectsDelivered(t, s, tip, lo, t[tip].height - |ds|, ds);
      AfterDisconnectsFacts(t, s, tip, lo, ds[0]);
    }
  }

  /** A lone filtered-connect notification changes nothing. */
  lemma {:induction false} FilteredAlone(t: Tree, s: SyncState, x: Hash, lo: int, m: int, v: seq<Delivery>)
    requires x in t && 0 <= lo <= m <= t[x].height && |v| <= 1
    requires |v| == 1 ==> Events(v)[0] == ConnectEvents(t, x, lo, t[x].height)[2 * (m - lo)]
    ensures AppliedAll(s, v) == s
  {
    if |v| == 1 {
      ConnectAt(t, x, lo, t[x].height, m);
      var all, n := ConnectEvents(t, x, lo, t[x].height), 2 * (m - lo);
      assert all[n] == all[n..n + 2][0];
      assert v[0].event.FilteredConnected? && v[..0] == [];
    }
  }

  lemma SamePrefix(e: seq<Event>, c: seq<Event>, all: seq<Event>)
    requires e <= all && c <= all && |c| <= |e|
    ensures e[..|c|] == c
    ensures |c| < |e| ==> e[|c|..][0] == all[|c|]
  {
  }

  lemma {:induction false} SplitConnects(t: Tree, s: SyncState, x: Hash, lo: int, m: int, v: seq<Delivery>)
    returns (u: seq<Delivery>, w: seq<Delivery>)
    requires x in t && 0 <= lo <= t[x].height + 1 && m == lo - 1 + |v| / 2
    requires Events(v) <= ConnectEvents(t, x, lo, t[x].height)
    ensures m <= t[x].height && Events(u) == ConnectEvents(t, x, lo, m)
    ensures |w| <= 1 && AppliedAll(s, v) == AppliedAll(AppliedAll(s, u), w)
    ensures |w| == 1 ==> m < t[x].height && Events(w)[0] == ConnectEvents(t, x, lo, t[x].height)[2 * (m + 1 - lo)]
  {
    var n := 2 * (m - lo + 1);
    assert |v| == |Events(v)|;
    ConnectPrefix(t, x, lo, m, t[x].height);
    SamePrefix(Events(v), ConnectEvents(t, x, lo, m), ConnectEvents(t, x, lo, t[x].height));
    EventsSplit(s, v, n);
    u, w := v[..n], v[n..];
  }

  lemma {:induction false} ConnectedHalfWay(t: Tree, s: SyncState, x: Hash, lo: int, m: int, v: seq<Delivery>)
    requires x in t && 0 <= lo <= t[x].height + 1 && CanPut(s, lo) && m == lo - 1 + |v| / 2
    requires Events(v) <= ConnectEvents(t, x, lo, t[x].height)
    ensures m <= t[x].height && ConnectedUp(t, s, AppliedAll(s, v), x, lo, m)
  {
    var u, w := SplitConnects(t, s, x, lo, m, v);
    ConnectsDelivered(t, s, x, lo, m, u);
    LastAlone(t, s, x, lo, m, u, w);
  }

  lemma {:induction false} LastAlone(
    t: Tree, s: SyncState, x: Hash, lo: int, m: int, u: seq<Delivery>, w: seq<Delivery>)
    requires x in t && 0 <= lo <= m + 1 && m <= t[x].height && |w| <= 1
    requires |w| == 1 ==> m < t[x].height && Events(w)[0] == ConnectEvents(t, x, lo, t[x].height)[2 * (m + 1 - lo)]
    ensures AppliedAll(AppliedAll(s, u), w) == AppliedAll(s, u)
  {
    if |w| == 1 {
      FilteredAlone(t, AppliedAll(s, u), x, lo, m + 1, w);
    }
  }

  /** The connects of the new branch, on top of a store that holds the old one. */
  lemma ConnectedBetween(t: Tree, s: SyncState, s1: SyncState, tip: Hash, x: Hash, lo: int, m: int)
    requires Rivals(t, tip, x) && Between(t, s, tip, x, lo, Fork(t, tip, x)) && Fork(t, tip, x) <= m <= t[x].height
    requires ConnectedUp(t, s, s1, x, Fork(t, tip, x) + 1, m)
    ensures Between(t, s1, tip, x, lo, m)
  {
    BetweenMeans(t, s, tip, x, lo, Fork(t, tip, x));
  }

  lemma PrefixSplit(u: seq<Event>, v: seq<Event>, e: seq<Event>)
    requires |u| <= |e| && e <= u + v
    ensures e[..|u|] == u && e[|u|..] <= v
  {
  }

  lemma {:induction false} HeldBeforeConnects(t: Tree, s: SyncState, tip: Hash, x: Hash, lo: int, ds: seq<Delivery>)
    requires Rivals(t, tip, x) && InSync(t, s, tip, lo) && lo - 1 <= Fork(t, tip, x)
    requires Events(ds) <= ReorgEvents(t, tip, x) && |ds| <= t[tip].height - Fork(t, tip, x)
    ensures Between(t, AppliedAll(s, ds), tip, x, lo, Fork(t, tip, x))
  {
    var a, h := Fork(t, tip, x), t[tip].height;
    assert |ds| == |Events(ds)|;
    DisconnectPrefix(t, tip, a, h - |ds|);
    assert Events(ds) == DisconnectEvents(t, tip, a)[..|ds|] == DisconnectEvents(t, tip, h - |ds|);
    DisconnectedHalfWay(t, s, tip, x, lo, ds);
  }

  lemma {:induction false} HeldAfterConnects(
    t: Tree, s: SyncState, tip: Hash, x: Hash, lo: int, m: int, v: seq<Delivery>)
    requires Rivals(t, tip, x) && Between(t, s, tip, x, lo, Fork(t, tip, x)) && CanPut(s, Fork(t, tip, x) + 1)
    requires m == Fork(t, tip, x) + |v| / 2
    requires Events(v) <= ConnectEvents(t, x, Fork(t, tip, x) + 1, t[x].height)
    ensures m <= t[x].height && Between(t, AppliedAll(s, v), tip, x, lo, m)
    ensures m > Fork(t, tip, x) ==> AppliedAll(s, v).current == AppliedAll(s, v).stored == Stamp(t, Ancestor(t, x, m))
  {
    ConnectedHalfWay(t, s, x, Fork(t, tip, x) + 1, m, v);
    ConnectedBetween(t, s, AppliedAll(s, v), tip, x, lo, m);
  }

  /** A store that holds the height of the fork accepts the block above it. */
  lemma AcceptsFork(t: Tree, s: SyncState, tip: Hash, x: Hash, lo: int)
    requires Rivals(t, tip, x) && Between(t, s, tip, x, lo, Fork(t, tip, x))
    requires lo <= Fork(t, tip, x) || Fork(t, tip, x) == 0
    ensures CanPut(s, Fork(t, tip, x) + 1)
  {
    BetweenMeans(t, s, tip, x, lo, Fork(t, tip, x));
  }

  lemma {:induction false} HeldOnTheWayUp(
    t: Tree, s: SyncState, tip: Hash, x: Hash, lo: int, m: int, u: seq<Delivery>, v: seq<Delivery>)
    requires Rivals(t, tip, x) && InSync(t, s, tip, lo)
    requires lo <= Fork(t, tip, x) || Fork(t, tip, x) == 0 == lo - 1
    requires |u| == t[tip].height - Fork(t, tip, x) && Events(u) == DisconnectEvents(t, tip, Fork(t, tip, x))
    requires m == Fork(t, tip, x) + |v| / 2
    requires Events(v) <= ConnectEvents(t, x, Fork(t, tip, x) + 1, t[x].height)
    ensures
      var s1 := AppliedAll(AppliedAll(s, u), v);
      && m <= t[x].height && Between(t, s1, tip, x, lo, m)
      && (m > Fork(t, tip, x) ==> s1.current == s1.stored == Stamp(t, Ancestor(t, x, m)))
  {
    DisconnectedHalfWay(t, s, tip, x, lo, u);
    AcceptsFork(t, AppliedAll(s, u), tip, x, lo);
    HeldAfterConnects(t, AppliedAll(s, u), tip, x, lo, m, v);
  }

  /** What the wallet holds once part of a reorganisation has been delivered to it, whose fork
      is stored. */
  lemma {:induction false} HeldAfterFailure(t: Tree, s: SyncState, tip: Hash, x: Hash, lo: int, ds: seq<Delivery>)
    requires Rivals(t, tip, x) && InSync(t, s, tip, lo)
    requires lo <= Fork(t, tip, x) || Fork(t, tip, x) == 0 == lo - 1
    requires Events(ds) <= ReorgEvents(t, tip, x)
    ensures
      var m, s1 := ConnectedTo(t, tip, x, |ds|), AppliedAll(s, ds);
      && m <= t[x].height && Between(t, s1, tip, x, lo, m)
      && (m > Fork(t, tip, x) ==> s1.current == s1.stored == Stamp(t, Ancestor(t, x, m)))
  {
    var a, n := Fork(t, tip, x), t[tip].height - Fork(t, tip, x);
    if |ds| <= n {
      HeldBeforeConnects(t, s, tip, x, lo, ds);
    } else {
      EventsSplit(s, ds, n);
      var u, v := ds[..n], ds[n..];
      PrefixSplit(DisconnectEvents(t, tip, a), ConnectEvents(t, x, a + 1, t[x].height), Events(ds));
      HeldOnTheWayUp(t, s, tip, x, lo, ConnectedTo(t, tip, x, |ds|), u, v);
    }
  }

  lemma SameHashes(t: Tree, s: SyncState, s1: SyncState, tip: Hash, x: Hash, lo: int, m: int)
    requires Rivals(t, tip, x) && Between(t, s, tip, x, lo, m)
    requires s1.hashes == s.hashes && s1.birthdaySet == s.birthdaySet
    ensures Between(t, s1, tip, x, lo, m)
  {
    BetweenMeans(t, s, tip, x, lo, m);
  }

  /** Blanking a hash of the old branch. */
  lemma Blanked(t: Tree, s: SyncState, s1: SyncState, tip: Hash, x: Hash, lo: int, m: int, k: int)
    requires Rivals(t, tip, x) && Between(t, s, tip, x, lo, m)
    requires k in s.hashes && !(Fork(t, tip, x) < k <= m)
    requires s1.hashes == s.hashes[k := ZeroHash] && s1.birthdaySet == s.birthdaySet
    ensures Between(t, s1, tip, x, lo, m)
  {
    BetweenMeans(t, s, tip, x, lo, m);
  }

  /** The last block connected, if any was, is the one the wallet stands on. */
  predicate StandsOn(t: Tree, s: SyncState, tip: Hash, x: Hash, m: int)
    requires Rivals(t, tip, x)
  {
    m > Fork(t, tip, x) ==> s.current.height == m
  }

  /** The tip is disconnected only if its hash is stored: if nothing of x was connected, or
      x is on top of it. */
  lemma {:induction false} TipStored(t: Tree, s: SyncState, tip: Hash, x: Hash, lo: int, m: int, d: Delivery)
    requires Rivals(t, tip, x) && Between(t, s, tip, x, lo, m) && StandsOn(t, s, tip, x, m)
    requires d.event == DisconnectEvent(t, tip, t[tip].height) && Rolls(s, d)
    ensures t[tip].height - 1 in s.hashes && !(Fork(t, tip, x) < t[tip].height - 1 <= m)
  {
    var a, h := Fork(t, tip, x), t[tip].height;
    BetweenMeans(t, s, tip, x, lo, m);
    if m > a {
      assert h <= m && s.hashes[h] == tip;
      assert Ancestor(t, x, h) == tip;
      AgreeBelow(t, tip, x, h, h - 1);
    }
  }

  lemma NothingStale(t: Tree, s: SyncState, tip: Hash, x: Hash, lo: int, m: int, bs: BlockStamp)
    requires Rivals(t, tip, x) && Between(t, s, tip, x, lo, m) && bs.height < t[tip].height
    ensures WithHash(s.hashes, bs) == s.hashes[bs.height := bs.hash]
  {
    BetweenMeans(t, s, tip, x, lo, m);
    var stale := bs.height - MaxReorgDepth;
    assert stale > 0 ==> stale !in s.hashes && stale != bs.height;
  }

  /** The old tip's disconnect, sent once more, leaves the wallet between the branches. */
  lemma {:induction false} TipDisconnectedAgain(
    t: Tree, s: SyncState, tip: Hash, x: Hash, lo: int, m: int, d: Delivery)
    requires Rivals(t, tip, x) && Between(t, s, tip, x, lo, m) && StandsOn(t, s, tip, x, m)
    requires d.event == DisconnectEvent(t, tip, t[tip].height)
    ensures Between(t, Applied(s, d), tip, x, lo, m)
  {
    var h: int := t[tip].height;
    if Rolls(s, d) && CanPut(s, h - 1) {
      TipStored(t, s, tip, x, lo, m, d);
      if d.txRollback {
        NothingStale(t, s, tip, x, lo, m, RollbackStamp(h, d.parentTime.value));
        Blanked(t, s, Applied(s, d), tip, x, lo, m, h - 1);
      } else {
        SameHashes(t, s, Applied(s, d), tip, x, lo, m);
      }
    }
  }

  /** The later disconnects never match: they carry the hash of a lower block. */
  lemma LaterIgnoredBetween(t: Tree, s: SyncState, tip: Hash, x: Hash, lo: int, m: int, j: int, d: Delivery)
    requires Rivals(t, tip, x) && Between(t, s, tip, x, lo, m) && 0 <= j < t[tip].height
    requires d.event == DisconnectEvent(t, tip, j)
    ensures Applied(s, d) == s
  {
    var parent := Ancestor(t, tip, j - 1);
    BetweenMeans(t, s, tip, x, lo, m);
    assert d.event.hash == parent;
    if j > 0 {
      assert t[parent].height != t[Ancestor(t, tip, j)].height;
      assert Fork(t, tip, x) < j <= m ==> t[parent].height != t[Ancestor(t, x, j)].height;
      assert parent != ZeroHash;
    } else {
      assert -1 !in s.hashes;
    }
  }

  lemma {:induction false} DisconnectedAgain(
    t: Tree, s: SyncState, tip: Hash, x: Hash, lo: int, m: int, b: int, ds: seq<Delivery>)
    requires Rivals(t, tip, x) && Between(t, s, tip, x, lo, m) && StandsOn(t, s, tip, x, m)
    requires -1 <= b < t[tip].height && Events(ds) == DisconnectEvents(t, tip, b)
    ensures Between(t, AppliedAll(s, ds), tip, x, lo, m)
    decreases t[tip].height - b
  {
    var n := |ds| - 1;
    assert |ds| == |Events(ds)|;
    assert ds[n].event == Events(ds)[n] == DisconnectEvent(t, tip, b + 1);
    assert Events(ds[..n]) == Events(ds)[..n] == DisconnectEvents(t, tip, b + 1);
    if b + 1 == t[tip].height {
      assert ds[..n] == [];
      TipDisconnectedAgain(t, s, tip, x, lo, m, ds[0]);
    } else {
      DisconnectedAgain(t, s, tip, x, lo, m, b + 1, ds[..n]);
      LaterIgnoredBetween(t, AppliedAll(s, ds[..n]), tip, x, lo, m, b + 1, ds[n]);
    }
  }

  function Min(x: int, y: int): int { if x < y then x else y }

  /** When connecting y above height b puts a wallet right that had connected x up to height m:
      it had connected nothing yet, or all of that is replaced, falls out of the window, or is
      the old tip itself; and it had not got higher than y. */
  predicate Repairs(t: Tree, tip: Hash, x: Hash, y: Hash, b: int, m: int)
    requires Rivals(t, tip, x) && y in t
  {
    var a, h, hy := Fork(t, tip, x), t[tip].height, t[y].height;
    && m <= hy
    && (m <= a || b <= a || Min(m, b) + MaxReorgDepth <= hy || (b == h && a == h - 1 && Ancestor(t, x, h) == tip))
  }

  ghost predicate InSyncAgain(t: Tree, s: SyncState, y: Hash)
    requires y in t
  {
    exists lo :: InSync(t, s, y, lo)
  }

  /** The client goes on from the old tip to block y, and connects it above height b. */
  predicate GoesOn(t: Tree, tip: Hash, y: Hash, b: int) {
    && Rivals(t, tip, y) && -1 <= b <= t[tip].height && b < t[y].height
    && Ancestor(t, y, b) == Ancestor(t, tip, b)
  }

  lemma {:induction false} RejoinedHashes(
    t: Tree, s: SyncState, s1: SyncState, tip: Hash, x: Hash, y: Hash, lo: int, b: int, m: int)
    requires Rivals(t, tip, x) && Between(t, s, tip, x, lo, m) && GoesOn(t, tip, y, b)
    requires ConnectedUp(t, s, s1, y, b + 1, t[y].height) && Repairs(t, tip, x, y, b, m)
    ensures forall k :: k in s1.hashes ==>
              0 <= k <= t[y].height && (s1.hashes[k] == Ancestor(t, y, k) || s1.hashes[k] == ZeroHash)
  {
    BetweenMeans(t, s, tip, x, lo, m);
    forall k | k in s1.hashes
      ensures 0 <= k <= t[y].height && (s1.hashes[k] == Ancestor(t, y, k) || s1.hashes[k] == ZeroHash)
    {
      if k <= b {
        AgreeBelow(t, y, tip, b, k);
      }
    }
  }

  lemma {:induction false} RejoinedRight(
    t: Tree, s: SyncState, s1: SyncState, tip: Hash, x: Hash, y: Hash, lo: int, b: int, m: int)
    requires Rivals(t, tip, x) && Between(t, s, tip, x, lo, m) && GoesOn(t, tip, y, b) && CanPut(s, b + 1)
    requires ConnectedUp(t, s, s1, y, b + 1, t[y].height) && Repairs(t, tip, x, y, b, m)
    ensures InSync(t, s1, y, Max(if b <= 0 then 1 else lo, t[y].height - MaxReorgDepth + 1))
  {
    RejoinedHashes(t, s, s1, tip, x, y, lo, b, m);
    BetweenMeans(t, s, tip, x, lo, m);
    var hy := t[y].height;
    var lo1 := Max(if b <= 0 then 1 else lo, hy - MaxReorgDepth + 1);
    forall k
      ensures k in s1.hashes <==> k == 0 || lo1 <= k <= hy
    {
      assert k in s1.hashes <==>
        (k in s.hashes || b + 1 <= k <= hy) && !(k > 0 && b + 1 <= k + MaxReorgDepth <= hy);
    }
  }

  lemma {:induction false} RejoinedWrong(
    t: Tree, s: SyncState, s1: SyncState, tip: Hash, x: Hash, y: Hash, lo: int, b: int, m: int)
    requires Rivals(t, tip, x) && Between(t, s, tip, x, lo, m) && GoesOn(t, tip, y, b)
    requires ConnectedUp(t, s, s1, y, b + 1, t[y].height) && !Repairs(t, tip, x, y, b, m)
    ensures !InSyncAgain(t, s1, y)
  {
    var a, h, hy := Fork(t, tip, x), t[tip].height, t[y].height;
    BetweenMeans(t, s, tip, x, lo, m);
    if m > hy {
      assert m in s.hashes && m in s1.hashes;
    } else {
      var k := Min(m, b);
      AgreeBelow(t, y, tip, b, k);
      assert k in s.hashes && k in s1.hashes && s1.hashes[k] == s.hashes[k] == Ancestor(t, x, k);
      if k == h && Ancestor(t, x, h) == tip {
        AgreeBelow(t, tip, x, h, h - 1);
      }
      assert Ancestor(t, x, k) != Ancestor(t, tip, k);
    }
  }

  lemma {:induction false} Rejoined(
    t: Tree, s: SyncState, tip: Hash, x: Hash, y: Hash, lo: int, b: int, m: int, v: seq<Delivery>)
    requires Rivals(t, tip, x) && Between(t, s, tip, x, lo, m) && GoesOn(t, tip, y, b) && CanPut(s, b + 1)
    requires Events(v) == ConnectEvents(t, y, b + 1, t[y].height)
    ensures InSyncAgain(t, AppliedAll(s, v), y) <==> Repairs(t, tip, x, y, b, m)
  {
    ConnectsDelivered(t, s, y, b + 1, t[y].height, v);
    if Repairs(t, tip, x, y, b, m) {
      RejoinedRight(t, s, AppliedAll(s, v), tip, x, y, lo, b, m);
    } else {
      RejoinedWrong(t, s, AppliedAll(s, v), tip, x, y, lo, b, m);
    }
  }

  lemma SameKeys(t: Tree, s: SyncState, s1: SyncState, tip: Hash, x: Hash, lo: int, m: int)
    requires Rivals(t, tip, x) && Between(t, s, tip, x, lo, m) && Between(t, s1, tip, x, lo, m)
    ensures forall k :: CanPut(s, k) <==> CanPut(s1, k)
  {
    BetweenMeans(t, s, tip, x, lo, m);
    BetweenMeans(t, s1, tip, x, lo, m);
  }

  /** After a failed reorganisation from the tip to x whose fork is stored, the next complete
      one, from the same tip to y, puts the wallet in sync with y if and only if Repairs
      holds: if no block of x had been connected yet, or y leaves the old branch no higher
      than x did; and x had not got higher than y. */
  lemma {:induction false} ReorgRepairs(
    t: Tree, s: SyncState, tip: Hash, x: Hash, y: Hash, lo: int, ds: seq<Delivery>, es: seq<Delivery>)
    requires Rivals(t, tip, x) && Rivals(t, tip, y) && InSync(t, s, tip, lo)
    requires lo <= Fork(t, tip, x) || Fork(t, tip, x) == 0 == lo - 1
    requires Events(ds) <= ReorgEvents(t, tip, x) && Events(es) == ReorgEvents(t, tip, y)
    requires CanPut(AppliedAll(s, ds), Fork(t, tip, y) + 1)
    ensures InSyncAgain(t, AppliedAll(AppliedAll(s, ds), es), y) <==>
              Repairs(t, tip, x, y, Fork(t, tip, y), ConnectedTo(t, tip, x, |ds|))
  {
    var s1 := AppliedAll(s, ds);
    HeldAfterFailure(t, s, tip, x, lo, ds);
    ReorgRejoins(t, s1, tip, x, y, lo, ConnectedTo(t, tip, x, |ds|), es);
  }

  lemma {:induction false} ReorgRejoins(
    t: Tree, s: SyncState, tip: Hash, x: Hash, y: Hash, lo: int, m: int, es: seq<Delivery>)
    requires Rivals(t, tip, x) && Rivals(t, tip, y) && Between(t, s, tip, x, lo, m) && StandsOn(t, s, tip, x, m)
    requires CanPut(s, Fork(t, tip, y) + 1) && Events(es) == ReorgEvents(t, tip, y)
    ensures InSyncAgain(t, AppliedAll(s, es), y) <==> Repairs(t, tip, x, y, Fork(t, tip, y), m)
  {
    var b := Fork(t, tip, y);
    var u, v := SplitReorg(t, s, tip, y, es);
    DisconnectedAgain(t, s, tip, x, lo, m, b, u);
    SameKeys(t, s, AppliedAll(s, u), tip, x, lo, m);
    Rejoined(t, AppliedAll(s, u), tip, x, y, lo, b, m, v);
  }

  /** A block on top of the old tip puts it right if and only if nothing had been connected,
      or only what is on that chain as well. */
  lemma {:induction false} ExtensionRepairs(
    t: Tree, s: SyncState, tip: Hash, x: Hash, y: Hash, lo: int, ds: seq<Delivery>, es: seq<Delivery>)
    requires Rivals(t, tip, x) && y in t && t[y].header.prev == tip && InSync(t, s, tip, lo)
    requires lo <= Fork(t, tip, x) || Fork(t, tip, x) == 0 == lo - 1
    requires Events(ds) <= ReorgEvents(t, tip, x) && Events(es) == ConnectPair(t, y, t[tip].height + 1)
    requires CanPut(AppliedAll(s, ds), t[tip].height + 1)
    ensures InSyncAgain(t, AppliedAll(AppliedAll(s, ds), es), y) <==>
              Repairs(t, tip, x, y, t[tip].height, ConnectedTo(t, tip, x, |ds|))
  {
    var h := t[tip].height;
    assert Linked(t, y);
    HeldAfterFailure(t, s, tip, x, lo, ds);
    AncestorStep(t, y, h + 1);
    assert ConnectEvents(t, y, h + 1, h) == [];
    assert ConnectEvents(t, y, h + 1, h + 1) == ConnectPair(t, y, h + 1);
    Rejoined(t, AppliedAll(s, ds), tip, x, y, lo, h, ConnectedTo(t, tip, x, |ds|), es);
  }
}
