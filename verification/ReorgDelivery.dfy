/** The chain client and the wallet together: what the wallet's store holds once the
    notifications of a reorganisation, or of any run of blocks, have been delivered. */
module ReorgDelivery {
  import opened BlockTree
  import opened ChainEvents
  import opened ChainClient
  import opened Optional
  import opened SyncStore
  import opened WalletSync

  /** The wallet is in sync with a tip: it stores genesis and one interval of heights
      ending at the tip. A stored hash is the tip's ancestor, or was blanked by a
      disconnect; the tip's own hash is right. */
  ghost predicate InSync(t: Tree, s: SyncState, tip: Hash, lo: int)
    requires tip in t
  {
    var h := t[tip].height;
    && s.birthdaySet && s.current == s.stored == Stamp(t, tip)
    && 1 <= lo <= h + 1 && h - lo < MaxReorgDepth
    && (forall k :: k in s.hashes <==> k == 0 || lo <= k <= h)
    && (forall k :: k in s.hashes ==> s.hashes[k] == Ancestor(t, tip, k) || s.hashes[k] == ZeroHash)
    && h in s.hashes && s.hashes[h] == tip
  }

  /** What delivering the connects of x from lo to hi makes of a store that accepts the
      first of them. */
  ghost predicate ConnectedUp(t: Tree, s: SyncState, s': SyncState, x: Hash, lo: int, hi: int)
    requires x in t && 0 <= lo && hi <= t[x].height
  {
    && s'.birthdaySet == s.birthdaySet
    && (forall k :: k in s'.hashes <==> (k in s.hashes || lo <= k <= hi) && !(k > 0 && lo <= k + MaxReorgDepth <= hi))
    && (forall k :: k in s'.hashes ==> s'.hashes[k] == if lo <= k <= hi then Ancestor(t, x, k) else s.hashes[k])
    && (if lo <= hi then s'.current == s'.stored == Stamp(t, Ancestor(t, x, hi))
        else s'.current == s.current && s'.stored == s.stored)
  }

  lemma {:induction false} ConnectsDelivered(t: Tree, s: SyncState, x: Hash, lo: int, hi: int, ds: seq<Delivery>)
    requires x in t && 0 <= lo && hi <= t[x].height
    requires CanPut(s, lo) && Events(ds) == ConnectEvents(t, x, lo, hi)
    ensures ConnectedUp(t, s, AppliedAll(s, ds), x, lo, hi)
    decreases hi - lo + 1
  {
    if lo <= hi {
      var n, y := |ds| - 2, Ancestor(t, x, hi);
      assert |ds| == |Events(ds)|;
      var u, v := ds[..n], ds[n..];
      assert ds == u + v;
      assert Events(u) == Events(ds)[..n] == ConnectEvents(t, x, lo, hi - 1);
      assert Events(v) == Events(ds)[n..] == ConnectPair(t, y, hi);
      ConnectsDelivered(t, s, x, lo, hi - 1, u);
      AppliedConcat(s, u, v);
      PairDelivered(t, AppliedAll(s, u), y, hi, v);
      ConnectedOneMore(t, s, AppliedAll(s, u), x, lo, hi);
    }
  }

  lemma {:induction false} ConnectedOneMore(t: Tree, s: SyncState, mid: SyncState, x: Hash, lo: int, hi: int)
    requires x in t && 0 <= lo <= hi <= t[x].height
    requires CanPut(s, lo) && ConnectedUp(t, s, mid, x, lo, hi - 1)
    ensures ConnectedUp(t, s, Synced(mid, Stamp(t, Ancestor(t, x, hi))), x, lo, hi)
  {
    assert hi > lo ==> hi - 1 in mid.hashes;
    var y := Stamp(t, Ancestor(t, x, hi));
    var after := Synced(mid, y);
    assert after == SyncState(WithHash(mid.hashes, y), y, y, mid.birthdaySet);
    forall k
      ensures k in after.hashes <==> (k in s.hashes || lo <= k <= hi) && !(k > 0 && lo <= k + MaxReorgDepth <= hi)
      ensures k in after.hashes ==> after.hashes[k] == if lo <= k <= hi then Ancestor(t, x, k) else s.hashes[k]
    {
      assert k in after.hashes <==> (k in mid.hashes || k == hi) && !(k > 0 && k + MaxReorgDepth == hi);
      assert k in after.hashes ==> after.hashes[k] == if k == hi then y.hash else mid.hashes[k];
    }
  }

  lemma {:induction false} PairDelivered(t: Tree, s: SyncState, y: Hash, height: int, v: seq<Delivery>)
    requires y in t && Events(v) == ConnectPair(t, y, height)
    ensures AppliedAll(s, v) == Synced(s, BlockStamp(y, height, t[y].header.time))
  {
    assert |v| == |Events(v)|;
    assert v[0].event == Events(v)[0] && v[1].event == Events(v)[1];
    assert v[..1] == [v[0]] && v[..1][..0] == [];
    assert AppliedAll(s, v[..1]) == Applied(s, v[0]);
  }

  lemma {:induction false} ConnectSplit(t: Tree, x: Hash, lo: int, mid: int, hi: int)
    requires x in t && 0 <= lo <= mid + 1 && mid <= hi <= t[x].height
    ensures ConnectEvents(t, x, lo, hi) == ConnectEvents(t, x, lo, mid) + ConnectEvents(t, x, mid + 1, hi)
    decreases hi - mid
  {
    if mid < hi {
      ConnectSplit(t, x, lo, mid, hi - 1);
    }
  }

  /** Connects whose predecessor height is not stored are refused one after the other. */
  lemma {:induction false} ConnectsRefused(t: Tree, s: SyncState, x: Hash, lo: int, hi: int, ds: seq<Delivery>)
    requires x in t && 1 <= lo && hi <= t[x].height
    requires s.birthdaySet && forall k :: lo <= k + 1 <= hi ==> k !in s.hashes
    requires Events(ds) == ConnectEvents(t, x, lo, hi)
    ensures AppliedAll(s, ds) == s
    decreases hi - lo + 1
  {
    if lo <= hi {
      var n, y := |ds| - 2, Ancestor(t, x, hi);
      assert |ds| == |Events(ds)|;
      var u, v := ds[..n], ds[n..];
      assert ds == u + v;
      assert Events(u) == Events(ds)[..n] == ConnectEvents(t, x, lo, hi - 1);
      assert Events(v) == Events(ds)[n..] == ConnectPair(t, y, hi);
      ConnectsRefused(t, s, x, lo, hi - 1, u);
      AppliedConcat(s, u, v);
      PairDelivered(t, s, y, hi, v);
      assert hi - 1 !in s.hashes;
    }
  }

  /** Every stored hash belongs to the branch of tip or has been blanked. */
  ghost predicate OnBranch(t: Tree, s: SyncState, tip: Hash)
    requires tip in t
  {
    forall k :: k in s.hashes ==>
      0 <= k <= t[tip].height && (s.hashes[k] == Ancestor(t, tip, k) || s.hashes[k] == ZeroHash)
  }

  /** Only the first disconnect of a reorganisation can match: the later ones carry the
      hash of the block below. */
  lemma LaterDisconnectIgnored(t: Tree, s: SyncState, tip: Hash, j: int, d: Delivery)
    requires tip in t && 0 <= j < t[tip].height && OnBranch(t, s, tip)
    requires d.event == DisconnectEvent(t, tip, j)
    ensures Applied(s, d) == s
  {
    var parent := Ancestor(t, tip, j - 1);
    assert d.event.hash == parent;
    if j > 0 {
      assert t[parent].height != t[Ancestor(t, tip, j)].height;
      assert parent != ZeroHash;
    } else {
      assert -1 !in s.hashes;
    }
  }

  /** Whether the disconnect of the tip at height h takes effect. */
  predicate TipRolls(s: SyncState, d: Delivery, h: int) {
    d.chainSynced && d.parentTime.Some? && h - 1 in s.hashes && CanPut(s, h - 1)
  }

  /** The state after the disconnects: at most one step back, with a blank hash stored, or
      only remembered if the transaction store fails. */
  function AfterDisconnects(s: SyncState, d: Delivery, h: int): SyncState {
    if TipRolls(s, d, h) then
      var back := RollbackStamp(h, d.parentTime.value);
      if d.txRollback then SyncState(s.hashes[h - 1 := ZeroHash], back, back, s.birthdaySet) else s.(current := back)
    else s
  }

  lemma TipDisconnect(t: Tree, s: SyncState, tip: Hash, lo: int, d: Delivery)
    requires tip in t && InSync(t, s, tip, lo) && d.event == DisconnectEvent(t, tip, t[tip].height)
    ensures Applied(s, d) == AfterDisconnects(s, d, t[tip].height)
    ensures OnBranch(t, Applied(s, d), tip)
  {
    var h := t[tip].height;
    if Rolls(s, d) {
      var back := RollbackStamp(h, d.parentTime.value);
      assert back.height - MaxReorgDepth > 0 ==> back.height - MaxReorgDepth !in s.hashes;
      assert CanPut(s, h - 1) ==> WithHash(s.hashes, back) == s.hashes[h - 1 := ZeroHash];
    }
  }

  lemma {:induction false} DisconnectsDelivered(t: Tree, s: SyncState, tip: Hash, lo: int, a: int, ds: seq<Delivery>)
    requires tip in t && InSync(t, s, tip, lo) && -1 <= a < t[tip].height
    requires Events(ds) == DisconnectEvents(t, tip, a)
    ensures |ds| > 0 && AppliedAll(s, ds) == AfterDisconnects(s, ds[0], t[tip].height)
    ensures OnBranch(t, AppliedAll(s, ds), tip)
    decreases t[tip].height - a
  {
    var n := |ds| - 1;
    assert |ds| == |Events(ds)|;
    assert ds[n].event == Events(ds)[n] == DisconnectEvent(t, tip, a + 1);
    assert Events(ds[..n]) == Events(ds)[..n] == DisconnectEvents(t, tip, a + 1);
    if a + 1 == t[tip].height {
      assert ds[..n] == [];
      TipDisconnect(t, s, tip, lo, ds[0]);
    } else {
      DisconnectsDelivered(t, s, tip, lo, a + 1, ds[..n]);
      LaterDisconnectIgnored(t, AppliedAll(s, ds[..n]), tip, a + 1, ds[n]);
    }
  }
}
