/** What a lokid rescan client tells its caller about blocks, and the exact notifications
    a reorganisation produces. */
module ChainEvents {
  import opened BlockTree

  datatype Event =
    | FilteredConnected(height: int, hash: Hash, time: int)
    | Connected(hash: Hash, height: int, time: int)
    | Disconnected(hash: Hash, height: int, time: int)

  /** The two notifications sent for one connected block. */
  function ConnectPair(t: Tree, x: Hash, height: int): seq<Event>
    requires x in t
  {
    [FilteredConnected(height, x, t[x].header.time), Connected(x, height, t[x].header.time)]
  }

  /** Connecting the ancestors of x from height lo up to hi. */
  function ConnectEvents(t: Tree, x: Hash, lo: int, hi: int): (r: seq<Event>)
    requires x in t && 0 <= lo && hi <= t[x].height
    ensures |r| == if hi < lo then 0 else 2 * (hi - lo + 1)
    decreases hi - lo + 1
  {
    if hi < lo then []
    else ConnectEvents(t, x, lo, hi - 1) + ConnectPair(t, Ancestor(t, x, hi), hi)
  }

  /** The hash carried by the disconnect notification for height j. Only the first one
      names the block being disconnected; the others name its parent. */
  function DisconnectHash(t: Tree, tip: Hash, j: int): Hash
    requires tip in t && 0 <= j <= t[tip].height
  {
    if j == t[tip].height then tip else Ancestor(t, tip, j - 1)
  }

  function DisconnectEvent(t: Tree, tip: Hash, j: int): Event
    requires tip in t && 0 <= j <= t[tip].height
  {
    Disconnected(DisconnectHash(t, tip, j), j, t[Ancestor(t, tip, j)].header.time)
  }

  /** Disconnecting the branch of tip from its top down to height a + 1. */
  function DisconnectEvents(t: Tree, tip: Hash, a: int): (r: seq<Event>)
    requires tip in t && -1 <= a <= t[tip].height
    ensures |r| == t[tip].height - a
    decreases t[tip].height - a
  {
    if a == t[tip].height then []
    else DisconnectEvents(t, tip, a + 1) + [DisconnectEvent(t, tip, a + 1)]
  }

  /** All notifications of a complete reorganisation from tip to x. */
  function ReorgEvents(t: Tree, tip: Hash, x: Hash): seq<Event>
    requires tip in t && x in t && t[tip].height <= t[x].height
  {
    var a := Fork(t, tip, x);
    DisconnectEvents(t, tip, a) + ConnectEvents(t, x, a + 1, t[x].height)
  }

  lemma {:induction false} DisconnectPrefix(t: Tree, tip: Hash, a: int, b: int)
    requires tip in t && -1 <= a <= b <= t[tip].height
    ensures DisconnectEvents(t, tip, b) <= DisconnectEvents(t, tip, a)
    decreases b - a
  {
    if a < b {
      DisconnectPrefix(t, tip, a + 1, b);
    }
  }

  lemma {:induction false} ConnectPrefix(t: Tree, x: Hash, lo: int, mid: int, hi: int)
    requires x in t && 0 <= lo && mid <= hi <= t[x].height
    ensures ConnectEvents(t, x, lo, mid) <= ConnectEvents(t, x, lo, hi)
    decreases hi - mid
  {
    if mid < hi {
      ConnectPrefix(t, x, lo, mid, hi - 1);
    }
  }

  /** The i-th disconnect notification is the one for the i-th height from the top. */
  lemma {:induction false} DisconnectAt(t: Tree, tip: Hash, a: int, i: int)
    requires tip in t && -1 <= a <= t[tip].height && 0 <= i < t[tip].height - a
    ensures DisconnectEvents(t, tip, a)[i] == DisconnectEvent(t, tip, t[tip].height - i)
    decreases t[tip].height - a
  {
    if i < t[tip].height - a - 1 {
      DisconnectAt(t, tip, a + 1, i);
    }
  }

  lemma {:induction false} ConnectAt(t: Tree, x: Hash, lo: int, hi: int, m: int)
    requires x in t && 0 <= lo <= m <= hi <= t[x].height
    ensures ConnectEvents(t, x, lo, hi)[2 * (m - lo)..2 * (m - lo) + 2] == ConnectPair(t, Ancestor(t, x, m), m)
    decreases hi - m
  {
    if m < hi {
      ConnectAt(t, x, lo, hi - 1, m);
      var before := ConnectEvents(t, x, lo, hi - 1);
      assert ConnectEvents(t, x, lo, hi)[2 * (m - lo)..2 * (m - lo) + 2] == before[2 * (m - lo)..2 * (m - lo) + 2];
    }
  }

  /** First half of a reorganisation: disconnects at consecutive falling heights from the
      old tip down to just above the fork, each carrying the true time of its block. */
  lemma {:induction false} ReorgDisconnects(t: Tree, tip: Hash, x: Hash, i: int)
    requires tip in t && x in t && t[tip].height <= t[x].height
    requires 0 <= i < t[tip].height - Fork(t, tip, x)
    ensures |ReorgEvents(t, tip, x)| == t[tip].height - Fork(t, tip, x) + 2 * (t[x].height - Fork(t, tip, x))
    ensures ReorgEvents(t, tip, x)[i].Disconnected?
    ensures ReorgEvents(t, tip, x)[i].height == t[tip].height - i
    ensures ReorgEvents(t, tip, x)[i].time == t[Ancestor(t, tip, t[tip].height - i)].header.time
  {
    DisconnectAt(t, tip, Fork(t, tip, x), i);
  }

  /** Where the BlockConnected notification for height m stands in a reorganisation. */
  function ConnectPosition(t: Tree, tip: Hash, x: Hash, m: int): (p: int)
    requires tip in t && x in t && t[tip].height <= t[x].height
    requires Fork(t, tip, x) < m <= t[x].height
    ensures 0 < p < |ReorgEvents(t, tip, x)|
    ensures m == t[x].height ==> p == |ReorgEvents(t, tip, x)| - 1
  {
    var a := Fork(t, tip, x);
    t[tip].height - a + 2 * (m - a - 1) + 1
  }

  /** Second half: every block of the new branch above the fork, ascending, ending with
      the new tip. Each is a block of the tree at the announced height and time, linked by
      its previous-block hash to the block announced before it, the first one to the
      common ancestor. */
  lemma ReorgConnects(t: Tree, tip: Hash, x: Hash, m: int)
    requires tip in t && x in t && t[tip].height <= t[x].height
    requires Fork(t, tip, x) < m <= t[x].height
    ensures
      var ev := ReorgEvents(t, tip, x);
      var p := ConnectPosition(t, tip, x, m);
      && ev[p].Connected? && ev[p].height == m
      && ev[p - 1] == FilteredConnected(m, ev[p].hash, ev[p].time)
      && ev[p].hash in t && t[ev[p].hash].height == m && t[ev[p].hash].header.time == ev[p].time
      && t[ev[p].hash].header.prev ==
           (if m == Fork(t, tip, x) + 1 then Ancestor(t, tip, m - 1)
            else ev[ConnectPosition(t, tip, x, m - 1)].hash)
      && (m == t[x].height ==> ev[p].hash == x)
  {
    ReorgConnectPair(t, tip, x, m);
    AncestorStep(t, x, m);
    if m > Fork(t, tip, x) + 1 {
      ReorgConnectPair(t, tip, x, m - 1);
    }
  }

  lemma {:induction false} ReorgConnectPair(t: Tree, tip: Hash, x: Hash, m: int)
    requires tip in t && x in t && t[tip].height <= t[x].height
    requires Fork(t, tip, x) < m <= t[x].height
    ensures
      var ev, p, y := ReorgEvents(t, tip, x), ConnectPosition(t, tip, x, m), Ancestor(t, x, m);
      ev[p - 1] == FilteredConnected(m, y, t[y].header.time) && ev[p] == Connected(y, m, t[y].header.time)
  {
    ReorgConnectAt(t, tip, x, m);
    var ev, p := ReorgEvents(t, tip, x), ConnectPosition(t, tip, x, m);
    assert ev[p - 1] == ev[p - 1..p + 1][0] && ev[p] == ev[p - 1..p + 1][1];
  }

  lemma {:induction false} ReorgConnectAt(t: Tree, tip: Hash, x: Hash, m: int)
    requires tip in t && x in t && t[tip].height <= t[x].height
    requires Fork(t, tip, x) < m <= t[x].height
    ensures
      var p := ConnectPosition(t, tip, x, m);
      ReorgEvents(t, tip, x)[p - 1..p + 1] == ConnectPair(t, Ancestor(t, x, m), m)
  {
    var a := Fork(t, tip, x);
    ConnectAt(t, x, a + 1, t[x].height, m);
    SliceAfter(DisconnectEvents(t, tip, a), ConnectEvents(t, x, a + 1, t[x].height), 2 * (m - a - 1), 2 * (m - a));
  }

  lemma SliceAfter(u: seq<Event>, v: seq<Event>, i: int, j: int)
    requires 0 <= i <= j <= |v|
    ensures (u + v)[|u| + i..|u| + j] == v[i..j]
  {
  }

  /** A disconnect notification names the block at its height exactly when it is the
      first one of its reorganisation. */
  lemma {:induction false} DisconnectNamesItsBlockOnlyFirst(t: Tree, tip: Hash, j: int)
    requires tip in t && 0 <= j <= t[tip].height
    ensures DisconnectHash(t, tip, j) == Ancestor(t, tip, j) <==> j == t[tip].height
  {
    if j < t[tip].height && j > 0 {
      assert t[Ancestor(t, tip, j - 1)].height != t[Ancestor(t, tip, j)].height;
    }
  }

  /** The hash of the last block announced as connected at height k, if any was. */
  function LastConnected(ev: seq<Event>, k: int): (r: set<Hash>)
  {
    if ev == [] then {}
    else if ev[|ev| - 1].Connected? && ev[|ev| - 1].height == k then {ev[|ev| - 1].hash}
    else LastConnected(ev[..|ev| - 1], k)
  }

  lemma {:induction false} LastConnectedConcat(e1: seq<Event>, e2: seq<Event>, k: int)
    ensures LastConnected(e1 + e2, k) == if LastConnected(e2, k) != {} then LastConnected(e2, k) else LastConnected(e1, k)
    decreases |e2|
  {
    if e2 == [] {
      assert e1 + e2 == e1;
    } else {
      assert (e1 + e2)[..|e1 + e2| - 1] == e1 + e2[..|e2| - 1];
      LastConnectedConcat(e1, e2[..|e2| - 1], k);
    }
  }

  lemma {:induction false} LastConnectedOfDisconnects(t: Tree, tip: Hash, a: int, k: int)
    requires tip in t && -1 <= a <= t[tip].height
    ensures LastConnected(DisconnectEvents(t, tip, a), k) == {}
    decreases t[tip].height - a
  {
    if a < t[tip].height {
      LastConnectedOfDisconnects(t, tip, a + 1, k);
      LastConnectedConcat(DisconnectEvents(t, tip, a + 1), [DisconnectEvent(t, tip, a + 1)], k);
      assert [DisconnectEvent(t, tip, a + 1)][..0] == [];
    }
  }

  lemma {:induction false} LastConnectedOfPair(t: Tree, x: Hash, height: int, k: int)
    requires x in t
    ensures LastConnected(ConnectPair(t, x, height), k) == if k == height then {x} else {}
  {
    var p := ConnectPair(t, x, height);
    assert p[..|p| - 1] == [p[0]];
    assert [p[0]][..0] == [];
    assert LastConnected([p[0]], k) == {};
  }

  lemma {:induction false} LastConnectedOfConnects(t: Tree, x: Hash, lo: int, hi: int, k: int)
    requires x in t && 0 <= lo && hi <= t[x].height
    ensures LastConnected(ConnectEvents(t, x, lo, hi), k) == if lo <= k <= hi then {Ancestor(t, x, k)} else {}
    decreases hi - lo + 1
  {
    if lo <= hi {
      LastConnectedOfConnects(t, x, lo, hi - 1, k);
      LastConnectedOfPair(t, Ancestor(t, x, hi), hi, k);
      LastConnectedConcat(ConnectEvents(t, x, lo, hi - 1), ConnectPair(t, Ancestor(t, x, hi), hi), k);
    }
  }

  /** A reorganisation announces exactly the heights above the fork. */
  lemma {:induction false} LastConnectedOfReorg(t: Tree, tip: Hash, x: Hash, k: int)
    requires tip in t && x in t && t[tip].height <= t[x].height
    ensures LastConnected(ReorgEvents(t, tip, x), k) ==
              if Fork(t, tip, x) < k <= t[x].height then {Ancestor(t, x, k)} else {}
  {
    var a := Fork(t, tip, x);
    LastConnectedOfDisconnects(t, tip, a, k);
    LastConnectedOfConnects(t, x, a + 1, t[x].height, k);
    LastConnectedConcat(DisconnectEvents(t, tip, a), ConnectEvents(t, x, a + 1, t[x].height), k);
  }
}
