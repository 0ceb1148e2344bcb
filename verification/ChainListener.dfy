/** The client's notifications as someone hears them who takes each at its word. */
module ChainListener {
  import opened BlockTree
  import opened ChainEvents
  import opened ChainClient
  import opened ChainRuns
  import opened Optional

  /** A listener that stands on one block: it undoes that block at a disconnect and puts the
      next one on top at a connect. An event that does not fit, by its height or time or by
      the block it connects to, leaves it nowhere. The hash of a disconnect is not looked at. */
  function Heard(t: Tree, at: Option<Hash>, e: Event): Option<Hash> {
    match at
    case None => None
    case Some(cur) =>
      match e
      case Disconnected(_, height, time) =>
        if cur in t && height == t[cur].height && time == t[cur].header.time then Some(t[cur].header.prev) else None
      case FilteredConnected(height, hash, time) =>
        if hash in t && t[hash].header.prev == cur && BlockStamp(hash, height, time) == Stamp(t, hash) then at else None
      case Connected(hash, height, time) =>
        if hash in t && t[hash].header.prev == cur && BlockStamp(hash, height, time) == Stamp(t, hash) then Some(hash) else None
  }

  function HeardAll(t: Tree, at: Option<Hash>, events: seq<Event>): Option<Hash> {
    if events == [] then at else Heard(t, HeardAll(t, at, events[..|events| - 1]), events[|events| - 1])
  }

  lemma {:induction false} HeardConcat(t: Tree, at: Option<Hash>, u: seq<Event>, v: seq<Event>)
    ensures HeardAll(t, at, u + v) == HeardAll(t, HeardAll(t, at, u), v)
    decreases |v|
  {
    if v == [] {
      assert u + v == u;
    } else {
      assert (u + v)[..|u + v| - 1] == u + v[..|v| - 1];
      HeardConcat(t, at, u, v[..|v| - 1]);
    }
  }

  lemma {:induction false} HeardPair(t: Tree, x: Hash, height: int)
    requires x in t && height == t[x].height
    ensures HeardAll(t, Some(t[x].header.prev), ConnectPair(t, x, height)) == Some(x)
  {
    var p := ConnectPair(t, x, height);
    assert p[..1] == [p[0]] && [p[0]][..0] == [];
    assert HeardAll(t, Some(t[x].header.prev), [p[0]]) == Some(t[x].header.prev);
  }

  lemma {:induction false} HeardConnects(t: Tree, x: Hash, lo: int, hi: int)
    requires x in t && 0 <= lo <= hi + 1 && hi <= t[x].height
    ensures HeardAll(t, Some(Ancestor(t, x, lo - 1)), ConnectEvents(t, x, lo, hi)) == Some(Ancestor(t, x, hi))
    decreases hi - lo + 1
  {
    if lo <= hi {
      HeardConnects(t, x, lo, hi - 1);
      AncestorStep(t, x, hi);
      HeardConcat(t, Some(Ancestor(t, x, lo - 1)), ConnectEvents(t, x, lo, hi - 1), ConnectPair(t, Ancestor(t, x, hi), hi));
      HeardPair(t, Ancestor(t, x, hi), hi);
    }
  }

  lemma {:induction false} HeardDisconnects(t: Tree, tip: Hash, a: int)
    requires tip in t && -1 <= a <= t[tip].height
    ensures HeardAll(t, Some(tip), DisconnectEvents(t, tip, a)) == Some(Ancestor(t, tip, a))
    decreases t[tip].height - a
  {
    if a < t[tip].height {
      HeardDisconnects(t, tip, a + 1);
      AncestorStep(t, tip, a + 1);
      var events := DisconnectEvents(t, tip, a);
      assert events[..|events| - 1] == DisconnectEvents(t, tip, a + 1);
    }
  }

  /** Without RPC failures, a listener that starts on the client's first block can follow
      every event, and stands on the client's best block. */
  lemma {:induction false} ListenerFollows(t: Tree, tip: Hash, blocks: seq<Hash>)
    requires tip in t && forall b :: b in blocks ==> b in t
    ensures
      var s := RunAll(t, ClientState(Stamp(t, tip), []), blocks);
      HeardAll(t, Some(tip), s.events) == Some(s.best.hash)
  {
    if blocks != [] {
      ListenerFollows(t, tip, blocks[..|blocks| - 1]);
      var s := RunAll(t, ClientState(Stamp(t, tip), []), blocks[..|blocks| - 1]);
      StepHeard(t, s, blocks[|blocks| - 1], tip);
    }
  }

  lemma {:induction false} HeardReorg(t: Tree, tip: Hash, x: Hash)
    requires tip in t && x in t && t[tip].height <= t[x].height
    ensures HeardAll(t, Some(tip), ReorgEvents(t, tip, x)) == Some(x)
  {
    var a := Fork(t, tip, x);
    HeardConcat(t, Some(tip), DisconnectEvents(t, tip, a), ConnectEvents(t, x, a + 1, t[x].height));
    HeardDisconnects(t, tip, a);
    HeardConnects(t, x, a + 1, t[x].height);
  }

  lemma {:induction false} StepHeard(t: Tree, s: ClientState, x: Hash, start: Hash)
    requires TrueTip(t, s) && x in t && HeardAll(t, Some(start), s.events) == Some(s.best.hash)
    ensures HeardAll(t, Some(start), Handled(t, s, x).events) == Some(Handled(t, s, x).best.hash)
  {
    if t[x].header.prev == s.best.hash {
      assert Linked(t, x);
      HeardConcat(t, Some(start), s.events, ConnectPair(t, x, s.best.height + 1));
      HeardPair(t, x, s.best.height + 1);
    } else if s.best.height <= t[x].height {
      HeardConcat(t, Some(start), s.events, ReorgEvents(t, s.best.hash, x));
      HeardReorg(t, s.best.hash, x);
    }
  }
}
