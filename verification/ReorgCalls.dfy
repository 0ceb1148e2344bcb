/** The RPC calls of a reorganisation (reorg in chain/lokid_client.go): how many there are,
    and what has been sent when one of them is not answered. */
module ReorgCalls {
  import opened BlockTree
  import opened ChainEvents

  /** How many RPC calls a reorganisation takes if all are answered: for the height of the
      block, and unless that is too low for the blocks of its branch down to the height of
      the old tip, for the header of the tip, a header and a block for every further step
      back, and a header for every block connected. */
  function Reads(t: Tree, tip: Hash, x: Hash): nat
    requires tip in t && x in t
  {
    if t[x].height < t[tip].height then 1 else 1 + ReadsToSwitch(t, tip, x)
  }

  datatype Phase = Collecting | Disconnecting | Connecting

  /** The number of the calls, the height of the block not counted, after which the
      disconnecting begins, and the connecting. */
  function PhaseStart(phase: Phase, t: Tree, tip: Hash, x: Hash): nat
    requires tip in t && x in t && t[tip].height <= t[x].height
  {
    match phase
    case Collecting => 0
    case Disconnecting => t[x].height - t[tip].height
    case Connecting => t[x].height - t[tip].height + 1 + 2 * (t[tip].height - Fork(t, tip, x) - 1)
  }

  function ReadsToSwitch(t: Tree, tip: Hash, x: Hash): nat
    requires tip in t && x in t && t[tip].height <= t[x].height
  {
    PhaseStart(Connecting, t, tip, x) + t[x].height - Fork(t, tip, x)
  }

  /** The phase in which the m-th call is made. */
  function PhaseOf(t: Tree, tip: Hash, x: Hash, m: nat): Phase
    requires tip in t && x in t && t[tip].height <= t[x].height
  {
    if m <= PhaseStart(Disconnecting, t, tip, x) then Collecting
    else if m <= PhaseStart(Connecting, t, tip, x) then Disconnecting
    else Connecting
  }

  /** What has been sent when the n-th call of a phase is the first that is not answered:
      nothing while the new branch is collected, a disconnect before every step back, and a
      connect after every header on the way up. */
  predicate SentIn(phase: Phase, t: Tree, tip: Hash, x: Hash, n: nat, sent: seq<Event>)
    requires tip in t && x in t && t[tip].height <= t[x].height
  {
    var a := Fork(t, tip, x);
    match phase
    case Collecting => sent == []
    case Disconnecting => n / 2 <= t[tip].height - a && sent == DisconnectEvents(t, tip, t[tip].height - n / 2)
    case Connecting =>
      && 1 <= n <= t[x].height - a
      && sent == DisconnectEvents(t, tip, a) + ConnectEvents(t, x, a + 1, a + n - 1)
  }

  ghost predicate SentBefore(t: Tree, tip: Hash, x: Hash, m: nat, sent: seq<Event>)
    requires tip in t && x in t && t[tip].height <= t[x].height
  {
    forall phase :: phase == PhaseOf(t, tip, x, m) ==>
      m >= PhaseStart(phase, t, tip, x) && SentIn(phase, t, tip, x, m - PhaseStart(phase, t, tip, x), sent)
  }

  lemma SentInIsPart(phase: Phase, t: Tree, tip: Hash, x: Hash, n: nat, sent: seq<Event>)
    requires tip in t && x in t && t[tip].height <= t[x].height && SentIn(phase, t, tip, x, n, sent)
    ensures sent <= ReorgEvents(t, tip, x)
  {
    var a := Fork(t, tip, x);
    match phase {
      case Collecting =>
      case Disconnecting => DisconnectPrefix(t, tip, a, t[tip].height - n / 2);
      case Connecting => ConnectPrefix(t, x, a + 1, a + n - 1, t[x].height);
    }
  }

  /** It is a part of what the whole reorganisation sends. */
  lemma SentIsPart(t: Tree, tip: Hash, x: Hash, m: nat, sent: seq<Event>)
    requires tip in t && x in t && t[tip].height <= t[x].height && SentBefore(t, tip, x, m, sent)
    ensures sent <= ReorgEvents(t, tip, x)
  {
    var phase := PhaseOf(t, tip, x, m);
    SentInIsPart(phase, t, tip, x, m - PhaseStart(phase, t, tip, x), sent);
  }

  /** Up to n calls were made, from number `from` on: all of them, if all were answered, or
      up to the first that was not. */
  ghost predicate Ran(answered: iset<nat>, from: nat, n: nat, to: nat, ok: bool) {
    && from <= to <= from + n
    && (forall i :: from <= i < (if ok then to else to - 1) ==> i in answered)
    && if ok then to == from + n else to > from && to - 1 !in answered
  }

  lemma RanOn(answered: iset<nat>, from: nat, n: nat, mid: nat, n': nat, to: nat, ok: bool)
    requires Ran(answered, from, n, mid, true) && Ran(answered, mid, n', to, ok)
    ensures Ran(answered, from, n + n', to, ok)
  {
  }

  datatype Part = Calls | Events

  /** What is known of some calls, numbered from `from` up to `to`, that were meant to be n:
      all were made and answered, or it ended with the first that was not. And of what was
      sent meanwhile: all of it, or what a reorganisation that ends there has sent. */
  ghost predicate Went(
    part: Part, t: Tree, tip: Hash, x: Hash, answered: iset<nat>, from: nat, n: nat, to: nat, ok: bool,
    full: seq<Event>, sent: seq<Event>)
    requires tip in t && x in t && t[tip].height <= t[x].height
  {
    match part
    case Calls => Ran(answered, from, n, to, ok)
    case Events => if ok then sent == full else from <= to && SentBefore(t, tip, x, to - from, sent)
  }

  ghost predicate Followed(
    t: Tree, tip: Hash, x: Hash, answered: iset<nat>, from: nat, n: nat, to: nat, ok: bool,
    full: seq<Event>, sent: seq<Event>)
    requires tip in t && x in t && t[tip].height <= t[x].height
  {
    forall part :: Went(part, t, tip, x, answered, from, n, to, ok, full, sent)
  }

  lemma StoppedCollecting(t: Tree, tip: Hash, x: Hash, answered: iset<nat>, from: nat, to: nat, full: seq<Event>)
    requires tip in t && x in t && t[tip].height <= t[x].height
    requires Ran(answered, from, t[x].height - t[tip].height, to, false)
    ensures Followed(t, tip, x, answered, from, PhaseStart(Connecting, t, tip, x), to, false, full, [])
  {
    assert PhaseOf(t, tip, x, to - from) == Collecting;
  }

  lemma {:induction false} StoppedDisconnecting(t: Tree, tip: Hash, x: Hash, m: nat, n: nat, reached: int)
    requires tip in t && x in t && t[tip].height <= t[x].height && m == PhaseStart(Disconnecting, t, tip, x) + n
    requires 1 <= n <= 1 + 2 * (t[tip].height - Fork(t, tip, x) - 1) && reached == t[tip].height - n / 2
    ensures SentBefore(t, tip, x, m, DisconnectEvents(t, tip, reached))
  {
    assert PhaseOf(t, tip, x, m) == Disconnecting;
  }

  lemma StoppedConnecting(t: Tree, tip: Hash, x: Hash, m: nat, n: nat, top: int)
    requires tip in t && x in t && t[tip].height <= t[x].height && m == PhaseStart(Connecting, t, tip, x) + n
    requires 1 <= n <= t[x].height - Fork(t, tip, x) && top == Fork(t, tip, x) + n - 1
    ensures
      var a := Fork(t, tip, x);
      SentBefore(t, tip, x, m, DisconnectEvents(t, tip, a) + ConnectEvents(t, x, a + 1, top))
  {
    assert PhaseOf(t, tip, x, m) == Connecting;
  }

  lemma BothParts(
    t: Tree, tip: Hash, x: Hash, answered: iset<nat>, from: nat, n: nat, to: nat, ok: bool,
    full: seq<Event>, sent: seq<Event>)
    requires tip in t && x in t && t[tip].height <= t[x].height && Ran(answered, from, n, to, ok)
    requires if ok then sent == full else SentBefore(t, tip, x, to - from, sent)
    ensures Followed(t, tip, x, answered, from, n, to, ok, full, sent)
  {
  }

  lemma {:induction false} CameToFork(
    t: Tree, tip: Hash, x: Hash, answered: iset<nat>, from: nat, mid: nat, to: nat, ok: bool, reached: int)
    requires tip in t && x in t && t[tip].height <= t[x].height
    requires Ran(answered, from, t[x].height - t[tip].height, mid, true)
    requires Ran(answered, mid, 1 + 2 * (t[tip].height - Fork(t, tip, x) - 1), to, ok)
    requires reached == if ok then Fork(t, tip, x) else t[tip].height - (to - mid) / 2
    ensures Followed(t, tip, x, answered, from, PhaseStart(Connecting, t, tip, x), to, ok,
              DisconnectEvents(t, tip, Fork(t, tip, x)), DisconnectEvents(t, tip, reached))
  {
    var a, n := Fork(t, tip, x), PhaseStart(Connecting, t, tip, x);
    var full, sent := DisconnectEvents(t, tip, a), DisconnectEvents(t, tip, reached);
    RanOn(answered, from, t[x].height - t[tip].height, mid, 1 + 2 * (t[tip].height - a - 1), to, ok);
    if !ok {
      StoppedDisconnecting(t, tip, x, to - from, to - mid, reached);
    }
    BothParts(t, tip, x, answered, from, n, to, ok, full, sent);
  }

  lemma CameToTop(
    t: Tree, tip: Hash, x: Hash, answered: iset<nat>, from: nat, mid: nat, to: nat, ok: bool,
    down: seq<Event>, top: int)
    requires tip in t && x in t && t[tip].height <= t[x].height
    requires Followed(t, tip, x, answered, from, PhaseStart(Connecting, t, tip, x), mid, true,
               DisconnectEvents(t, tip, Fork(t, tip, x)), down)
    requires Ran(answered, mid, t[x].height - Fork(t, tip, x), to, ok)
    requires top == if ok then t[x].height else Fork(t, tip, x) + (to - mid) - 1
    ensures Followed(t, tip, x, answered, from, ReadsToSwitch(t, tip, x), to, ok,
              ReorgEvents(t, tip, x), down + ConnectEvents(t, x, Fork(t, tip, x) + 1, top))
  {
    var a, n := Fork(t, tip, x), PhaseStart(Connecting, t, tip, x);
    var full, sent := ReorgEvents(t, tip, x), down + ConnectEvents(t, x, a + 1, top);
    assert Went(Calls, t, tip, x, answered, from, n, mid, true, DisconnectEvents(t, tip, a), down);
    assert Went(Events, t, tip, x, answered, from, n, mid, true, DisconnectEvents(t, tip, a), down);
    RanOn(answered, from, n, mid, t[x].height - a, to, ok);
    if !ok {
      StoppedConnecting(t, tip, x, to - from, to - mid, top);
    }
    BothParts(t, tip, x, answered, from, ReadsToSwitch(t, tip, x), to, ok, full, sent);
  }

  lemma StoppedBelow(
    t: Tree, tip: Hash, x: Hash, answered: iset<nat>, from: nat, to: nat, full: seq<Event>, sent: seq<Event>)
    requires tip in t && x in t && t[tip].height <= t[x].height
    requires Followed(t, tip, x, answered, from, PhaseStart(Connecting, t, tip, x), to, false, full, sent)
    ensures Followed(t, tip, x, answered, from, ReadsToSwitch(t, tip, x), to, false, ReorgEvents(t, tip, x), sent)
  {
    var n := PhaseStart(Connecting, t, tip, x);
    assert Went(Calls, t, tip, x, answered, from, n, to, false, full, sent);
    assert Went(Events, t, tip, x, answered, from, n, to, false, full, sent);
  }
}
