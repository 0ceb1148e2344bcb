/** The part of the lokid rescan client that follows the best chain: block notifications
    in, connect and disconnect notifications out (chain/lokid_client.go). */
module ChainClient {
  import opened BlockTree
  import opened ChainEvents
  import opened Optional
  import opened ReorgCalls

  datatype ClientState = ClientState(best: BlockStamp, events: seq<Event>)

  /** The block a state calls best is a block of the tree, at its true height and time. */
  predicate TrueTip(t: Tree, s: ClientState) {
    s.best.hash in t && s.best == Stamp(t, s.best.hash)
  }

  /** What reorg does when every RPC call is answered. */
  function Reorganised(t: Tree, s: ClientState, x: Hash): ClientState
    requires TrueTip(t, s) && x in t
  {
    if t[x].height < s.best.height then s
    else ClientState(Stamp(t, x), s.events + ReorgEvents(t, s.best.hash, x))
  }

  /** What one block notification does when every RPC call is answered. */
  function Handled(t: Tree, s: ClientState, x: Hash): ClientState
    requires TrueTip(t, s) && x in t
  {
    if t[x].header.prev == s.best.hash then
      ClientState(Stamp(t, x), s.events + ConnectPair(t, x, s.best.height + 1))
    else Reorganised(t, s, x)
  }

  /** What one block notification may do when RPC calls can fail: all of the above, or a
      part of the notifications only, with the best block kept. */
  predicate MayHandle(t: Tree, s: ClientState, x: Hash, s': ClientState)
    requires TrueTip(t, s) && x in t
  {
    var full := Handled(t, s, x);
    s' == full || (s'.best == s.best && s.events <= s'.events <= full.events)
  }

  /** What is left of a reorganisation when the m-th call is the first not answered: the
      best block is kept. */
  ghost predicate Interrupted(t: Tree, s: ClientState, x: Hash, m: nat, s': ClientState)
    requires TrueTip(t, s) && x in t && 1 <= m <= Reads(t, s.best.hash, x)
  {
    && s'.best == s.best && s.events <= s'.events
    && if m == 1 then s' == s else SentBefore(t, s.best.hash, x, m - 1, s'.events[|s.events|..])
  }

  lemma InterruptedIsPart(t: Tree, s: ClientState, x: Hash, m: nat, s': ClientState)
    requires TrueTip(t, s) && x in t && 1 <= m <= Reads(t, s.best.hash, x) && Interrupted(t, s, x, m, s')
    ensures s.events <= s'.events <= Reorganised(t, s, x).events
  {
    if m > 1 {
      var sent := s'.events[|s.events|..];
      SentIsPart(t, s.best.hash, x, m - 1, sent);
      assert s'.events == s.events + sent;
    }
  }

  /** A reorganisation whose call for the height of the block was answered. */
  lemma AfterHeight(
    t: Tree, s: ClientState, x: Hash, answered: iset<nat>, from: nat, to: nat, ok: bool, sent: seq<Event>, s': ClientState)
    requires TrueTip(t, s) && x in t && s.best.height <= t[x].height && from in answered
    requires Followed(t, s.best.hash, x, answered, from + 1, ReadsToSwitch(t, s.best.hash, x), to, ok,
               ReorgEvents(t, s.best.hash, x), sent)
    requires s' == ClientState(if ok then Stamp(t, x) else s.best, s.events + sent)
    ensures Ran(answered, from, Reads(t, s.best.hash, x), to, ok)
    ensures if ok then s' == Reorganised(t, s, x) else Interrupted(t, s, x, to - from, s')
  {
    var n, full := ReadsToSwitch(t, s.best.hash, x), ReorgEvents(t, s.best.hash, x);
    assert Went(Calls, t, s.best.hash, x, answered, from + 1, n, to, ok, full, sent);
    assert Went(Events, t, s.best.hash, x, answered, from + 1, n, to, ok, full, sent);
    assert s'.events[|s.events|..] == sent;
  }

  /** What one block notification does, exactly, when some calls are answered and others are
      not: `from` is the number of the next call, and `to` the one after it. */
  ghost predicate HandledAt(t: Tree, s: ClientState, x: Hash, answered: iset<nat>, from: nat, to: nat, s': ClientState)
    requires TrueTip(t, s) && x in t
  {
    var n := if t[x].header.prev == s.best.hash then 0 else Reads(t, s.best.hash, x);
    var ok := forall i :: from <= i < from + n ==> i in answered;
    && Ran(answered, from, n, to, ok)
    && if ok then s' == Handled(t, s, x) else Interrupted(t, s, x, to - from, s')
  }

  lemma ReorgIsHandled(
    t: Tree, s: ClientState, x: Hash, answered: iset<nat>, from: nat, to: nat, ok: bool, s': ClientState)
    requires TrueTip(t, s) && x in t && t[x].header.prev != s.best.hash
    requires Ran(answered, from, Reads(t, s.best.hash, x), to, ok)
    requires if ok then s' == Reorganised(t, s, x) else Interrupted(t, s, x, to - from, s')
    ensures HandledAt(t, s, x, answered, from, to, s')
  {
  }

  lemma HandledAtMay(t: Tree, s: ClientState, x: Hash, answered: iset<nat>, from: nat, to: nat, s': ClientState)
    requires TrueTip(t, s) && x in t && HandledAt(t, s, x, answered, from, to, s')
    ensures MayHandle(t, s, x, s')
    ensures (forall n: nat :: n in answered) ==> s' == Handled(t, s, x)
    ensures s'.best == s.best || s' == Handled(t, s, x)
  {
    if s' != Handled(t, s, x) {
      InterruptedIsPart(t, s, x, to - from, s');
    }
  }

  class LokidClient {
    /** Everything the backing node knows; the RPC calls are lookups in it. */
    const node: Tree
    /** The RPC calls that are answered, by their number. */
    const answered: iset<nat>
    var calls: nat
    var bestBlock: BlockStamp
    /** Everything sent to the notification queue. */
    var notifications: seq<Event>

    constructor (node: Tree, answered: iset<nat>, tip: Hash)
      requires tip in node
      ensures this.node == node && this.answered == answered
      ensures bestBlock == Stamp(node, tip) && notifications == []
    {
      this.node, this.answered, calls := node, answered, 0;
      bestBlock, notifications := Stamp(node, tip), [];
    }

    predicate Valid() reads this {
      TrueTip(node, State())
    }

    function State(): ClientState reads this {
      ClientState(bestBlock, notifications)
    }

    ghost predicate Reliable() {
      forall n: nat :: n in answered
    }

    method GetBlock(hash: Hash) returns (r: Option<MsgBlock>)
      modifies this`calls
      ensures calls == old(calls) + 1 && (r.Some? <==> hash in node && old(calls) in answered)
      ensures r.Some? ==> r.value == BlockOf(node, hash)
    {
      r := if hash in node && calls in answered then Some(BlockOf(node, hash)) else None;
      calls := calls + 1;
    }

    method GetBlockHeader(hash: Hash) returns (r: Option<Header>)
      modifies this`calls
      ensures calls == old(calls) + 1 && (r.Some? <==> hash in node && old(calls) in answered)
      ensures r.Some? ==> r.value == node[hash].header
    {
      r := if hash in node && calls in answered then Some(node[hash].header) else None;
      calls := calls + 1;
    }

    method GetBlockHeight(hash: Hash) returns (r: Option<int>)
      modifies this`calls
      ensures calls == old(calls) + 1 && (r.Some? <==> hash in node && old(calls) in answered)
      ensures r.Some? ==> r.value == node[hash].height
    {
      r := if hash in node && calls in answered then Some(node[hash].height) else None;
      calls := calls + 1;
    }

    method OnBlockDisconnected(hash: Hash, height: int, time: int)
      modifies this`notifications
      ensures notifications == old(notifications) + [Disconnected(hash, height, time)]
    {
      notifications := notifications + [Disconnected(hash, height, time)];
    }

    /** The connect notifications of filterBlock. */
    method FilterBlock(block: MsgBlock, height: int)
      modifies this`notifications
      ensures notifications == old(notifications) +
                [FilteredConnected(height, block.hash, block.header.time), Connected(block.hash, height, block.header.time)]
    {
      notifications := notifications + [FilteredConnected(height, block.hash, block.header.time)];
      notifications := notifications + [Connected(block.hash, height, block.header.time)];
    }

    /** blocks are the blocks of the branch of x from height lo up to x itself. */
    predicate IsBranch(blocks: seq<MsgBlock>, x: Hash, lo: int)
      requires x in node && 0 <= lo <= node[x].height
    {
      && |blocks| == node[x].height - lo + 1
      && forall i :: 0 <= i < |blocks| ==> blocks[i] == BlockOf(node, Ancestor(node, x, lo + i))
    }

    /** Fetches the next block further down a branch and puts it in front of the list. */
    method PushFront(blocks: seq<MsgBlock>, previousBlock: Hash, ghost x: Hash, ghost k: int)
      returns (ok: bool, longer: seq<MsgBlock>, prev: Hash)
      requires x in node && 0 <= k < node[x].height
      requires IsBranch(blocks, x, k + 1) && previousBlock == Ancestor(node, x, k)
      modifies this`calls
      ensures Ran(answered, old(calls), 1, calls, ok)
      ensures ok ==> IsBranch(longer, x, k) && prev == Ancestor(node, x, k - 1)
    {
      var block := GetBlock(previousBlock);
      if block.None? {
        return false, blocks, previousBlock;
      }
      AncestorStep(node, x, k);
      return true, [block.value] + blocks, block.value.header.prev;
    }

    /** Walks the branch of the notified block down to the height of the old tip, keeping
        its blocks, and returns the previous-block hash reached. */
    method CollectBranch(reorgBlock: MsgBlock, bestHeight: int, downTo: int)
      returns (ok: bool, blocks: seq<MsgBlock>, previousBlock: Hash)
      requires reorgBlock.hash in node && reorgBlock == BlockOf(node, reorgBlock.hash)
      requires bestHeight == node[reorgBlock.hash].height && 0 <= downTo <= bestHeight
      modifies this`calls
      ensures Ran(answered, old(calls), bestHeight - downTo, calls, ok)
      ensures ok ==> previousBlock == Ancestor(node, reorgBlock.hash, downTo - 1)
      ensures ok ==> IsBranch(blocks, reorgBlock.hash, downTo)
    {
      ghost var x := reorgBlock.hash;
      blocks, previousBlock := [reorgBlock], reorgBlock.header.prev;
      AncestorStep(node, x, bestHeight);
      var i := bestHeight - 1;
      while i >= downTo
        invariant downTo - 1 <= i <= bestHeight - 1
        invariant previousBlock == Ancestor(node, x, i)
        invariant IsBranch(blocks, x, i + 1) && Ran(answered, old(calls), bestHeight - 1 - i, calls, true)
      {
        ok, blocks, previousBlock := PushFront(blocks, previousBlock, x, i);
        if !ok {
          return;
        }
        i := i - 1;
      }
      ok := true;
    }

    /** Sends the connect notifications for the collected blocks. */
    method FastForward(blocksToNotify: seq<MsgBlock>, from: BlockStamp, ghost x: Hash)
      returns (ok: bool, currentBlock: BlockStamp)
      requires x in node && -1 <= from.height < node[x].height
      requires IsBranch(blocksToNotify, x, from.height + 1)
      modifies this`calls, this`notifications
      ensures Ran(answered, old(calls), node[x].height - from.height, calls, ok)
      ensures ok ==> currentBlock == Stamp(node, x)
      ensures notifications == old(notifications) + ConnectEvents(node, x, from.height + 1,
                if ok then node[x].height else from.height + (calls - old(calls)) - 1)
    {
      var blocks := blocksToNotify;
      ghost var a, hx := from.height, node[x].height;
      currentBlock := from;
      while blocks != []
        invariant a <= currentBlock.height <= hx
        invariant |blocks| == hx - currentBlock.height
        invariant blocks == blocksToNotify[|blocksToNotify| - |blocks|..]
        invariant currentBlock.height > a ==> currentBlock == Stamp(node, Ancestor(node, x, currentBlock.height))
        invariant notifications == old(notifications) + ConnectEvents(node, x, a + 1, currentBlock.height)
        invariant Ran(answered, old(calls), currentBlock.height - a, calls, true)
      {
        var nextBlock, nextHeight := blocks[0], currentBlock.height + 1;
        assert nextBlock == BlockOf(node, Ancestor(node, x, nextHeight));
        var nextHeader := GetBlockHeader(nextBlock.hash);
        if nextHeader.None? {
          return false, currentBlock;
        }
        FilterBlock(nextBlock, nextHeight);
        currentBlock := BlockStamp(nextBlock.hash, nextHeight, nextHeader.value.time);
        blocks := blocks[1..];
      }
      ok := true;
    }

    /** currentBlock and currentHeader stand at one height of the old branch. */
    predicate OnOldBranch(tip: Hash, currentBlock: BlockStamp, currentHeader: Header)
      requires tip in node
    {
      var k := currentBlock.height;
      && 0 <= k <= node[tip].height
      && currentHeader == node[Ancestor(node, tip, k)].header
      && currentBlock == BlockStamp(DisconnectHash(node, tip, k), k, currentHeader.time)
    }

    /** Disconnects one block of the old branch and moves down to the one before it. */
    method DisconnectOne(currentBlock: BlockStamp, currentHeader: Header, ghost tip: Hash)
      returns (ok: bool, lower: BlockStamp, lowerHeader: Header)
      requires tip in node && OnOldBranch(tip, currentBlock, currentHeader) && currentBlock.height > 0
      modifies this`calls, this`notifications
      ensures Ran(answered, old(calls), 1, calls, ok)
      ensures notifications == old(notifications) + [DisconnectEvent(node, tip, currentBlock.height)]
      ensures ok ==> OnOldBranch(tip, lower, lowerHeader) && lower.height == currentBlock.height - 1
    {
      OnBlockDisconnected(currentBlock.hash, currentBlock.height, currentBlock.time);
      AncestorStep(node, tip, currentBlock.height);
      var header := GetBlockHeader(currentHeader.prev);
      if header.None? {
        return false, currentBlock, currentHeader;
      }
      AncestorStep(node, tip, currentBlock.height - 1);
      ok, lowerHeader := true, header.value;
      lower := BlockStamp(lowerHeader.prev, currentBlock.height - 1, lowerHeader.time);
    }

    /** Both branches have been walked back to height k, and stand there. */
    predicate Rewinding(
      tip: Hash, x: Hash, k: int, currentBlock: BlockStamp, currentHeader: Header, previousBlock: Hash, blocks: seq<MsgBlock>)
      requires tip in node && x in node
    {
      && k == currentBlock.height && k <= node[x].height && OnOldBranch(tip, currentBlock, currentHeader)
      && currentHeader.prev == Ancestor(node, tip, k - 1)
      && previousBlock == Ancestor(node, x, k - 1) && IsBranch(blocks, x, k)
    }

    /** One turn of the rewinding loop: both branches move down by one block. */
    method StepBack(
      currentBlock: BlockStamp, currentHeader: Header, previousBlock: Hash, blocks: seq<MsgBlock>,
      ghost tip: Hash, ghost x: Hash, ghost k: int)
      returns (ok: bool, lower: BlockStamp, lowerHeader: Header, prev: Hash, longer: seq<MsgBlock>)
      requires tip in node && x in node && k > 0
      requires Rewinding(tip, x, k, currentBlock, currentHeader, previousBlock, blocks)
      modifies this`calls, this`notifications
      ensures Ran(answered, old(calls), 2, calls, ok)
      ensures notifications == old(notifications) + [DisconnectEvent(node, tip, k)]
      ensures ok ==> Rewinding(tip, x, k - 1, lower, lowerHeader, prev, longer)
    {
      longer, prev := blocks, previousBlock;
      ok, lower, lowerHeader := DisconnectOne(currentBlock, currentHeader, tip);
      if ok {
        AncestorStep(node, tip, k - 1);
        ok, longer, prev := PushFront(blocks, previousBlock, x, k - 1);
      }
    }

    /** The rewinding loop: from the height of the old tip down to just above the common
        ancestor, where the previous-block hashes of both branches meet. */
    method WalkBack(from: BlockStamp, fromHeader: Header, branch: seq<MsgBlock>, branchPrev: Hash, ghost tip: Hash, ghost x: Hash)
      returns (ok: bool, currentBlock: BlockStamp, currentHeader: Header, blocks: seq<MsgBlock>, ghost reached: int)
      requires tip in node && x in node && from.height == node[tip].height <= node[x].height
      requires Rewinding(tip, x, from.height, from, fromHeader, branchPrev, branch)
      modifies this`calls, this`notifications
      ensures Ran(answered, old(calls), 2 * (from.height - Fork(node, tip, x) - 1), calls, ok)
      ensures Fork(node, tip, x) < reached == from.height - (calls - old(calls) + 1) / 2
      ensures notifications == old(notifications) + DisconnectEvents(node, tip, reached)
      ensures ok ==> reached == Fork(node, tip, x) + 1
      ensures ok ==> OnOldBranch(tip, currentBlock, currentHeader) && currentBlock.height == reached
      ensures ok ==> IsBranch(blocks, x, reached)
    {
      var previousBlock := branchPrev;
      currentBlock, currentHeader, blocks, reached := from, fromHeader, branch, from.height;
      ok := true;
      while ok && previousBlock != currentHeader.prev
        invariant Fork(node, tip, x) < reached <= from.height
        invariant Ran(answered, old(calls), 2 * (from.height - reached), calls, ok)
        invariant 2 * (from.height - reached) < calls - old(calls) + 2
        invariant ok ==> Rewinding(tip, x, reached, currentBlock, currentHeader, previousBlock, blocks)
        invariant notifications == old(notifications) + DisconnectEvents(node, tip, reached)
        decreases reached, ok
      {
        ok, currentBlock, currentHeader, previousBlock, blocks :=
          StepBack(currentBlock, currentHeader, previousBlock, blocks, tip, x, reached);
        reached := reached - 1;
      }
    }

    /** Walks both branches back from the height of the old tip until their previous-block
        hashes meet, disconnecting the old branch on the way down to the common ancestor. */
    method Rewind(from: BlockStamp, branch: seq<MsgBlock>, branchPrev: Hash, ghost x: Hash)
      returns (ok: bool, currentBlock: BlockStamp, blocksToNotify: seq<MsgBlock>, ghost reached: int)
      requires from.hash in node && from == Stamp(node, from.hash)
      requires x in node && from.height <= node[x].height
      requires branchPrev == Ancestor(node, x, from.height - 1) && IsBranch(branch, x, from.height)
      modifies this`calls, this`notifications
      ensures Ran(answered, old(calls), 1 + 2 * (from.height - Fork(node, from.hash, x) - 1), calls, ok)
      ensures Fork(node, from.hash, x) <= reached <= from.height && (!ok ==> reached == from.height - (calls - old(calls)) / 2)
      ensures notifications == old(notifications) + DisconnectEvents(node, from.hash, reached)
      ensures ok ==> reached == Fork(node, from.hash, x) == currentBlock.height && IsBranch(blocksToNotify, x, reached + 1)
    {
      ghost var tip := from.hash;
      currentBlock, blocksToNotify, reached := from, branch, from.height;
      var header := GetBlockHeader(from.hash);
      if header.None? {
        return false, currentBlock, blocksToNotify, reached;
      }
      var currentHeader := header.value;
      AncestorStep(node, tip, reached);
      ok, currentBlock, currentHeader, blocksToNotify, reached := WalkBack(from, currentHeader, branch, branchPrev, tip, x);
      if ok {
        OnBlockDisconnected(currentBlock.hash, currentBlock.height, currentHeader.time);
        reached := reached - 1;
        currentBlock := currentBlock.(height := currentBlock.height - 1);
      }
    }

    /** Processes a reorganisation: rewinds both branches to their common ancestor,
        disconnects the old one and connects the new one. */
    method Reorg(currentBlock: BlockStamp, reorgBlock: MsgBlock) returns (ok: bool)
      requires Valid() && currentBlock == bestBlock
      requires reorgBlock.hash in node ==> reorgBlock == BlockOf(node, reorgBlock.hash)
      modifies this`calls, this`notifications, this`bestBlock
      ensures Valid()
      ensures Reliable() && reorgBlock.hash in node ==> ok
      ensures reorgBlock.hash !in node ==> !ok
      ensures reorgBlock.hash !in node || node[reorgBlock.hash].height < currentBlock.height ==> State() == old(State())
      ensures reorgBlock.hash in node ==>
                && Ran(answered, old(calls), Reads(node, currentBlock.hash, reorgBlock.hash), calls, ok)
                && if ok then State() == Reorganised(node, old(State()), reorgBlock.hash)
                   else Interrupted(node, old(State()), reorgBlock.hash, calls - old(calls), State())
    {
      var bestHeight := GetBlockHeight(reorgBlock.hash);
      if bestHeight.None? {
        return false;
      }
      if bestHeight.value < currentBlock.height {
        return true;
      }
      ghost var sent;
      ok, sent := SwitchBranch(currentBlock, reorgBlock, bestHeight.value);
      AfterHeight(node, old(State()), reorgBlock.hash, answered, old(calls), calls, ok, sent, State());
    }

    /** The first part of what follows the height check of reorg: collects the new branch and
        disconnects the old one. */
    method Disconnect(currentBlock: BlockStamp, reorgBlock: MsgBlock, bestHeight: int)
      returns (ok: bool, ancestor: BlockStamp, blocksToNotify: seq<MsgBlock>, ghost sent: seq<Event>)
      requires Valid() && currentBlock == bestBlock
      requires reorgBlock.hash in node && reorgBlock == BlockOf(node, reorgBlock.hash)
      requires currentBlock.height <= bestHeight == node[reorgBlock.hash].height
      modifies this`calls, this`notifications
      ensures notifications == old(notifications) + sent
      ensures var tip, x := currentBlock.hash, reorgBlock.hash;
              Followed(node, tip, x, answered, old(calls), PhaseStart(Connecting, node, tip, x), calls, ok,
                DisconnectEvents(node, tip, Fork(node, tip, x)), sent)
      ensures ok ==> ancestor.height == Fork(node, currentBlock.hash, reorgBlock.hash)
      ensures ok ==> IsBranch(blocksToNotify, reorgBlock.hash, ancestor.height + 1)
    {
      ghost var tip, x := currentBlock.hash, reorgBlock.hash;
      var previousBlock;
      ancestor, sent := currentBlock, [];
      ok, blocksToNotify, previousBlock := CollectBranch(reorgBlock, bestHeight, currentBlock.height);
      if !ok {
        StoppedCollecting(node, tip, x, answered, old(calls), calls, DisconnectEvents(node, tip, Fork(node, tip, x)));
        return;
      }
      ghost var reached, mid := 0, calls;
      ok, ancestor, blocksToNotify, reached := Rewind(currentBlock, blocksToNotify, previousBlock, x);
      CameToFork(node, tip, x, answered, old(calls), mid, calls, ok, reached);
      sent := DisconnectEvents(node, tip, reached);
    }

    /** All that follows the height check of reorg. */
    method SwitchBranch(currentBlock: BlockStamp, reorgBlock: MsgBlock, bestHeight: int)
      returns (ok: bool, ghost sent: seq<Event>)
      requires Valid() && currentBlock == bestBlock
      requires reorgBlock.hash in node && reorgBlock == BlockOf(node, reorgBlock.hash)
      requires currentBlock.height <= bestHeight == node[reorgBlock.hash].height
      modifies this`calls, this`notifications, this`bestBlock
      ensures Valid()
      ensures bestBlock == if ok then Stamp(node, reorgBlock.hash) else currentBlock
      ensures notifications == old(notifications) + sent
      ensures var tip, x := currentBlock.hash, reorgBlock.hash;
              Followed(node, tip, x, answered, old(calls), ReadsToSwitch(node, tip, x), calls, ok,
                ReorgEvents(node, tip, x), sent)
    {
      ghost var tip, x := currentBlock.hash, reorgBlock.hash;
      ghost var a := Fork(node, tip, x);
      var ancestor, blocksToNotify, newTip;
      ok, ancestor, blocksToNotify, sent := Disconnect(currentBlock, reorgBlock, bestHeight);
      if !ok {
        StoppedBelow(node, tip, x, answered, old(calls), calls, DisconnectEvents(node, tip, a), sent);
        return;
      }
      ghost var down, mid := sent, calls;
      ok, newTip := FastForward(blocksToNotify, ancestor, x);
      ghost var top := if ok then bestHeight else a + (calls - mid) - 1;
      CameToTop(node, tip, x, answered, old(calls), mid, calls, ok, down, top);
      sent := down + ConnectEvents(node, x, a + 1, top);
      assert old(notifications) + down + ConnectEvents(node, x, a + 1, top) == old(notifications) + sent;
      if ok {
        bestBlock := newTip;
      }
    }

    /** One iteration of ntfnHandler on a block the node announced. */
    method HandleBlock(newBlock: MsgBlock)
      requires Valid()
      requires newBlock.hash in node && newBlock == BlockOf(node, newBlock.hash)
      modifies this`calls, this`notifications, this`bestBlock
      ensures Valid()
      ensures MayHandle(node, old(State()), newBlock.hash, State())
      ensures HandledAt(node, old(State()), newBlock.hash, answered, old(calls), calls, State())
      ensures Reliable() ==> State() == Handled(node, old(State()), newBlock.hash)
      ensures bestBlock == old(bestBlock) || bestBlock == Stamp(node, newBlock.hash)
      ensures Reliable() ==>
        bestBlock == if node[newBlock.hash].height < old(bestBlock).height then old(bestBlock) else Stamp(node, newBlock.hash)
    {
      var best := bestBlock;
      if newBlock.header.prev == best.hash {
        assert Linked(node, newBlock.hash);
        var newBlockHeight := best.height + 1;
        FilterBlock(newBlock, newBlockHeight);
        bestBlock := BlockStamp(newBlock.hash, newBlockHeight, newBlock.header.time);
      } else {
        var ok := Reorg(best, newBlock);
        ReorgIsHandled(node, old(State()), newBlock.hash, answered, old(calls), calls, ok, State());
      }
      HandledAtMay(node, old(State()), newBlock.hash, answered, old(calls), calls, State());
    }
  }
}
