/** The request table for blocks that the node has pruned
    (chain/pruned_block_dispatcher.go): who waits for which block, what is asked of the
    peers, and who is told when a block arrives or a request is cancelled. */
module PrunedBlocks {
  import opened BlockTree
  import opened Optional

  datatype Status = Pending | Served | Dropped

  /** A block channel registered for one block. */
  datatype Waiter = Waiter(hash: Hash, chan: nat, status: Status)

  /** A cancel channel registered for a block that had been asked for before. */
  datatype Dependant = Dependant(hash: Hash, cancel: nat)

  /** The history of the table: every registration ever made, the buffer size of every block
      channel by its number, and every block sent, by channel. */
  datatype Log = Log(waiters: seq<Waiter>, dependants: seq<Dependant>, caps: seq<nat>, sent: seq<nat>)

  datatype Event =
    | Query(blocks: seq<Hash>, cancel: nat)
    | Response(hash: Hash, sane: bool)
    | Cancel(hash: Hash)

  /** The channels waiting for a block, first come first. */
  function Waiting(ws: seq<Waiter>, h: Hash): seq<nat> {
    if ws == [] then []
    else
      var before, last := Waiting(ws[..|ws| - 1], h), ws[|ws| - 1];
      if last.hash == h && last.status.Pending? then before + [last.chan] else before
  }

  /** The cancel channels that depend on a block. */
  function Depending(ds: seq<Dependant>, h: Hash): seq<nat> {
    if ds == [] then []
    else
      var before, last := Depending(ds[..|ds| - 1], h), ds[|ds| - 1];
      if last.hash == h then before + [last.cancel] else before
  }

  /** Whoever waits for the block gets this status. */
  function SettledOne(w: Waiter, h: Hash, status: Status): Waiter {
    if w.hash == h && w.status.Pending? then w.(status := status) else w
  }

  function Settled(ws: seq<Waiter>, h: Hash, status: Status): (r: seq<Waiter>)
    ensures |r| == |ws| && forall i :: 0 <= i < |ws| ==> r[i] == SettledOne(ws[i], h, status)
  {
    if ws == [] then [] else Settled(ws[..|ws| - 1], h, status) + [SettledOne(ws[|ws| - 1], h, status)]
  }

  function DropDependants(ds: seq<Dependant>, h: Hash): seq<Dependant> {
    if ds == [] then []
    else
      var before, last := DropDependants(ds[..|ds| - 1], h), ds[|ds| - 1];
      if last.hash == h then before else before + [last]
  }

  /** One block of a query registers its channel; if the block has been asked for already,
      the query depends on that. */
  function Registered(l: Log, block: Hash, chan: nat, cancel: nat): Log {
    l.(waiters := l.waiters + [Waiter(block, chan, Pending)],
       dependants := if Waiting(l.waiters, block) == [] then l.dependants else l.dependants + [Dependant(block, cancel)])
  }

  /** The first n blocks of a query register. */
  function AllRegistered(l: Log, blocks: seq<Hash>, n: nat, chan: nat, cancel: nat): (r: Log)
    requires n <= |blocks|
    ensures r.caps == l.caps && r.sent == l.sent
  {
    if n == 0 then l else Registered(AllRegistered(l, blocks, n - 1, chan, cancel), blocks[n - 1], chan, cancel)
  }

  function Step(l: Log, e: Event): Log {
    match e
    case Query(blocks, cancel) => AllRegistered(l.(caps := l.caps + [|blocks|]), blocks, |blocks|, |l.caps|, cancel)
    case Response(h, sane) =>
      if sane then l.(waiters := Settled(l.waiters, h, Served), sent := l.sent + Waiting(l.waiters, h)) else l
    case Cancel(h) =>
      l.(waiters := Settled(l.waiters, h, Dropped), dependants := DropDependants(l.dependants, h))
  }

  function Run(events: seq<Event>): Log {
    if events == [] then Log([], [], [], [])
    else Step(Run(events[..|events| - 1]), events[|events| - 1])
  }

  /** Those of the first n blocks of a query that nobody had asked for when their turn
      came. */
  function NewHashes(queried: set<Hash>, blocks: seq<Hash>, n: nat): seq<Hash>
    requires n <= |blocks|
  {
    if n == 0 then []
    else
      var last := blocks[n - 1];
      NewHashes(queried, blocks, n - 1) + if last in queried || last in HashSet(blocks[..n - 1]) then [] else [last]
  }

  function HashSet(blocks: seq<Hash>): set<Hash> {
    set h | h in blocks
  }

  function Flatten(reqs: seq<seq<Hash>>): seq<Hash> {
    if reqs == [] then [] else Flatten(reqs[..|reqs| - 1]) + reqs[|reqs| - 1]
  }

  /** Requests of 1 to max hashes, of which all but the last are full. */
  predicate Packed(reqs: seq<seq<Hash>>, max: int) {
    max >= 1 ==> forall k :: 0 <= k < |reqs| ==> 1 <= |reqs[k]| <= max && (k < |reqs| - 1 ==> |reqs[k]| == max)
  }

  /** The hashes asked for so far: those in requests, and those in the open getdata. */
  function Asked(reqs: seq<seq<Hash>>, getData: Option<seq<Hash>>): seq<Hash> {
    Flatten(reqs) + if getData.Some? then getData.value else []
  }

  /** All requests are full, and the open getdata is not. */
  predicate Packing(reqs: seq<seq<Hash>>, getData: Option<seq<Hash>>, max: int) {
    max >= 1 ==>
    && (forall k :: 0 <= k < |reqs| ==> |reqs[k]| == max)
    && (getData.Some? ==> |getData.value| < max)
  }

  /** The table holds, for every block someone waits for, who waits, in order. */
  ghost predicate TableOf(queried: map<Hash, seq<nat>>, ws: seq<Waiter>) {
    && (forall h :: h in queried <==> Waiting(ws, h) != [])
    && (forall h :: h in queried ==> queried[h] == Waiting(ws, h))
  }

  predicate NobodyWaits(ws: seq<Waiter>, hs: seq<Hash>) {
    forall h :: h in hs ==> Waiting(ws, h) == []
  }

  ghost predicate CancelsOf(cancels: map<Hash, seq<nat>>, ds: seq<Dependant>) {
    && (forall h :: h in cancels <==> Depending(ds, h) != [])
    && (forall h :: h in cancels ==> cancels[h] == Depending(ds, h))
  }

  /** A list in a map of lists; a missing one is empty. */
  function At(m: map<Hash, seq<nat>>, h: Hash): seq<nat> {
    if h in m then m[h] else []
  }

  function Appended(m: map<Hash, seq<nat>>, h: Hash, chan: nat): map<Hash, seq<nat>> {
    m[h := At(m, h) + [chan]]
  }

  lemma OneMoreRegistered(
    l: Log, queried: map<Hash, seq<nat>>, cancels: map<Hash, seq<nat>>, block: Hash, chan: nat, cancel: nat)
    requires TableOf(queried, l.waiters) && CancelsOf(cancels, l.dependants)
    ensures TableOf(Appended(queried, block, chan), Registered(l, block, chan, cancel).waiters)
    ensures CancelsOf(if block in queried then Appended(cancels, block, cancel) else cancels,
                      Registered(l, block, chan, cancel).dependants)
  {
    OneMoreWaiting(queried, l.waiters, block, chan);
    if block in queried {
      OneMoreDepending(cancels, l.dependants, block, cancel);
    }
  }

  lemma OneMoreWaiting(queried: map<Hash, seq<nat>>, ws: seq<Waiter>, block: Hash, chan: nat)
    requires TableOf(queried, ws)
    ensures TableOf(Appended(queried, block, chan), ws + [Waiter(block, chan, Pending)])
  {
    assert (ws + [Waiter(block, chan, Pending)])[..|ws|] == ws;
  }

  lemma OneMoreDepending(cancels: map<Hash, seq<nat>>, ds: seq<Dependant>, block: Hash, cancel: nat)
    requires CancelsOf(cancels, ds)
    ensures CancelsOf(Appended(cancels, block, cancel), ds + [Dependant(block, cancel)])
  {
    assert (ds + [Dependant(block, cancel)])[..|ds|] == ds;
  }

  class PrunedBlockDispatcher {
    /** With a limit below 1 all hashes of a query go into one request. */
    const maxRequestInvs: int
    var blocksQueried: map<Hash, seq<nat>>
    var blockQueryCancel: map<Hash, seq<nat>>
    /** The number of block channels made so far. */
    var chans: nat
    ghost var log: Log

    constructor (maxRequestInvs: int)
      ensures Valid() && log == Run([])
    {
      this.maxRequestInvs, blocksQueried, blockQueryCancel, chans := maxRequestInvs, map[], map[], 0;
      log := Run([]);
    }

    ghost predicate Valid() reads this {
      && chans == |log.caps|
      && TableOf(blocksQueried, log.waiters) && CancelsOf(blockQueryCancel, log.dependants)
    }

    /** Registers one block of a query. */
    method Register(block: Hash, blockChan: nat, cancel: nat) returns (isNew: bool)
      requires Valid()
      modifies this`blocksQueried, this`blockQueryCancel, this`log
      ensures Valid() && log == Registered(old(log), block, blockChan, cancel)
      ensures isNew == (block !in old(blocksQueried)) && blocksQueried.Keys == old(blocksQueried.Keys) + {block}
    {
      OneMoreRegistered(log, blocksQueried, blockQueryCancel, block, blockChan, cancel);
      log := Registered(log, block, blockChan, cancel);
      isNew := block !in blocksQueried;
      if !isNew {
        blockQueryCancel := Appended(blockQueryCancel, block, cancel);
      }
      blocksQueried := Appended(blocksQueried, block, blockChan);
    }

    /** Adds a new block to the open getdata, and queues the getdata as a request when it is
        full, or has something in it and the query is at its end. */
    method AddInv(reqs: seq<seq<Hash>>, getData: Option<seq<Hash>>, block: Hash, isNew: bool, atEnd: bool)
      returns (reqs': seq<seq<Hash>>, getData': Option<seq<Hash>>)
      requires Packing(reqs, getData, maxRequestInvs)
      ensures Asked(reqs', getData') == Asked(reqs, getData) + if isNew then [block] else []
      ensures Packed(reqs', maxRequestInvs) && (!atEnd ==> Packing(reqs', getData', maxRequestInvs))
      ensures atEnd ==> Asked(reqs', getData') == Flatten(reqs')
    {
      var invs := if getData.None? then [] else getData.value;
      if isNew {
        invs := invs + [block];
      }
      if (|invs| > 0 && atEnd) || |invs| == maxRequestInvs {
        reqs', getData' := reqs + [invs], None;
        assert reqs'[..|reqs|] == reqs;
      } else {
        reqs', getData' := reqs, Some(invs);
      }
    }

    /** Where a query stands after its first n blocks: l is the history and `queried` what
        had been asked for when it began. */
    ghost predicate Building(
      l: Log, queried: set<Hash>, blocks: seq<Hash>, n: nat, blockChan: nat, cancelChan: nat,
      reqs: seq<seq<Hash>>, getData: Option<seq<Hash>>)
      requires n <= |blocks|
      reads this
    {
      && Valid() && log == AllRegistered(l, blocks, n, blockChan, cancelChan)
      && blocksQueried.Keys == queried + HashSet(blocks[..n])
      && Packed(reqs, maxRequestInvs) && (n < |blocks| ==> Packing(reqs, getData, maxRequestInvs))
      && Asked(reqs, getData) == NewHashes(queried, blocks, n)
      && (n == |blocks| ==> Asked(reqs, getData) == Flatten(reqs))
    }

    /** One block of a query. */
    method QueueBlock(
      blocks: seq<Hash>, i: nat, blockChan: nat, cancelChan: nat, reqs: seq<seq<Hash>>, getData: Option<seq<Hash>>,
      ghost l: Log, ghost queried: set<Hash>)
      returns (reqs': seq<seq<Hash>>, getData': Option<seq<Hash>>)
      requires i < |blocks| && Building(l, queried, blocks, i, blockChan, cancelChan, reqs, getData)
      modifies this`blocksQueried, this`blockQueryCancel, this`log
      ensures Building(l, queried, blocks, i + 1, blockChan, cancelChan, reqs', getData')
    {
      HashSetSnoc(blocks, i);
      var isNew := Register(blocks[i], blockChan, cancelChan);
      reqs', getData' := AddInv(reqs, getData, blocks[i], isNew, i == |blocks| - 1);
    }

    /** Builds the requests for a query and registers its channel for every block. Each
        block that is new at its turn lands in exactly one request, in order. */
    method NewRequest(blocks: seq<Hash>, cancelChan: nat) returns (reqs: seq<seq<Hash>>, blockChan: nat)
      requires Valid()
      modifies this
      ensures Valid() && log == Step(old(log), Query(blocks, cancelChan))
      ensures blockChan == old(chans) && log.caps[blockChan] == |blocks|
      ensures Flatten(reqs) == NewHashes(old(blocksQueried.Keys), blocks, |blocks|)
      ensures Packed(reqs, maxRequestInvs)
    {
      blockChan := chans;
      chans := chans + 1;
      log := log.(caps := log.caps + [|blocks|]);
      ghost var l, queried := log, blocksQueried.Keys;
      reqs := [];
      var getData: Option<seq<Hash>> := None;
      for i := 0 to |blocks|
        invariant Building(l, queried, blocks, i, blockChan, cancelChan, reqs, getData)
      {
        reqs, getData := QueueBlock(blocks, i, blockChan, cancelChan, reqs, getData, l, queried);
      }
    }

    /** Handles a block received for a request, and hands the block to everyone who waits
        for it. `sane` is the outcome of the block's validation. */
    method HandleResp(invs: seq<Hash>, blockHash: Hash, sane: bool)
      returns (progressed: bool, finished: bool, sends: seq<nat>)
      requires Valid()
      modifies this`blocksQueried, this`log
      ensures Valid() && log == Step(old(log), Response(blockHash, sane))
      ensures log.sent == old(log).sent + sends
      ensures sends == if sane then Waiting(old(log).waiters, blockHash) else []
      ensures progressed == (sane && Waiting(old(log).waiters, blockHash) != [])
      ensures finished == (progressed && NobodyWaits(log.waiters, invs))
    {
      ghost var ws := log.waiters;
      log := Step(log, Response(blockHash, sane));
      TableSettled(blocksQueried, ws, blockHash, Served);
      if blockHash !in blocksQueried {
        return false, false, [];
      }
      sends := blocksQueried[blockHash];
      if !sane {
        return false, false, [];
      }
      blocksQueried := blocksQueried - {blockHash};
      progressed := true;
      finished := NoneQueried(invs);
    }

    method NoneQueried(invs: seq<Hash>) returns (finished: bool)
      requires TableOf(blocksQueried, log.waiters)
      ensures finished == NobodyWaits(log.waiters, invs)
    {
      for i := 0 to |invs|
        invariant forall k :: 0 <= k < i ==> invs[k] !in blocksQueried
      {
        if invs[i] in blocksQueried {
          assert invs[i] in invs && Waiting(log.waiters, invs[i]) != [];
          return false;
        }
      }
      finished := true;
    }

    /** Forgets a block request, so that the block can be asked for again. Returns the
        cancel channels that are told about it. */
    method CancelRequest(blockHash: Hash) returns (cancels: seq<nat>)
      requires Valid()
      modifies this
      ensures Valid() && log == Step(old(log), Cancel(blockHash))
      ensures cancels == Depending(old(log).dependants, blockHash)
    {
      cancels := At(blockQueryCancel, blockHash);
      TableSettled(blocksQueried, log.waiters, blockHash, Dropped);
      CancelsDropped(blockQueryCancel, log.dependants, blockHash);
      blocksQueried := blocksQueried - {blockHash};
      blockQueryCancel := blockQueryCancel - {blockHash};
      log := Step(log, Cancel(blockHash));
    }
  }

  lemma HashSetSnoc(blocks: seq<Hash>, i: nat)
    requires i < |blocks|
    ensures HashSet(blocks[..i + 1]) == HashSet(blocks[..i]) + {blocks[i]}
  {
    assert blocks[..i + 1] == blocks[..i] + [blocks[i]];
  }

  lemma {:induction false} SettledWaiting(ws: seq<Waiter>, h: Hash, status: Status)
    requires status != Pending
    ensures Waiting(Settled(ws, h, status), h) == []
    ensures forall x :: x != h ==> Waiting(Settled(ws, h, status), x) == Waiting(ws, x)
    ensures Waiting(ws, h) == [] ==> Settled(ws, h, status) == ws
  {
    if ws != [] {
      var n := |ws| - 1;
      SettledWaiting(ws[..n], h, status);
      assert Settled(ws, h, status)[..n] == Settled(ws[..n], h, status);
      assert ws == ws[..n] + [ws[n]];
    }
  }

  lemma {:induction false} DroppedDepending(ds: seq<Dependant>, h: Hash)
    ensures Depending(DropDependants(ds, h), h) == []
    ensures forall x :: x != h ==> Depending(DropDependants(ds, h), x) == Depending(ds, x)
  {
    if ds != [] {
      DroppedDepending(ds[..|ds| - 1], h);
    }
  }

  lemma {:induction false} TableSettled(queried: map<Hash, seq<nat>>, ws: seq<Waiter>, h: Hash, status: Status)
    requires TableOf(queried, ws) && status != Pending
    ensures TableOf(queried - {h}, Settled(ws, h, status))
    ensures h !in queried ==> Settled(ws, h, status) == ws
  {
    SettledWaiting(ws, h, status);
  }

  lemma {:induction false} CancelsDropped(cancels: map<Hash, seq<nat>>, ds: seq<Dependant>, h: Hash)
    requires CancelsOf(cancels, ds)
    ensures CancelsOf(cancels - {h}, DropDependants(ds, h))
  {
    DroppedDepending(ds, h);
  }
}
