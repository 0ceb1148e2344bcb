/** The address manager's record of recent block hashes and of the block it is synced to
    (waddrmgr/db.go, waddrmgr/sync.go). */
module SyncStore {
  import opened BlockTree
  import opened Optional

  /** The number of block hashes kept in order to recover from a reorganisation. */
  const MaxReorgDepth: int := 10000

  /** The stored hashes by height, the stored sync stamp, and the manager's copy of it. */
  datatype SyncState = SyncState(
    hashes: map<int, Hash>, stored: BlockStamp, current: BlockStamp, birthdaySet: bool)

  /** Whether a stamp of this height may be stored: once the birthday block is known, the
      block before it must be. */
  predicate CanPut(s: SyncState, height: int) {
    height > 0 && s.birthdaySet ==> height - 1 in s.hashes
  }

  /** The hashes after storing one: the entry that falls out of the window is removed. */
  function WithHash(hashes: map<int, Hash>, bs: BlockStamp): map<int, Hash> {
    var stale := bs.height - MaxReorgDepth;
    if stale > 0 then hashes[bs.height := bs.hash] - {stale} else hashes[bs.height := bs.hash]
  }

  /** The state after the manager is asked to be in sync with a stamp. */
  function Synced(s: SyncState, bs: BlockStamp): SyncState {
    if CanPut(s, bs.height) then SyncState(WithHash(s.hashes, bs), bs, bs, s.birthdaySet) else s
  }

  class Manager {
    /** The sync bucket of the database. */
    var hashes: map<int, Hash>
    var stored: BlockStamp
    var birthdayBlock: Option<BlockStamp>
    /** The manager's own memory. */
    var startBlock: BlockStamp
    var syncedTo: BlockStamp

    constructor (hashes: map<int, Hash>, startBlock: BlockStamp, syncedTo: BlockStamp, birthdayBlock: Option<BlockStamp>)
      ensures State() == SyncState(hashes, syncedTo, syncedTo, birthdayBlock.Some?)
      ensures this.startBlock == startBlock
    {
      this.hashes, this.stored, this.syncedTo := hashes, syncedTo, syncedTo;
      this.startBlock, this.birthdayBlock := startBlock, birthdayBlock;
    }

    function State(): SyncState reads this {
      SyncState(hashes, stored, syncedTo, birthdayBlock.Some?)
    }

    /** The stored hash at a height, if there is one. */
    function BlockHash(height: int): (r: Option<Hash>) reads this
      ensures r.Some? <==> height in hashes
      ensures r.Some? ==> r.value == hashes[height]
    {
      if height in hashes then Some(hashes[height]) else None
    }

    /** Stores the stamp, or fails leaving the bucket alone. */
    method PutSyncedTo(bs: BlockStamp) returns (ok: bool)
      modifies this`hashes, this`stored
      ensures ok == CanPut(old(State()), bs.height)
      ensures State() == if ok then Synced(old(State()), bs).(current := syncedTo) else old(State())
      ensures ok <==> bs.height <= 0 || birthdayBlock.None? || bs.height - 1 in old(hashes)
      ensures ok ==> stored == bs && bs.height in hashes && hashes[bs.height] == bs.hash
      ensures ok ==> forall k :: k != bs.height ==>
        if k > 0 && k == bs.height - 10000 then k !in hashes
        else (k in hashes <==> k in old(hashes)) && (k in hashes ==> hashes[k] == old(hashes)[k])
    {
      if bs.height > 0 && birthdayBlock.Some? && BlockHash(bs.height - 1).None? {
        return false;
      }
      hashes := hashes[bs.height := bs.hash];
      var staleHeight := bs.height - MaxReorgDepth;
      if staleHeight > 0 {
        hashes := hashes - {staleHeight};
      }
      stored := bs;
      ok := true;
    }

    /** Marks the manager as in sync with the stamp, or with its start block. */
    method SetSyncedTo(bs: Option<BlockStamp>) returns (ok: bool)
      modifies this`hashes, this`stored, this`syncedTo
      ensures
        var target := if bs.None? then startBlock else bs.value;
        ok == CanPut(old(State()), target.height) && State() == Synced(old(State()), target)
    {
      var target := if bs.None? then startBlock else bs.value;
      ok := PutSyncedTo(target);
      if ok {
        syncedTo := target;
      }
    }
  }

  /** Apart from height 0, the stored heights are exactly lo to hi, and not too many. */
  ghost predicate Interval(hashes: map<int, Hash>, lo: int, hi: int) {
    && 1 <= lo <= hi < lo + MaxReorgDepth
    && forall k :: k != 0 ==> (k in hashes <==> lo <= k <= hi)
  }

  /** An interval of stored heights that holds the synced height with the synced hash. */
  ghost predicate InWindow(s: SyncState, lo: int, hi: int) {
    && Interval(s.hashes, lo, hi)
    && lo <= s.current.height <= hi
    && s.hashes[s.current.height] == s.current.hash
    && s.stored == s.current
  }

  /** The interval after a stamp at height k is stored next to or inside lo to hi. */
  function Slide(lo: int, hi: int, k: int): (int, int) {
    var hi' := if k > hi then k else hi;
    (if hi' - lo >= MaxReorgDepth then hi' - MaxReorgDepth + 1 else lo, hi')
  }

  lemma SyncedKeepsWindow(s: SyncState, lo: int, hi: int, bs: BlockStamp)
    requires s.birthdaySet && InWindow(s, lo, hi) && 2 <= bs.height
    ensures CanPut(s, bs.height) <==> lo < bs.height <= hi + 1
    ensures CanPut(s, bs.height) ==> InWindow(Synced(s, bs), Slide(lo, hi, bs.height).0, Slide(lo, hi, bs.height).1)
  {
  }

  /** Storing a list of stamps one after the other; one that is refused changes nothing. */
  function SyncAll(s: SyncState, stamps: seq<BlockStamp>): SyncState {
    if stamps == [] then s
    else Synced(SyncAll(s, stamps[..|stamps| - 1]), stamps[|stamps| - 1])
  }

  /** From one stored height besides genesis, any run of stamps at heights of at least 2
      keeps the stored heights one interval of at most MaxReorgDepth entries that holds
      the synced height, whose stored hash is the synced hash. */
  lemma {:induction false} RunKeepsWindow(s: SyncState, start: int, stamps: seq<BlockStamp>) returns (lo: int, hi: int)
    requires s.birthdaySet && InWindow(s, start, start)
    requires forall i :: 0 <= i < |stamps| ==> stamps[i].height >= 2
    ensures SyncAll(s, stamps).birthdaySet
    ensures InWindow(SyncAll(s, stamps), lo, hi) && start <= hi
    decreases |stamps|
  {
    if stamps == [] {
      return start, start;
    }
    var last := stamps[|stamps| - 1];
    lo, hi := RunKeepsWindow(s, start, stamps[..|stamps| - 1]);
    var before := SyncAll(s, stamps[..|stamps| - 1]);
    SyncedKeepsWindow(before, lo, hi, last);
    if CanPut(before, last.height) {
      var next := Slide(lo, hi, last.height);
      lo, hi := next.0, next.1;
    }
  }

  /** Exactly when a stamp that is accepted leaves such a window behind. Height 1 is
      accepted next to genesis, wherever the window is, and height 0 or below always. */
  lemma WindowKeptExactly(s: SyncState, lo: int, hi: int, bs: BlockStamp)
    requires s.birthdaySet && InWindow(s, lo, hi) && CanPut(s, bs.height)
    ensures (exists lo', hi' :: InWindow(Synced(s, bs), lo', hi')) <==>
            bs.height >= 2 || (bs.height == 1 && (lo == 1 || (lo == 2 && hi <= MaxReorgDepth)))
  {
    var s' := Synced(s, bs);
    if bs.height >= 2 {
      SyncedKeepsWindow(s, lo, hi, bs);
    } else if bs.height == 1 && lo <= 2 && hi <= MaxReorgDepth {
      assert InWindow(s', 1, hi);
    } else {
      assert bs.height == 1 ==> 1 in s'.hashes && hi in s'.hashes && (2 in s'.hashes ==> lo == 2);
    }
  }
}
