/** How the wallet moves its synced block along with the chain client's notifications
    (wallet/chainntfns.go). */
module WalletSync {
  import opened BlockTree
  import opened ChainEvents
  import opened Optional
  import opened SyncStore

  /** A notification as it reaches the wallet: whether the wallet counts as synced at that
      moment, the time of the parent header, should the client be able to look it up, and
      whether the transaction store can be rolled back. */
  datatype Delivery = Delivery(event: Event, chainSynced: bool, parentTime: Option<int>, txRollback: bool)

  /** The stamp a matching disconnect rolls back to: its hash is never filled in. */
  function RollbackStamp(height: int, time: int): BlockStamp {
    BlockStamp(ZeroHash, height - 1, time)
  }

  /** Whether a disconnect takes effect: the wallet is synced, it stores exactly this hash
      at this height, and it stores a hash below it whose header can be fetched. */
  predicate Rolls(s: SyncState, d: Delivery)
    requires d.event.Disconnected?
  {
    var height := d.event.height;
    && d.chainSynced && d.parentTime.Some?
    && height <= s.current.height
    && height in s.hashes && s.hashes[height] == d.event.hash
    && height - 1 in s.hashes
  }

  /** The state after one notification. Failures roll the database transaction back; if the
      transaction store is what fails, the manager's copy of the stamp has moved already. */
  function Applied(s: SyncState, d: Delivery): SyncState {
    match d.event
    case FilteredConnected(_, _, _) => s
    case Connected(hash, height, time) => Synced(s, BlockStamp(hash, height, time))
    case Disconnected(_, height, _) =>
      if !Rolls(s, d) || !CanPut(s, height - 1) then s
      else
        var back := RollbackStamp(height, d.parentTime.value);
        if d.txRollback then Synced(s, back) else s.(current := back)
  }

  class Wallet {
    const manager: Manager

    constructor (manager: Manager)
      ensures this.manager == manager
    {
      this.manager := manager;
    }

    method ConnectBlock(hash: Hash, height: int, time: int) returns (ok: bool)
      modifies manager
      ensures ok == CanPut(old(manager.State()), height)
      ensures manager.State() == Synced(old(manager.State()), BlockStamp(hash, height, time))
    {
      ok := manager.SetSyncedTo(Some(BlockStamp(hash, height, time)));
    }

    /** A failure undoes what the database transaction did, not what the manager remembers. */
    method DisconnectBlock(d: Delivery) returns (ok: bool)
      requires d.event.Disconnected?
      modifies manager
      ensures manager.State() == Applied(old(manager.State()), d)
      ensures !ok ==> manager.hashes == old(manager.hashes) && manager.stored == old(manager.stored)
      ensures ok && Rolls(old(manager.State()), d) ==>
        manager.stored == manager.syncedTo == BlockStamp(ZeroHash, d.event.height - 1, d.parentTime.value)
      ensures Rolls(old(manager.State()), d) && CanPut(old(manager.State()), d.event.height - 1) ==>
        manager.syncedTo == BlockStamp(ZeroHash, d.event.height - 1, d.parentTime.value)
      ensures Rolls(old(manager.State()), d) ==> (ok <==> CanPut(old(manager.State()), d.event.height - 1) && d.txRollback)
      ensures Rolls(old(manager.State()), d) <==>
        && d.chainSynced && d.event.height <= old(manager.syncedTo.height) && d.parentTime.Some?
        && d.event.height - 1 in old(manager.hashes) && d.event.height in old(manager.hashes)
        && old(manager.hashes)[d.event.height] == d.event.hash
      ensures !Rolls(old(manager.State()), d) ==> manager.State() == old(manager.State())
    {
      if !d.chainSynced {
        return true;
      }
      var height := d.event.height;
      if height <= manager.syncedTo.height {
        var hash := manager.BlockHash(height);
        if hash.None? {
          return false;
        }
        if hash.value == d.event.hash {
          var below := manager.BlockHash(height - 1);
          if below.None? || d.parentTime.None? {
            return false;
          }
          var hashes, stored := manager.hashes, manager.stored;
          ok := manager.SetSyncedTo(Some(RollbackStamp(height, d.parentTime.value)));
          if ok && !d.txRollback {
            ok, manager.hashes, manager.stored := false, hashes, stored;
          }
          return;
        }
      }
      ok := true;
    }

    method HandleNotification(d: Delivery)
      modifies manager
      ensures manager.State() == Applied(old(manager.State()), d)
    {
      match d.event
      case FilteredConnected(_, _, _) =>
      case Connected(hash, height, time) =>
        var ok := ConnectBlock(hash, height, time);
      case Disconnected(_, _, _) =>
        var ok := DisconnectBlock(d);
    }
  }

  /** The state after a list of notifications, in order. */
  function AppliedAll(s: SyncState, ds: seq<Delivery>): SyncState {
    if ds == [] then s else Applied(AppliedAll(s, ds[..|ds| - 1]), ds[|ds| - 1])
  }

  /** The notifications delivered, without the circumstances of their delivery. */
  function Events(ds: seq<Delivery>): seq<Event> {
    seq(|ds|, i requires 0 <= i < |ds| => ds[i].event)
  }

  lemma {:induction false} AppliedConcat(s: SyncState, u: seq<Delivery>, v: seq<Delivery>)
    ensures AppliedAll(s, u + v) == AppliedAll(AppliedAll(s, u), v)
    decreases |v|
  {
    if v == [] {
      assert u + v == u;
    } else {
      assert (u + v)[..|u + v| - 1] == u + v[..|v| - 1];
      AppliedConcat(s, u, v[..|v| - 1]);
    }
  }
}
