/** Concrete inputs on which the code does less than it says, one for each of the properties
    whose exact conditions the other modules state. */
module Counterexamples {
  import opened BlockTree
  import opened ChainEvents
  import opened Optional
  import opened SyncStore
  import opened WalletSync
  import opened ReorgDelivery
  import opened ChainFollowing
  import FailedReorgs
  import opened Lookahead
  import PrunedBlocks
  import PrunedBlockRuns
  import Rows
  import RowStore
  import RowSecrets
  import Allocator
  import AllocatorRuns
  import ElectrumGap
  import Recovery
  import KeyTree
  import AddressIndexes
  import RestoredAccounts
  import Rescan

  /** Genesis 1 with two branches on block 2 above it: 3, 4, 8 and 5, 6, 7. */
  function Blocks(): (t: Tree) {
    var t := map[1 := Entry(Header(0, 10), 0), 2 := Entry(Header(1, 11), 1),
                 3 := Entry(Header(2, 12), 2), 4 := Entry(Header(3, 13), 3),
                 5 := Entry(Header(2, 14), 2), 6 := Entry(Header(5, 15), 3), 7 := Entry(Header(6, 16), 4),
                 8 := Entry(Header(4, 17), 4)];
    assert forall h :: h in t ==> Linked(t, h);
    t
  }

  lemma OldBranch()
    ensures Ancestor(Blocks(), 4, 3) == 4 && Ancestor(Blocks(), 4, 2) == 3 && Ancestor(Blocks(), 4, 1) == 2
    ensures Ancestor(Blocks(), 4, 0) == 1 && Ancestor(Blocks(), 4, -1) == 0
    ensures Ancestor(Blocks(), 3, 2) == 3 && Ancestor(Blocks(), 3, 1) == 2 && Ancestor(Blocks(), 3, 0) == 1
  {
    var t := Blocks();
    AncestorStep(t, 4, 3);
    AncestorStep(t, 4, 2);
    AncestorStep(t, 4, 1);
    AncestorStep(t, 3, 2);
    AncestorStep(t, 3, 1);
  }

  lemma NewBranch()
    ensures Ancestor(Blocks(), 7, 4) == 7 && Ancestor(Blocks(), 7, 3) == 6 && Ancestor(Blocks(), 7, 2) == 5
    ensures Ancestor(Blocks(), 7, 1) == 2
    ensures Ancestor(Blocks(), 6, 3) == 6 && Ancestor(Blocks(), 6, 2) == 5 && Ancestor(Blocks(), 6, 1) == 2
    ensures Ancestor(Blocks(), 5, 2) == 5 && Ancestor(Blocks(), 5, 1) == 2
  {
    var t := Blocks();
    AncestorStep(t, 7, 4);
    AncestorStep(t, 7, 3);
    AncestorStep(t, 7, 2);
    AncestorStep(t, 6, 3);
    AncestorStep(t, 6, 2);
    AncestorStep(t, 5, 2);
  }

  /** From tip 4 to block 6 two blocks are disconnected; the second notification, for block
      3 at height 2, carries the hash of block 2. */
  lemma LaterDisconnectNamesParent()
    ensures
      var t := Blocks();
      && |ReorgEvents(t, 4, 6)| > 1
      && ReorgEvents(t, 4, 6)[1] == Disconnected(2, 2, 12) && Ancestor(t, 4, 2) == 3
  {
    var t := Blocks();
    OldBranch();
    NewBranch();
    assert Fork(t, 4, 6) == 1;
    ReorgDisconnects(t, 4, 6, 1);
    DisconnectAt(t, 4, 1, 1);
  }

  /** Notifications delivered to a wallet that is synced, when nothing fails. */
  function Delivered(events: seq<Event>): (ds: seq<Delivery>)
    ensures Events(ds) == events
  {
    seq(|events|, i requires 0 <= i < |events| => Delivery(events[i], true, Some(11), true))
  }

  function SyncedToThree(): SyncState {
    SyncState(map[0 := 1, 1 := 2, 2 := 3], Stamp(Blocks(), 3), Stamp(Blocks(), 3), true)
  }

  lemma ThreeAndFive()
    ensures InSync(Blocks(), SyncedToThree(), 3, 1) && Fork(Blocks(), 3, 5) == 1
    ensures Blocks()[3].height == 2 && Blocks()[5].height == 2
  {
    OldBranch();
    NewBranch();
    assert Fork(Blocks(), 3, 5) == 1;
  }

  /** A wallet in sync with block 3, and the reorganisation to block 5: the hash of their
      common ancestor 2 is stored before it and blank after it. */
  lemma ForkHashIsBlanked()
    ensures
      var t, s := Blocks(), SyncedToThree();
      && InSync(t, s, 3, 1) && Fork(t, 3, 5) == 1
      && 1 in AppliedAll(s, Delivered(ReorgEvents(t, 3, 5))).hashes
      && AppliedAll(s, Delivered(ReorgEvents(t, 3, 5))).hashes[1] == ZeroHash
  {
    var t, s := Blocks(), SyncedToThree();
    ThreeAndFive();
    var ds := Delivered(ReorgEvents(t, 3, 5));
    ForkStored(t, s, 3, 5, 1, ds);
    ReorgDisconnects(t, 3, 5, 0);
    assert ds[0] == Delivery(ReorgEvents(t, 3, 5)[0], true, Some(11), true);
    ForkHash(t, s, 3, 5, 1, ds);
  }

  /** A wallet in sync with block 4 that stores no hash below it but genesis. */
  function ShortWindow(): SyncState {
    SyncState(map[0 := 1, 3 := 4], Stamp(Blocks(), 4), Stamp(Blocks(), 4), true)
  }

  /** It does not follow the reorganisation to block 6, which is as high as its own tip, nor
      the one to block 7: there it keeps the hash of block 4 below the new tip. */
  lemma ForkBelowWindowIsNotFollowed()
    ensures
      var t, s := Blocks(), ShortWindow();
      && InSync(t, s, 4, 3) && Fork(t, 4, 6) == 1 == Fork(t, 4, 7)
      && !Followed(t, AppliedAll(s, Delivered(ReorgEvents(t, 4, 6))), 6, 1)
      && !Followed(t, AppliedAll(s, Delivered(ReorgEvents(t, 4, 7))), 7, 1)
  {
    var t, s := Blocks(), ShortWindow();
    OldBranch();
    NewBranch();
    assert Fork(t, 4, 6) == 1 && Fork(t, 4, 7) == 1;
    ReorgFollowed(t, s, 4, 6, 3, Delivered(ReorgEvents(t, 4, 6)));
    ReorgFollowed(t, s, 4, 7, 3, Delivered(ReorgEvents(t, 4, 7)));
  }

  function SyncedToFour(): SyncState {
    SyncState(map[0 := 1, 1 := 2, 2 := 3, 3 := 4], Stamp(Blocks(), 4), Stamp(Blocks(), 4), true)
  }

  lemma FourAndSeven()
    ensures InSync(Blocks(), SyncedToFour(), 4, 1)
    ensures Fork(Blocks(), 4, 7) == 1 && |ReorgEvents(Blocks(), 4, 7)| == 8
    ensures Blocks()[4].height == 3 && Blocks()[7].height == 4 && Blocks()[8].header.prev == 4
  {
    OldBranch();
    NewBranch();
    assert Fork(Blocks(), 4, 7) == 1;
    ReorgDisconnects(Blocks(), 4, 7, 0);
  }

  /** A reorganisation from block 4 to block 7 that fails once block 5 is connected. */
  function HalfWay(): (ds: seq<Delivery>)
    ensures Events(ds) <= ReorgEvents(Blocks(), 4, 7)
    ensures |ReorgEvents(Blocks(), 4, 7)| == 8 ==> |ds| == 4
  {
    var all := ReorgEvents(Blocks(), 4, 7);
    Delivered(if |all| >= 4 then all[..4] else all)
  }

  lemma HeldHalfWay()
    ensures CanPut(AppliedAll(SyncedToFour(), HalfWay()), 4)
  {
    FourAndSeven();
    FailedReorgs.HeldAfterFailure(Blocks(), SyncedToFour(), 4, 7, 1, HalfWay());
    FailedReorgs.BetweenMeans(Blocks(), AppliedAll(SyncedToFour(), HalfWay()), 4, 7, 1, 2);
  }

  /** A wallet in sync with block 4, that failed reorganisation, and block 8 on top of block
      4: the wallet is not in sync with block 8, for it still stores the hash of block 5. */
  lemma FailedReorgLeavesWrongHash()
    ensures InSync(Blocks(), SyncedToFour(), 4, 1)
    ensures
      var s, next := AppliedAll(SyncedToFour(), HalfWay()), Delivered(ConnectPair(Blocks(), 8, 4));
      !FailedReorgs.InSyncAgain(Blocks(), AppliedAll(s, next), 8)
  {
    FourAndSeven();
    HeldHalfWay();
    assert !FailedReorgs.Repairs(Blocks(), 4, 7, 8, 3, 2);
    FailedReorgs.ExtensionRepairs(
      Blocks(), SyncedToFour(), 4, 7, 8, 1, HalfWay(), Delivered(ConnectPair(Blocks(), 8, 4)));
  }

  /** Genesis and a window at height 5: a stamp of height 1 is accepted next to genesis. */
  lemma LowStampBreaksWindow()
    ensures
      var s := SyncState(map[0 := 1, 5 := 9], BlockStamp(9, 5, 0), BlockStamp(9, 5, 0), true);
      && InWindow(s, 5, 5) && CanPut(s, 1)
      && !exists lo, hi :: InWindow(Synced(s, BlockStamp(2, 1, 0)), lo, hi)
  {
    var s := SyncState(map[0 := 1, 5 := 9], BlockStamp(9, 5, 0), BlockStamp(9, 5, 0), true);
    WindowKeptExactly(s, 5, 5, BlockStamp(2, 1, 0));
  }

  /** Every child of either branch is valid. */
  function AllValid(): Allocator.Derive {
    (internal: bool, i: nat) => Allocator.Valid
  }

  lemma AllValidIsGood()
    ensures Allocator.GoodDerive(AllValid())
  {
    forall internal: bool, i: nat
      ensures SomeValidFrom(Allocator.Stops(AllValid(), internal), i)
    {
      assert Allocator.Stops(AllValid(), internal)(i);
    }
  }

  function NewAccount(): Allocator.Account {
    var rest := RowStore.Default(Rows.DefaultAccount([], [], 0, 0, []));
    Allocator.Account(Allocator.NextIndexes(0, 0), rest, Allocator.NextIndexes(0, 0), [], [])
  }

  lemma OneIsServed(a: Allocator.Account)
    requires a.cache == Allocator.NextIndexes(0, 0)
    ensures Allocator.GoodDerive(AllValid())
    ensures AllocatorRuns.Issues(AllValid(), a, Allocator.Next(false, 1))
    ensures AllocatorRuns.Issues(AllValid(), a, Allocator.ExtendTo(false, 0))
  {
    AllValidIsGood();
  }

  lemma {:induction false} OneRequest(a: Allocator.Account, req: Allocator.Request)
    requires Allocator.GoodDerive(AllValid())
    ensures AllocatorRuns.ServedAll(AllValid(), a, [req]) == Allocator.Served(AllValid(), a, req)
    ensures AllocatorRuns.Effects(AllValid(), a, [req], false) == [AllocatorRuns.EffectOf(AllValid(), a, req, false)]
  {
    var reqs := [req];
    assert reqs[..|reqs| - 1] == [];
  }

  /** Two allocations of one address in one transaction hand out the same index. */
  lemma {:induction false} SameIndexTwice()
    ensures Allocator.GoodDerive(AllValid())
    ensures
      var reqs := [Allocator.Next(false, 1), Allocator.Next(false, 1)];
      && AllocatorRuns.InStep(NewAccount(), false)
      && AllocatorRuns.Repeats(AllocatorRuns.IssuedOn(AllocatorRuns.ServedAll(AllValid(), NewAccount(), reqs).addresses, false))
  {
    var a, one := NewAccount(), Allocator.Next(false, 1);
    var reqs := [one, one];
    OneIsServed(a);
    OneRequest(a, one);
    var end := AllocatorRuns.ServedIssues(AllValid(), a, one, false);
    OneIsServed(Allocator.Served(AllValid(), a, one));
    assert reqs[..|reqs| - 1] == [one];
    var es := AllocatorRuns.Effects(AllValid(), a, reqs, false);
    assert es[0] == AllocatorRuns.Allocated && es[1] != AllocatorRuns.Nothing;
    AllocatorRuns.OverlapRepeats(AllValid(), a, reqs, false);
  }

  /** An extension in a transaction that is rolled back leaves the cache ahead of the row. */
  lemma {:induction false} RollbackLeavesCacheAhead()
    ensures Allocator.GoodDerive(AllValid())
    ensures
      var r := AllocatorRuns.ServedAll(AllValid(), NewAccount(), [Allocator.ExtendTo(false, 0)]);
      !AllocatorRuns.InStep(AllocatorRuns.RolledBack(NewAccount(), r), false)
  {
    var a, reqs := NewAccount(), [Allocator.ExtendTo(false, 0)];
    OneIsServed(a);
    OneRequest(a, reqs[0]);
    AllocatorRuns.RollbackInStepExactly(AllValid(), a, reqs, false);
  }

  /** One query for block 7. */
  lemma QueryForOne(l: PrunedBlocks.Log, cancel: nat)
    ensures
      var waiter := PrunedBlocks.Waiter(7, |l.caps|, PrunedBlocks.Pending);
      PrunedBlocks.Step(l, PrunedBlocks.Query([7], cancel)) ==
        PrunedBlocks.Log(l.waiters + [waiter],
                         if PrunedBlocks.Waiting(l.waiters, 7) == [] then l.dependants
                         else l.dependants + [PrunedBlocks.Dependant(7, cancel)],
                         l.caps + [1], l.sent)
  {
    var l', blocks := l.(caps := l.caps + [1]), [7];
    assert PrunedBlocks.AllRegistered(l', blocks, 0, |l.caps|, cancel) == l';
    assert PrunedBlocks.AllRegistered(l', blocks, 1, |l.caps|, cancel) == PrunedBlocks.Registered(l', 7, |l.caps|, cancel);
  }

  lemma {:induction false} RunOneMore(events: seq<PrunedBlocks.Event>, e: PrunedBlocks.Event, all: seq<PrunedBlocks.Event>)
    requires all == events + [e]
    ensures PrunedBlocks.Run(all) == PrunedBlocks.Step(PrunedBlocks.Run(events), e)
  {
    assert all[..|all| - 1] == events;
  }

  /** Block 7 is asked for by two queries. */
  lemma AskedForTwice()
    ensures
      PrunedBlocks.Run([PrunedBlocks.Query([7], 0), PrunedBlocks.Query([7], 1)]) ==
        PrunedBlocks.Log(
          [PrunedBlocks.Waiter(7, 0, PrunedBlocks.Pending), PrunedBlocks.Waiter(7, 1, PrunedBlocks.Pending)],
          [PrunedBlocks.Dependant(7, 1)], [1, 1], [])
  {
    var q0, q1 := PrunedBlocks.Query([7], 0), PrunedBlocks.Query([7], 1);
    var none := PrunedBlocks.Log([], [], [], []);
    RunOneMore([], q0, [q0]);
    QueryForOne(none, 0);
    var one := PrunedBlocks.Run([q0]);
    assert one == PrunedBlocks.Log([PrunedBlocks.Waiter(7, 0, PrunedBlocks.Pending)], [], [1], []);
    assert one.waiters[..0] == [];
    RunOneMore([q0], q1, [q0, q1]);
    QueryForOne(one, 1);
  }

  /** Then it arrives: nobody waits for it any more, but a cancellation would tell the second
      query. */
  lemma ServedIsToldOfCancellation()
    ensures
      var l := PrunedBlocks.Run([PrunedBlocks.Query([7], 0), PrunedBlocks.Query([7], 1), PrunedBlocks.Response(7, true)]);
      PrunedBlocks.Waiting(l.waiters, 7) == [] && PrunedBlocks.Depending(l.dependants, 7) == [1]
  {
    var q0, q1, r := PrunedBlocks.Query([7], 0), PrunedBlocks.Query([7], 1), PrunedBlocks.Response(7, true);
    AskedForTwice();
    RunOneMore([q0, q1], r, [q0, q1, r]);
    var l := PrunedBlocks.Run([q0, q1]);
    assert l.dependants[..0] == [];
    PrunedBlocks.SettledWaiting(l.waiters, 7, PrunedBlocks.Served);
  }

  /** One query for blocks 7 and 8. */
  lemma QueryForTwo(l: PrunedBlocks.Log, cancel: nat)
    ensures
      var c, ws := |l.caps|, l.waiters;
      var again7 := if PrunedBlocks.Waiting(ws, 7) == [] then [] else [PrunedBlocks.Dependant(7, cancel)];
      var again8 := if PrunedBlocks.Waiting(ws, 8) == [] then [] else [PrunedBlocks.Dependant(8, cancel)];
      PrunedBlocks.Step(l, PrunedBlocks.Query([7, 8], cancel)) ==
        PrunedBlocks.Log(
          ws + [PrunedBlocks.Waiter(7, c, PrunedBlocks.Pending), PrunedBlocks.Waiter(8, c, PrunedBlocks.Pending)],
          l.dependants + again7 + again8, l.caps + [2], l.sent)
  {
    var l', blocks, c := l.(caps := l.caps + [2]), [7, 8], |l.caps|;
    assert PrunedBlocks.AllRegistered(l', blocks, 0, c, cancel) == l';
    var one := PrunedBlocks.Registered(l', 7, c, cancel);
    assert PrunedBlocks.AllRegistered(l', blocks, 1, c, cancel) == one;
    assert PrunedBlocks.AllRegistered(l', blocks, 2, c, cancel) == PrunedBlocks.Registered(one, 8, c, cancel);
    PrunedBlockRuns.WaitingOneMore(l.waiters, PrunedBlocks.Waiter(7, c, PrunedBlocks.Pending), 8);
    assert l.waiters + [PrunedBlocks.Waiter(7, c, PrunedBlocks.Pending), PrunedBlocks.Waiter(8, c, PrunedBlocks.Pending)]
        == one.waiters + [PrunedBlocks.Waiter(8, c, PrunedBlocks.Pending)];
  }

  /** Blocks 7 and 8 are asked for by two queries. */
  lemma BothAskedForTwice()
    ensures
      PrunedBlocks.Run([PrunedBlocks.Query([7, 8], 0), PrunedBlocks.Query([7, 8], 1)]).dependants ==
        [PrunedBlocks.Dependant(7, 1), PrunedBlocks.Dependant(8, 1)]
  {
    var q0, q1 := PrunedBlocks.Query([7, 8], 0), PrunedBlocks.Query([7, 8], 1);
    RunOneMore([], q0, [q0]);
    QueryForTwo(PrunedBlocks.Log([], [], [], []), 0);
    var one := PrunedBlocks.Run([q0]);
    var w7, w8 := PrunedBlocks.Waiter(7, 0, PrunedBlocks.Pending), PrunedBlocks.Waiter(8, 0, PrunedBlocks.Pending);
    assert one.waiters == [w7, w8] && [] + [w7] == [w7] && [w7] + [w8] == [w7, w8];
    PrunedBlockRuns.WaitingOneMore([], w7, 7);
    PrunedBlockRuns.WaitingOneMore([w7], w8, 7);
    PrunedBlockRuns.WaitingOneMore([w7], w8, 8);
    RunOneMore([q0], q1, [q0, q1]);
    QueryForTwo(one, 1);
  }

  lemma {:induction false} TellMore(events: seq<PrunedBlocks.Event>, h: nat, all: seq<PrunedBlocks.Event>)
    requires all == events + [PrunedBlocks.Cancel(h)]
    ensures PrunedBlockRuns.Told(all) ==
              PrunedBlockRuns.Told(events) + PrunedBlocks.Depending(PrunedBlocks.Run(events).dependants, h)
    ensures PrunedBlocks.Run(all).dependants == PrunedBlocks.DropDependants(PrunedBlocks.Run(events).dependants, h)
  {
    assert all[..|all| - 1] == events;
  }

  lemma TwoDependants()
    ensures
      var d7, d8 := PrunedBlocks.Dependant(7, 1), PrunedBlocks.Dependant(8, 1);
      && PrunedBlocks.Depending([d7, d8], 7) == [1] && PrunedBlocks.DropDependants([d7, d8], 7) == [d8]
      && PrunedBlocks.Depending([d8], 8) == [1]
  {
    var d7, d8 := PrunedBlocks.Dependant(7, 1), PrunedBlocks.Dependant(8, 1);
    assert [d7, d8][..1] == [d7] && [d7][..0] == [] && [d8][..0] == [];
    assert PrunedBlocks.Depending([d7], 7) == [1] && PrunedBlocks.DropDependants([d7], 7) == [];
    assert PrunedBlocks.Depending([d7, d8], 7) == [1];
    assert PrunedBlocks.DropDependants([d7, d8], 7) == [d8];
  }

  lemma {:induction false} QueriesTellNothing(q0: PrunedBlocks.Event, q1: PrunedBlocks.Event)
    requires q0.Query? && q1.Query?
    ensures PrunedBlockRuns.Told([q0, q1]) == []
  {
    assert [q0, q1][..1] == [q0] && [q0][..0] == [];
    assert PrunedBlockRuns.Told([q0]) == [];
  }

  const TwoQueries: seq<PrunedBlocks.Event> := [PrunedBlocks.Query([7, 8], 0), PrunedBlocks.Query([7, 8], 1)]

  lemma ToldOnce()
    ensures PrunedBlockRuns.Told(TwoQueries + [PrunedBlocks.Cancel(7)]) == [1]
    ensures PrunedBlocks.Run(TwoQueries + [PrunedBlocks.Cancel(7)]).dependants == [PrunedBlocks.Dependant(8, 1)]
  {
    BothAskedForTwice();
    TwoDependants();
    QueriesTellNothing(TwoQueries[0], TwoQueries[1]);
    TellMore(TwoQueries, 7, TwoQueries + [PrunedBlocks.Cancel(7)]);
  }

  /** Then both are cancelled, and the cancel channel of the second query is told twice. */
  lemma ToldTwice()
    ensures PrunedBlockRuns.Told(TwoQueries + [PrunedBlocks.Cancel(7)] + [PrunedBlocks.Cancel(8)]) == [1, 1]
  {
    ToldOnce();
    TwoDependants();
    var events := TwoQueries + [PrunedBlocks.Cancel(7)];
    TellMore(events, 8, events + [PrunedBlocks.Cancel(8)]);
  }

  /** A secret taproot script with the script bytes 5: its row still holds them once private
      keys have been deleted. */
  lemma TaprootSecretStays()
    ensures
      var info := RowStore.AddressInfo(0, 0, 0, RowStore.Taproot(Rows.WitnessAddress(1, true, [], [5])));
      && RowSecrets.ScrubbedAddress(RowStore.StoredAddress(info)) == Some(RowStore.StoredAddress(info))
      && RowSecrets.HoldsSecret(info.body)
  {
    var info := RowStore.AddressInfo(0, 0, 0, RowStore.Taproot(Rows.WitnessAddress(1, true, [], [5])));
    RowSecrets.OnlyAddressSecretIsLost(info);
  }

  /** With a window of nought the scan looks at child 0, finds it used and returns 1, though
      an empty gap begins at 0. */
  method ElectrumLooksAtOne() returns (n: nat)
    ensures n == 1 && ElectrumGap.LeastGap(i => Some([ElectrumGap.Record(1, 1)]), 0, 0)
  {
    var h := i => Some([ElectrumGap.Record(1, 1)]);
    var r, progress := ElectrumGap.Recover(h, 0, 0, 0);
    n := r.value.0;
  }

  /** Every child is valid but the second one of external branches. */
  function OneInvalid(): KeyTree.Keys {
    KeyTree.Keys(
      (id: KeyTree.BranchId) => (i: nat) => id.internal || i != 1, (id: KeyTree.BranchId) => (i: nat) => i,
      (id: KeyTree.BranchId) => (i: nat) => false, (id: KeyTree.BranchId) => (i: nat) => true)
  }

  const External: KeyTree.BranchId := KeyTree.BranchId(0, false)

  function DerivesOneInvalid(): Allocator.Derive {
    (internal: bool, i: nat) => if internal || i != 1 then Allocator.Valid else Allocator.Invalid
  }

  lemma OneInvalidIsGood()
    ensures Allocator.GoodDerive(DerivesOneInvalid())
    ensures RestoredAccounts.SameTree(DerivesOneInvalid(), OneInvalid(), External)
  {
    forall internal: bool, i: nat
      ensures SomeValidFrom(Allocator.Stops(DerivesOneInvalid(), internal), i)
    {
      assert Allocator.Stops(DerivesOneInvalid(), internal)(i + 2);
    }
  }

  /** The valid children of the branch, from the first one on. */
  lemma {:induction false} PassesOver()
    requires Allocator.GoodDerive(DerivesOneInvalid())
    ensures
      var valid := Allocator.Stops(DerivesOneInvalid(), false);
      After(valid, 0, 2) == 3 && AddressIndexes.ValidIn(valid, 0, 3) == [0, 2]
  {
    var valid := Allocator.Stops(DerivesOneInvalid(), false);
    assert valid(0) && !valid(1) && valid(2);
    assert AddressIndexes.ValidIn(valid, 0, 1) == [0] && AddressIndexes.ValidIn(valid, 0, 2) == [0];
    assert NextValid(valid, 0) == 0 && NextValid(valid, 1) == 2;
    assert After(valid, 0, 0) == 0 && After(valid, 0, 1) == 1;
  }

  /** A new account that allocates two external addresses passes over child 1 and hands out
      children 0 and 2. Its key count is then 3, and it cannot be restored any more. */
  lemma {:induction false} PassedOverIsNotRestored()
    ensures Allocator.GoodDerive(DerivesOneInvalid())
    ensures
      var r := AllocatorRuns.Transactions(DerivesOneInvalid(), NewAccount(), [[Allocator.Next(false, 2)]]);
      && AllocatorRuns.IssuedOn(r.addresses, false) == [0, 2] && r.stored.Next(false) == 3
      && !KeyTree.CanResurrect(OneInvalid(), External, 3)
  {
    OneInvalidIsGood();
    PassesOver();
    var derive, a, two := DerivesOneInvalid(), NewAccount(), Allocator.Next(false, 2);
    var txs := [[two]];
    assert [two][..|[two]| - 1] == [] && txs[..|txs| - 1] == [];
    assert AllocatorRuns.ServedAll(derive, a, [two]) == Allocator.Served(derive, a, two);
    var end := AllocatorRuns.ServedIssues(derive, a, two, false);
    assert AllocatorRuns.IssuedOn(a.addresses, false) == [];
    assert end == 3 by {
      AllocatorRuns.IssuedAtOnce(a, false, [0, 2], false);
    }
    assert !KeyTree.Derivable(OneInvalid(), External, 1);
  }

  /** Restoring that branch fails. */
  method RestoringStops() returns (ok: bool)
    ensures !ok
  {
    var brs := new Recovery.BranchRecoveryState(1);
    assert !KeyTree.Derivable(OneInvalid(), External, 1);
    ok := KeyTree.ResurrectFromKeys(brs, OneInvalid(), External, 3);
  }

  /** So does the first extension of a new branch with a window of two. */
  lemma ExtendingStops()
    ensures !KeyTree.CanExpand(OneInvalid(), External, Recovery.Fresh(2))
  {
    assert Recovery.InvalidAhead(Recovery.Fresh(2)) == {};
    assert !KeyTree.Derivable(OneInvalid(), External, 1);
  }

  const SomeJob: Rescan.Job := Rescan.Job(false, [7], map[], BlockStamp(2, 1, 11))

  /** Two jobs are submitted, and the rescan of the first fails with error 1: it is told so,
      but the second stays pending, and no result has been sent for it. */
  lemma FailedRescanBlocksTheNext()
    ensures
      var s := Rescan.Run([Rescan.Submit(SomeJob), Rescan.Submit(SomeJob), Rescan.Serve(Some(1))]);
      && s.sent == [Rescan.Result(0, Some(1))] && s.next == Some(Rescan.BatchOf(SomeJob, 1))
  {
    var submit, fail := Rescan.Submit(SomeJob), Rescan.Serve(Some(1));
    var events := [submit, submit, fail];
    assert [submit][..0] == [] && events[..2][..1] == [submit];
    var none := Rescan.Run([]);
    var one := Rescan.Step(none, submit);
    var two := Rescan.Step(one, submit);
    assert Rescan.Run([submit]) == one;
    assert Rescan.Run(events[..2]) == two;
    assert two.dispatched == [Rescan.BatchOf(SomeJob, 0)];
  }
}
