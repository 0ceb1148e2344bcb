/** How far the recovery of a batch of blocks has come (recoverScopedAddresses in
    wallet/wallet.go): what the first blocks mean for the wallet, and that it has exactly
    that. */
module RecoveryProgress {
  import opened ChainData
  import opened Optional
  import opened Lookahead
  import opened Recovery
  import opened BlockFilter
  import opened BlockRelevance
  import opened FilterBlocks
  import opened KeyTree
  import opened RecoveryScan
  import opened OwnTransactions

  /** Every block of the batch keeps within the look-ahead of every branch. */
  ghost predicate AllGapsWithin(b: Backend, keys: Keys, batch: seq<nat>, start: Branches) {
    forall id, j :: id in start && 0 <= j < |batch| ==>
      GapWithin(b, keys, id, batch, j, start[id].nextUnfound, start[id].window)
  }

  /** The branches after the first p blocks: each looks for what comes next. */
  ghost predicate BranchesUpTo(b: Backend, keys: Keys, batch: seq<nat>, p: nat, start: Branches, now: Branches)
    requires p <= |batch|
  {
    && now.Keys == start.Keys
    && forall id :: id in start ==>
         && now[id].window == start[id].window
         && IsNext(b, keys, id, batch[..p], start[id].nextUnfound, now[id].nextUnfound)
  }

  /** The children marked used after the first p blocks. */
  ghost predicate UsedUpTo(
    b: Backend, keys: Keys, batch: seq<nat>, p: nat, ids: set<BranchId>, used0: set<(BranchId, nat)>, used: set<(BranchId, nat)>)
    requires p <= |batch|
  {
    forall id, i: nat :: (id, i) in used <==>
      (id, i) in used0 || (id in ids && exists j :: 0 <= j < p && Uses(b, keys, batch[j], id, i))
  }

  /** The wallet's outpoints after the first p blocks: those there were and the outputs that
      pay to it, and no others. */
  ghost predicate WatchedUpTo(
    b: Backend, keys: Keys, batch: seq<nat>, p: nat, ids: set<BranchId>, known: set<OutPoint>, watched: set<OutPoint>)
    requires p <= |batch|
  {
    forall op :: op in watched <==> KnownBy(b, keys, ids, known, batch, p, op)
  }

  /** The wallet's transactions after the first p blocks: those there were and the ones that
      concern it, and no others. */
  ghost predicate RecordedUpTo(
    b: Backend, keys: Keys, batch: seq<nat>, p: nat, ids: set<BranchId>, known: set<OutPoint>, txs0: seq<Tx>, txs: seq<Tx>)
    requires p <= |batch|
  {
    forall tx :: tx in txs <==> tx in txs0 || exists j :: 0 <= j < p && Concerns(b, keys, ids, known, batch, j, tx)
  }

  /** Some of the first p blocks uses the branch. */
  ghost predicate UsedOn(b: Backend, keys: Keys, batch: seq<nat>, p: nat, id: BranchId)
    requires p <= |batch|
  {
    exists j, i: nat :: 0 <= j < p && Uses(b, keys, batch[j], id, i)
  }

  /** For each branch, the indexes up to which the address manager was asked to extend it. */
  type Asks = map<BranchId, set<nat>>

  function AsksOf(asked: Asks, id: BranchId): set<nat> {
    if id in asked then asked[id] else {}
  }

  /** A branch that is used is extended up to the last index before the next unfound one,
      and no further; a branch that is not used is left alone. */
  predicate AskedFor(used: bool, nextUnfound: nat, asked0: set<nat>, asked: set<nat>) {
    && asked0 <= asked
    && (forall last :: last in asked && last !in asked0 ==> used && last < nextUnfound)
    && (used ==> nextUnfound > 0 && nextUnfound - 1 in asked)
  }

  /** What the address manager was asked to extend after the first p blocks. */
  ghost predicate AskedUpTo(
    b: Backend, keys: Keys, batch: seq<nat>, p: nat, now: Branches,
    asked0: Asks, asked: Asks)
    requires p <= |batch|
  {
    forall id ::
      if id in now then AskedFor(UsedOn(b, keys, batch, p, id), now[id].nextUnfound, AsksOf(asked0, id), AsksOf(asked, id))
      else AsksOf(asked, id) == AsksOf(asked0, id)
  }

  /** Where recovery stands. */
  datatype Progress = Progress(
    branches: Branches, used: set<(BranchId, nat)>, asked: Asks,
    watched: map<OutPoint, Address>, txs: seq<Tx>)

  datatype Aspect = NextIndexes | UsedChildren | Extensions | OutPoints | Transactions

  /** In this respect, recovery stands where the first p blocks lead from the start. */
  ghost predicate StandsAt(
    aspect: Aspect, b: Backend, keys: Keys, batch: seq<nat>, p: nat, start: Progress, now: Progress)
    requires p <= |batch|
  {
    var ids, known := start.branches.Keys, start.watched.Keys;
    match aspect
    case NextIndexes => BranchesUpTo(b, keys, batch, p, start.branches, now.branches)
    case UsedChildren => UsedUpTo(b, keys, batch, p, ids, start.used, now.used)
    case Extensions => AskedUpTo(b, keys, batch, p, now.branches, start.asked, now.asked)
    case OutPoints => WatchedUpTo(b, keys, batch, p, ids, known, now.watched.Keys)
    case Transactions => RecordedUpTo(b, keys, batch, p, ids, known, start.txs, now.txs)
  }

  /** Everything the first p blocks use has been found, and nothing else. */
  ghost predicate Reached(b: Backend, keys: Keys, batch: seq<nat>, p: nat, start: Progress, now: Progress)
    requires p <= |batch|
  {
    forall aspect :: StandsAt(aspect, b, keys, batch, p, start, now)
  }

  datatype Readiness = Keyed | Watchful | Ahead

  ghost predicate IsReady(readiness: Readiness, keys: Keys, now: Progress) {
    match readiness
    case Keyed => GoodKeys(keys)
    case Watchful => AllWatching(keys, now.branches)
    case Ahead => forall id :: id in now.branches ==> LooksAhead(now.branches[id], keys.valid(id))
  }

  /** Every branch watches its children, and far enough ahead. */
  ghost predicate Ready(keys: Keys, now: Progress) {
    forall readiness :: IsReady(readiness, keys, now)
  }

  lemma ReadyMeans(keys: Keys, now: Progress)
    requires Ready(keys, now)
    ensures GoodKeys(keys) && AllWatching(keys, now.branches)
    ensures forall id :: id in now.branches ==> LooksAhead(now.branches[id], keys.valid(id))
  {
    assert IsReady(Keyed, keys, now) && IsReady(Watchful, keys, now) && IsReady(Ahead, keys, now);
  }

  /** The watch list of a request made now. */
  ghost function WatchNow(b: Backend, now: Progress, req: seq<nat>): Watch {
    WatchOf(b, RequestOf(now.branches, now.watched, req))
  }

  lemma UsedIsInAddresses(b: Backend, keys: Keys, batch: seq<nat>, j: nat, start: Progress, now: Progress, id: BranchId, i: nat)
    requires j < |batch| && Ready(keys, now) && AllGapsWithin(b, keys, batch, start.branches)
    requires BranchesUpTo(b, keys, batch, j, start.branches, now.branches)
    requires id in now.branches && Uses(b, keys, batch[j], id, i)
    ensures i in now.branches[id].addresses
  {
    ReadyMeans(keys, now);
    UsedIsWatched(b, keys, id, now.branches[id], batch, j, start.branches[id].nextUnfound, i);
  }

  /** The found indexes are exactly those that the block uses. */
  ghost predicate FindsUses(b: Backend, keys: Keys, h: nat, ids: set<BranchId>, f: Found) {
    forall id, i: nat :: id in ids ==> (i in FoundOf(f.external, f.internal, id) <==> Uses(b, keys, h, id, i))
  }

  /** The found outpoints and transactions are exactly those that the block holds for the
      wallet. */
  ghost predicate FindsOwn(
    b: Backend, keys: Keys, batch: seq<nat>, j: nat, ids: set<BranchId>, known: set<OutPoint>, f: Found)
    requires j < |batch|
  {
    && (forall op :: op in f.outPoints <==> OwnOutput(b, keys, ids, batch[j], op))
    && (forall tx :: tx in f.txs <==> Concerns(b, keys, ids, known, batch, j, tx))
  }

  /** The found state of the next block holds all that the block means for the wallet, and
      no more. */
  ghost predicate FindsAll(b: Backend, keys: Keys, batch: seq<nat>, j: nat, start: Progress, f: Found)
    requires j < |batch|
  {
    && FindsUses(b, keys, batch[j], start.branches.Keys, f)
    && FindsOwn(b, keys, batch, j, start.branches.Keys, start.watched.Keys, f)
  }

  /** What the filter finds in the next block is all that it uses. */
  lemma NextBlock(
    b: Backend, keys: Keys, batch: seq<nat>, j: nat, start: Progress, now: Progress, req: seq<nat>, f: Found)
    requires j < |batch| && Ready(keys, now) && AllGapsWithin(b, keys, batch, start.branches)
    requires Reached(b, keys, batch, j, start, now) && b.fetch(batch[j]).Some?
    requires f == BlockFound(WatchNow(b, now, req), NothingFound, b.fetch(batch[j]).value.txs)
    ensures FindsAll(b, keys, batch, j, start, f)
  {
    assert StandsAt(NextIndexes, b, keys, batch, j, start, now) && StandsAt(OutPoints, b, keys, batch, j, start, now);
    ReadyMeans(keys, now);
    forall id, i: nat | id in now.branches && Uses(b, keys, batch[j], id, i)
      ensures i in now.branches[id].addresses
    {
      UsedIsInAddresses(b, keys, batch, j, start, now, id, i);
    }
    forall id, i: nat | id in now.branches
      ensures i in FoundOf(f.external, f.internal, id) <==> Uses(b, keys, batch[j], id, i)
    {
      FoundIsUsed(b, keys, now.branches, now.watched, req, b.fetch(batch[j]).value.txs, id, i);
    }
    OwnAreSeen(b, keys, now.branches, now.watched, req, batch[j]);
    forall op
      ensures op in f.outPoints <==> OwnOutput(b, keys, now.branches.Keys, batch[j], op)
    {
      OwnIsFound(b, keys, now.branches.Keys, WatchNow(b, now, req), batch[j], op);
    }
    forall tx
      ensures tx in f.txs <==> Concerns(b, keys, now.branches.Keys, start.watched.Keys, batch, j, tx)
    {
      ConcernsIsFound(b, keys, now.branches.Keys, start.watched.Keys, batch, j, WatchNow(b, now, req), tx);
    }
  }

  /** The index up to which a branch's addresses are extended. */
  function LastFound(br: Branch): nat {
    if br.nextUnfound > 0 then br.nextUnfound - 1 else 0
  }

  /** A branch in which something was found is extended. */
  function AskAfter(found: set<nat>, br: Branch): set<nat> {
    if found == {} then {} else {LastFound(br)}
  }

  ghost predicate BranchesTakenOver(f: Found, now: Branches, now': Branches) {
    && now'.Keys <= now.Keys
    && forall id :: id in now' ==> AllReported(now[id], FoundOf(f.external, f.internal, id), now'[id])
  }

  ghost predicate UsedTakenOver(f: Found, ids: set<BranchId>, used: set<(BranchId, nat)>, used': set<(BranchId, nat)>) {
    forall id, i: nat :: (id, i) in used' <==> (id, i) in used || (id in ids && i in FoundOf(f.external, f.internal, id))
  }

  ghost predicate AskedTakenOver(f: Found, now': Branches, asked: Asks, asked': Asks) {
    forall id :: AsksOf(asked', id) == AsksOf(asked, id) +
      if id in now' then AskAfter(FoundOf(f.external, f.internal, id), now'[id]) else {}
  }

  ghost predicate ExtendedIn(
    aspect: Aspect, f: Found, was: Progress, done: Branches, used: set<(BranchId, nat)>, asked: Asks)
  {
    match aspect
    case NextIndexes => BranchesTakenOver(f, was.branches, done)
    case UsedChildren => UsedTakenOver(f, done.Keys, was.used, used)
    case Extensions => AskedTakenOver(f, done, was.asked, asked)
    case _ => true
  }

  /** The findings in some of the branches have been taken over. */
  ghost predicate FoundExtended(f: Found, was: Progress, done: Branches, used: set<(BranchId, nat)>, asked: Asks) {
    forall aspect :: ExtendedIn(aspect, f, was, done, used, asked)
  }

  /** The findings of one block taken over into the recovery state. */
  ghost predicate TakenOver(now: Progress, f: Found, now': Progress) {
    && now'.branches.Keys == now.branches.Keys
    && FoundExtended(f, now, now'.branches, now'.used, now'.asked)
    && now'.watched == now.watched + f.outPoints && now'.txs == now.txs + f.txs
  }

  /** The findings in one more branch. */
  lemma FoundExtendedOneMore(
    f: Found, was: Progress, done: Branches, used: set<(BranchId, nat)>, asked: Asks,
    id: BranchId, br: Branch, used': set<(BranchId, nat)>, asked': Asks)
    requires FoundExtended(f, was, done, used, asked) && id in was.branches && id !in done
    requires AllReported(was.branches[id], FoundOf(f.external, f.internal, id), br)
    requires used' == used + set i | i in FoundOf(f.external, f.internal, id) :: (id, i)
    requires forall x :: AsksOf(asked', x) ==
               AsksOf(asked, x) + if x == id then AskAfter(FoundOf(f.external, f.internal, id), br) else {}
    ensures FoundExtended(f, was, done[id := br], used', asked')
  {
    var done' := done[id := br];
    forall aspect
      ensures ExtendedIn(aspect, f, was, done', used', asked')
    {
      assert ExtendedIn(aspect, f, was, done, used, asked);
    }
  }

  lemma BranchesAdvance(
    b: Backend, keys: Keys, batch: seq<nat>, j: nat, next: nat, start: Branches, now: Branches, f: Found, now': Branches)
    requires j < |batch| && next == j + 1 && BranchesUpTo(b, keys, batch, j, start, now)
    requires FindsUses(b, keys, batch[j], start.Keys, f) && BranchesTakenOver(f, now, now') && now'.Keys == now.Keys
    ensures BranchesUpTo(b, keys, batch, next, start, now')
  {
    forall id | id in start
      ensures now'[id].window == now[id].window
      ensures IsNext(b, keys, id, batch[..next], start[id].nextUnfound, now'[id].nextUnfound)
    {
      NextAfterReported(b, keys, id, batch, j, start[id].nextUnfound, now[id], FoundOf(f.external, f.internal, id), now'[id]);
    }
  }

  lemma UsedAdvance(
    b: Backend, keys: Keys, batch: seq<nat>, j: nat, next: nat, ids: set<BranchId>, f: Found,
    used0: set<(BranchId, nat)>, used: set<(BranchId, nat)>, used': set<(BranchId, nat)>)
    requires j < |batch| && next == j + 1 && UsedUpTo(b, keys, batch, j, ids, used0, used)
    requires FindsUses(b, keys, batch[j], ids, f) && UsedTakenOver(f, ids, used, used')
    ensures UsedUpTo(b, keys, batch, next, ids, used0, used')
  {
  }

  lemma WatchedAdvance(
    b: Backend, keys: Keys, batch: seq<nat>, j: nat, next: nat, ids: set<BranchId>, f: Found,
    known: set<OutPoint>, watched: set<OutPoint>)
    requires j < |batch| && next == j + 1 && WatchedUpTo(b, keys, batch, j, ids, known, watched)
    requires forall op :: op in f.outPoints <==> OwnOutput(b, keys, ids, batch[j], op)
    ensures WatchedUpTo(b, keys, batch, next, ids, known, watched + f.outPoints.Keys)
  {
  }

  lemma RecordedAdvance(
    b: Backend, keys: Keys, batch: seq<nat>, j: nat, next: nat, ids: set<BranchId>, f: Found,
    known: set<OutPoint>, txs0: seq<Tx>, txs: seq<Tx>)
    requires j < |batch| && next == j + 1 && RecordedUpTo(b, keys, batch, j, ids, known, txs0, txs)
    requires forall tx :: tx in f.txs <==> Concerns(b, keys, ids, known, batch, j, tx)
    ensures RecordedUpTo(b, keys, batch, next, ids, known, txs0, txs + f.txs)
  {
  }

  lemma UsedOnMore(b: Backend, keys: Keys, batch: seq<nat>, j: nat, next: nat, id: BranchId, found: set<nat>)
    requires j < |batch| && next == j + 1 && forall i: nat :: i in found <==> Uses(b, keys, batch[j], id, i)
    ensures UsedOn(b, keys, batch, next, id) <==> UsedOn(b, keys, batch, j, id) || found != {}
  {
    if i :| i in found {
      assert Uses(b, keys, batch[j], id, i);
    }
  }

  lemma AskedMore(br: Branch, found: set<nat>, br': Branch, used: bool, asked0: set<nat>, asked: set<nat>)
    requires AllReported(br, found, br') && AskedFor(used, br.nextUnfound, asked0, asked)
    ensures AskedFor(used || found != {}, br'.nextUnfound, asked0, asked + AskAfter(found, br'))
  {
    ReportedMeans(br, found, br');
    if i :| i in found {
      assert i < br'.nextUnfound;
    }
  }

  lemma AskedAdvance(
    b: Backend, keys: Keys, batch: seq<nat>, j: nat, next: nat, now: Branches, f: Found, now': Branches,
    asked0: Asks, asked: Asks, asked': Asks)
    requires j < |batch| && next == j + 1 && AskedUpTo(b, keys, batch, j, now, asked0, asked)
    requires FindsUses(b, keys, batch[j], now.Keys, f)
    requires BranchesTakenOver(f, now, now') && now'.Keys == now.Keys && AskedTakenOver(f, now', asked, asked')
    ensures AskedUpTo(b, keys, batch, next, now', asked0, asked')
  {
    forall id | id in now
      ensures AskedFor(UsedOn(b, keys, batch, next, id), now'[id].nextUnfound, AsksOf(asked0, id), AsksOf(asked', id))
    {
      var found := FoundOf(f.external, f.internal, id);
      UsedOnMore(b, keys, batch, j, next, id, found);
      AskedMore(now[id], found, now'[id], UsedOn(b, keys, batch, j, id), AsksOf(asked0, id), AsksOf(asked, id));
    }
  }

  lemma MatchedAdvance(
    b: Backend, keys: Keys, batch: seq<nat>, j: nat, next: nat, start: Progress, now: Progress, f: Found, now': Progress)
    requires j < |batch| && next == j + 1 && Reached(b, keys, batch, j, start, now)
    requires FindsAll(b, keys, batch, j, start, f) && TakenOver(now, f, now')
    ensures Reached(b, keys, batch, next, start, now')
  {
    var ids, known := start.branches.Keys, start.watched.Keys;
    assert StandsAt(NextIndexes, b, keys, batch, j, start, now);
    assert ExtendedIn(NextIndexes, f, now, now'.branches, now'.used, now'.asked);
    forall aspect
      ensures StandsAt(aspect, b, keys, batch, next, start, now')
    {
      assert StandsAt(aspect, b, keys, batch, j, start, now) && ExtendedIn(aspect, f, now, now'.branches, now'.used, now'.asked);
      match aspect
      case NextIndexes => BranchesAdvance(b, keys, batch, j, next, start.branches, now.branches, f, now'.branches);
      case UsedChildren => UsedAdvance(b, keys, batch, j, next, ids, f, start.used, now.used, now'.used);
      case Extensions =>
        AskedAdvance(b, keys, batch, j, next, now.branches, f, now'.branches, start.asked, now.asked, now'.asked);
      case OutPoints => WatchedAdvance(b, keys, batch, j, next, ids, f, known, now.watched.Keys);
      case Transactions => RecordedAdvance(b, keys, batch, j, next, ids, f, known, start.txs, now.txs);
    }
  }

  lemma NothingTakenOver(now: Progress)
    ensures TakenOver(now, NothingFound, now)
  {
    assert forall id :: FoundOf(NothingFound.external, NothingFound.internal, id) == {};
    assert now.txs + [] == now.txs && now.watched + map[] == now.watched;
  }

  datatype Condition = Prepared | WithinGaps | Arrived | Looking

  ghost predicate Holds(
    condition: Condition, b: Backend, keys: Keys, batch: seq<nat>, p: nat, start: Progress, now: Progress,
    req: seq<nat>, w: Watch)
    requires p <= |batch|
  {
    match condition
    case Prepared => Ready(keys, now)
    case WithinGaps => AllGapsWithin(b, keys, batch, start.branches)
    case Arrived => Reached(b, keys, batch, p, start, now)
    case Looking => w == WatchNow(b, now, req)
  }

  /** The wallet watches what it must with this watch list, keeping a look-ahead that the
      batch never exceeds, and has found what the first p blocks use. */
  ghost predicate OnTrack(
    b: Backend, keys: Keys, batch: seq<nat>, p: nat, start: Progress, now: Progress, req: seq<nat>, w: Watch)
    requires p <= |batch|
  {
    forall condition :: Holds(condition, b, keys, batch, p, start, now, req, w)
  }

  /** A block in which nothing is found means nothing. */
  lemma SkippedOne(
    b: Backend, keys: Keys, batch: seq<nat>, j: nat, next: nat, start: Progress, now: Progress, req: seq<nat>, w: Watch)
    requires j < |batch| && next == j + 1
    requires FindsNothing(b, w, batch[j]) && OnTrack(b, keys, batch, j, start, now, req, w)
    ensures OnTrack(b, keys, batch, next, start, now, req, w)
  {
    assert Holds(Prepared, b, keys, batch, j, start, now, req, w);
    assert Holds(WithinGaps, b, keys, batch, j, start, now, req, w);
    assert Holds(Arrived, b, keys, batch, j, start, now, req, w);
    assert Holds(Looking, b, keys, batch, j, start, now, req, w);
    NoMatchNoChange(w, NothingFound, b.fetch(batch[j]).value.txs);
    NextBlock(b, keys, batch, j, start, now, req, NothingFound);
    NothingTakenOver(now);
    MatchedAdvance(b, keys, batch, j, next, start, now, NothingFound, now);
    forall condition
      ensures Holds(condition, b, keys, batch, next, start, now, req, w)
    {
      assert Holds(condition, b, keys, batch, j, start, now, req, w);
    }
  }

  /** The filter finds nothing in the blocks from position p up to, not including, q. */
  predicate NothingIn(b: Backend, w: Watch, batch: seq<nat>, p: nat, q: nat)
    requires p <= q <= |batch|
    decreases q - p
  {
    p < q ==> FindsNothing(b, w, batch[p]) && NothingIn(b, w, batch, p + 1, q)
  }

  lemma {:induction false} NothingInEach(b: Backend, w: Watch, batch: seq<nat>, p: nat, q: nat)
    requires p <= q <= |batch| && forall j :: p <= j < q ==> FindsNothing(b, w, batch[j])
    ensures NothingIn(b, w, batch, p, q)
    decreases q - p
  {
    if p < q {
      NothingInEach(b, w, batch, p + 1, q);
    }
  }

  /** Blocks passed over by the scan change nothing. */
  lemma {:induction false} SkippedAll(
    b: Backend, keys: Keys, batch: seq<nat>, p: nat, q: nat, start: Progress, now: Progress, req: seq<nat>, w: Watch)
    requires p <= q <= |batch| && NothingIn(b, w, batch, p, q) && OnTrack(b, keys, batch, p, start, now, req, w)
    ensures OnTrack(b, keys, batch, q, start, now, req, w)
    decreases q - p
  {
    if p < q {
      SkippedOne(b, keys, batch, p, p + 1, start, now, req, w);
      SkippedAll(b, keys, batch, p + 1, q, start, now, req, w);
    }
  }

  lemma {:induction false} SkippedAdvance(
    b: Backend, keys: Keys, batch: seq<nat>, p: nat, q: nat, start: Progress, now: Progress, req: seq<nat>, w: Watch)
    requires p <= q <= |batch| && NothingIn(b, w, batch, p, q) && w == WatchNow(b, now, req)
    requires Ready(keys, now) && AllGapsWithin(b, keys, batch, start.branches) && Reached(b, keys, batch, p, start, now)
    ensures Reached(b, keys, batch, q, start, now)
  {
    assert OnTrack(b, keys, batch, p, start, now, req, w);
    SkippedAll(b, keys, batch, p, q, start, now, req, w);
    assert Holds(Arrived, b, keys, batch, q, start, now, req, w);
  }

  /** Every branch's look-ahead has been extended, and nothing else has changed. */
  ghost predicate Extended(keys: Keys, now: Progress, now': Progress)
    requires GoodKeys(keys)
  {
    && now' == now.(branches := now'.branches) && now'.branches.Keys == now.branches.Keys
    && forall id :: id in now.branches ==>
         now'.branches[id] == Expanded(now.branches[id], keys.valid(id), keys.addr(id))
  }

  lemma ExtendedIsReady(keys: Keys, now: Progress, now': Progress)
    requires GoodKeys(keys) && AllWatching(keys, now.branches) && Extended(keys, now, now')
    ensures Ready(keys, now')
  {
    forall id | id in now.branches
      ensures Watching(now'.branches[id], keys.valid(id), keys.addr(id)) && LooksAhead(now'.branches[id], keys.valid(id))
    {
      ExpandedLooksAhead(now.branches[id], keys.valid(id), keys.addr(id));
    }
  }

  lemma ExtendedBranches(b: Backend, keys: Keys, batch: seq<nat>, p: nat, start: Branches, before: Branches, now: Branches)
    requires p <= |batch| && GoodKeys(keys) && now.Keys == before.Keys
    requires forall id :: id in before ==> now[id] == Expanded(before[id], keys.valid(id), keys.addr(id))
    requires BranchesUpTo(b, keys, batch, p, start, before)
    ensures BranchesUpTo(b, keys, batch, p, start, now)
    ensures forall id :: id in before ==> now[id].nextUnfound == before[id].nextUnfound
  {
  }

  lemma SameAsked(
    b: Backend, keys: Keys, batch: seq<nat>, p: nat, before: Branches, now: Branches,
    asked0: Asks, asked: Asks)
    requires p <= |batch| && now.Keys == before.Keys && AskedUpTo(b, keys, batch, p, before, asked0, asked)
    requires forall id :: id in before ==> now[id].nextUnfound == before[id].nextUnfound
    ensures AskedUpTo(b, keys, batch, p, now, asked0, asked)
  {
  }

  /** Extending look-aheads loses nothing of what was reached. */
  lemma ExtendedReached(b: Backend, keys: Keys, batch: seq<nat>, p: nat, start: Progress, before: Progress, now: Progress)
    requires p <= |batch| && GoodKeys(keys) && Extended(keys, before, now)
    requires Reached(b, keys, batch, p, start, before)
    ensures Reached(b, keys, batch, p, start, now)
  {
    assert StandsAt(NextIndexes, b, keys, batch, p, start, before);
    ExtendedBranches(b, keys, batch, p, start.branches, before.branches, now.branches);
    forall aspect
      ensures StandsAt(aspect, b, keys, batch, p, start, now)
    {
      assert StandsAt(aspect, b, keys, batch, p, start, before);
      if aspect == Extensions {
        SameAsked(b, keys, batch, p, before.branches, now.branches, start.asked, now.asked);
      }
    }
  }

  lemma StartReached(b: Backend, keys: Keys, batch: seq<nat>, start: Progress)
    ensures Reached(b, keys, batch, 0, start, start)
  {
  }

  lemma TakenOverKeepsWatching(keys: Keys, now: Progress, f: Found, now': Progress)
    requires AllWatching(keys, now.branches) && TakenOver(now, f, now')
    ensures AllWatching(keys, now'.branches)
  {
    assert ExtendedIn(NextIndexes, f, now, now'.branches, now'.used, now'.asked);
    forall id | id in now.branches
      ensures Watching(now'.branches[id], keys.valid(id), keys.addr(id))
    {
      AllReportedKeepsWatching(now.branches[id], FoundOf(f.external, f.internal, id), now'.branches[id],
                               keys.valid(id), keys.addr(id));
    }
  }

  /** What a batch reaches, after what the batches before it reached. */
  lemma ReachedComposes(
    b: Backend, keys: Keys, chain: seq<nat>, p: nat, q: nat, batch: seq<nat>, start: Progress, mid: Progress, now: Progress)
    requires p <= q <= |chain| && batch == chain[p..q]
    requires Reached(b, keys, chain, p, start, mid) && Reached(b, keys, batch, |batch|, mid, now)
    ensures Reached(b, keys, chain, q, start, now)
  {
    var ids, known := start.branches.Keys, start.watched.Keys;
    assert StandsAt(NextIndexes, b, keys, chain, p, start, mid);
    assert StandsAt(NextIndexes, b, keys, batch, |batch|, mid, now);
    assert StandsAt(OutPoints, b, keys, chain, p, start, mid);
    forall aspect
      ensures StandsAt(aspect, b, keys, chain, q, start, now)
    {
      assert StandsAt(aspect, b, keys, chain, p, start, mid) && StandsAt(aspect, b, keys, batch, |batch|, mid, now);
      match aspect
      case NextIndexes => BranchesCompose(b, keys, chain, p, q, batch, start.branches, mid.branches, now.branches);
      case UsedChildren => UsedCompose(b, keys, chain, p, q, batch, ids, start.used, mid.used, now.used);
      case Extensions =>
        AskedCompose(b, keys, chain, p, q, batch, mid.branches, now.branches, start.asked, mid.asked, now.asked);
      case OutPoints => WatchedCompose(b, keys, chain, p, q, batch, ids, known, mid.watched.Keys, now.watched.Keys);
      case Transactions =>
        RecordedCompose(b, keys, chain, p, q, batch, ids, known, start.txs, mid.watched.Keys, mid.txs, now.txs);
    }
  }

  lemma SliceAt(chain: seq<nat>, p: nat, q: nat, j: nat)
    requires p <= q <= |chain| && j < q - p
    ensures chain[p..q][j] == chain[p + j] && chain[..p] + chain[p..q][..j] == chain[..p + j]
  {
  }

  lemma NextComposes(b: Backend, keys: Keys, id: BranchId, u: seq<nat>, v: seq<nat>, n0: nat, m: nat, n: nat)
    requires IsNext(b, keys, id, u, n0, m) && IsNext(b, keys, id, v, m, n)
    ensures IsNext(b, keys, id, u + v, n0, n)
  {
    assert forall h :: h in u + v <==> h in u || h in v;
  }

  /** A chain within the gap stays within it when it is scanned in batches, each taking up
      where the one before it stopped. */
  lemma BatchWithinGap(
    b: Backend, keys: Keys, chain: seq<nat>, p: nat, q: nat, batch: seq<nat>, start: Progress, mid: Progress)
    requires p <= q <= |chain| && batch == chain[p..q] && AllGapsWithin(b, keys, chain, start.branches)
    requires Reached(b, keys, chain, p, start, mid)
    ensures AllGapsWithin(b, keys, batch, mid.branches)
  {
    assert StandsAt(NextIndexes, b, keys, chain, p, start, mid);
    forall id, j | id in mid.branches && 0 <= j < |batch|
      ensures GapWithin(b, keys, id, batch, j, mid.branches[id].nextUnfound, mid.branches[id].window)
    {
      var n0, m := start.branches[id].nextUnfound, mid.branches[id].nextUnfound;
      assert GapWithin(b, keys, id, chain, p + j, n0, start.branches[id].window);
      SliceAt(chain, p, q, j);
      forall i: nat, n: nat | Uses(b, keys, batch[j], id, i) && IsNext(b, keys, id, batch[..j], m, n)
        ensures i < n || CountValid(keys.valid(id), n, i) < mid.branches[id].window
      {
        NextComposes(b, keys, id, chain[..p], batch[..j], n0, m, n);
      }
    }
  }

  lemma BranchesCompose(
    b: Backend, keys: Keys, chain: seq<nat>, p: nat, q: nat, batch: seq<nat>, start: Branches, mid: Branches, now: Branches)
    requires p <= q <= |chain| && batch == chain[p..q]
    requires BranchesUpTo(b, keys, chain, p, start, mid) && BranchesUpTo(b, keys, batch, |batch|, mid, now)
    ensures BranchesUpTo(b, keys, chain, q, start, now)
  {
    assert chain[..p] + batch[..|batch|] == chain[..q];
    forall id | id in start
      ensures IsNext(b, keys, id, chain[..q], start[id].nextUnfound, now[id].nextUnfound)
    {
      NextComposes(b, keys, id, chain[..p], batch[..|batch|], start[id].nextUnfound, mid[id].nextUnfound, now[id].nextUnfound);
    }
  }

  lemma UsedCompose(
    b: Backend, keys: Keys, chain: seq<nat>, p: nat, q: nat, batch: seq<nat>, ids: set<BranchId>,
    used0: set<(BranchId, nat)>, used1: set<(BranchId, nat)>, used2: set<(BranchId, nat)>)
    requires p <= q <= |chain| && batch == chain[p..q]
    requires UsedUpTo(b, keys, chain, p, ids, used0, used1) && UsedUpTo(b, keys, batch, |batch|, ids, used1, used2)
    ensures UsedUpTo(b, keys, chain, q, ids, used0, used2)
  {
    assert forall j :: p <= j < q ==> chain[j] == batch[j - p];
    assert forall j :: 0 <= j < q - p ==> batch[j] == chain[p + j];
  }

  /** What is known after some blocks of a batch is what is known there in the chain. */
  lemma KnownComposes(
    b: Backend, keys: Keys, chain: seq<nat>, p: nat, q: nat, batch: seq<nat>, ids: set<BranchId>,
    known: set<OutPoint>, mid: set<OutPoint>, j: nat, op: OutPoint)
    requires p <= q <= |chain| && batch == chain[p..q] && j <= |batch|
    requires op in mid <==> KnownBy(b, keys, ids, known, chain, p, op)
    ensures KnownBy(b, keys, ids, mid, batch, j, op) <==> KnownBy(b, keys, ids, known, chain, p + j, op)
  {
    assert forall k :: p <= k < q ==> chain[k] == batch[k - p];
    assert forall k :: 0 <= k < q - p ==> batch[k] == chain[p + k];
  }

  lemma ConcernsComposes(
    b: Backend, keys: Keys, chain: seq<nat>, p: nat, q: nat, batch: seq<nat>, ids: set<BranchId>,
    known: set<OutPoint>, mid: set<OutPoint>, j: nat, tx: Tx)
    requires p <= q <= |chain| && batch == chain[p..q] && j < |batch|
    requires forall op :: op in mid <==> KnownBy(b, keys, ids, known, chain, p, op)
    ensures Concerns(b, keys, ids, mid, batch, j, tx) <==> Concerns(b, keys, ids, known, chain, p + j, tx)
  {
    forall op
      ensures KnownBy(b, keys, ids, mid, batch, j, op) <==> KnownBy(b, keys, ids, known, chain, p + j, op)
    {
      KnownComposes(b, keys, chain, p, q, batch, ids, known, mid, j, op);
    }
    if b.fetch(batch[j]).Some? {
      var txs := b.fetch(batch[j]).value.txs;
      forall i | 0 <= i < |txs|
        ensures ConcernsGiven(b, keys, ids, mid, batch, j, txs[..i], tx) <==>
                  ConcernsGiven(b, keys, ids, known, chain, p + j, txs[..i], tx)
      {
      }
    }
  }

  lemma WatchedCompose(
    b: Backend, keys: Keys, chain: seq<nat>, p: nat, q: nat, batch: seq<nat>, ids: set<BranchId>,
    known: set<OutPoint>, mid: set<OutPoint>, watched: set<OutPoint>)
    requires p <= q <= |chain| && batch == chain[p..q]
    requires WatchedUpTo(b, keys, chain, p, ids, known, mid) && WatchedUpTo(b, keys, batch, |batch|, ids, mid, watched)
    ensures WatchedUpTo(b, keys, chain, q, ids, known, watched)
  {
    forall op
      ensures op in watched <==> KnownBy(b, keys, ids, known, chain, q, op)
    {
      KnownComposes(b, keys, chain, p, q, batch, ids, known, mid, |batch|, op);
    }
  }

  lemma RecordedCompose(
    b: Backend, keys: Keys, chain: seq<nat>, p: nat, q: nat, batch: seq<nat>, ids: set<BranchId>,
    known: set<OutPoint>, txs0: seq<Tx>, mid: set<OutPoint>, txs1: seq<Tx>, txs2: seq<Tx>)
    requires p <= q <= |chain| && batch == chain[p..q] && WatchedUpTo(b, keys, chain, p, ids, known, mid)
    requires RecordedUpTo(b, keys, chain, p, ids, known, txs0, txs1)
    requires RecordedUpTo(b, keys, batch, |batch|, ids, mid, txs1, txs2)
    ensures RecordedUpTo(b, keys, chain, q, ids, known, txs0, txs2)
  {
    forall tx, j | 0 <= j < |batch|
      ensures Concerns(b, keys, ids, mid, batch, j, tx) <==> Concerns(b, keys, ids, known, chain, p + j, tx)
    {
      ConcernsComposes(b, keys, chain, p, q, batch, ids, known, mid, j, tx);
    }
    forall tx
      ensures tx in txs2 <==> tx in txs0 || exists j :: 0 <= j < q && Concerns(b, keys, ids, known, chain, j, tx)
    {
      if j :| p <= j < q && Concerns(b, keys, ids, known, chain, j, tx) {
        assert Concerns(b, keys, ids, mid, batch, j - p, tx);
      }
    }
  }

  lemma UsedOnComposes(b: Backend, keys: Keys, chain: seq<nat>, p: nat, q: nat, batch: seq<nat>, id: BranchId)
    requires p <= q <= |chain| && batch == chain[p..q]
    ensures UsedOn(b, keys, chain, q, id) <==> UsedOn(b, keys, chain, p, id) || UsedOn(b, keys, batch, |batch|, id)
  {
    assert forall j :: p <= j < q ==> chain[j] == batch[j - p];
    assert forall j :: 0 <= j < q - p ==> batch[j] == chain[p + j];
  }

  lemma AskedCompose(
    b: Backend, keys: Keys, chain: seq<nat>, p: nat, q: nat, batch: seq<nat>, mid: Branches, now: Branches,
    asked0: Asks, asked1: Asks, asked2: Asks)
    requires p <= q <= |chain| && batch == chain[p..q] && BranchesUpTo(b, keys, batch, |batch|, mid, now)
    requires AskedUpTo(b, keys, chain, p, mid, asked0, asked1) && AskedUpTo(b, keys, batch, |batch|, now, asked1, asked2)
    ensures AskedUpTo(b, keys, chain, q, now, asked0, asked2)
  {
    forall id | id in now
      ensures AskedFor(UsedOn(b, keys, chain, q, id), now[id].nextUnfound, AsksOf(asked0, id), AsksOf(asked2, id))
    {
      UsedOnComposes(b, keys, chain, p, q, batch, id);
      assert batch[..|batch|] == batch;
      assert IsNext(b, keys, id, batch[..|batch|], mid[id].nextUnfound, now[id].nextUnfound);
    }
  }
}
