/** The rounds of the recovery of a batch of blocks (recoverScopedAddresses in
    wallet/wallet.go) on values: what every round keeps, and when it can go on. */
module RecoveryRounds {
  import opened Optional
  import opened Recovery
  import opened BlockFilter
  import opened FilterBlocks
  import opened KeyTree
  import opened RecoveryScan
  import opened CompactRecovery
  import opened RecoveryProgress

  /** The backend's answer to a request made now. */
  ghost predicate AnswerNow(b: Backend, now: Progress, rest: seq<nat>, answer: Answer) {
    var req := RequestOf(now.branches, now.watched, rest);
    exists w :: WatchFor(b, req, w) && AnswerOf(b, req, w, answer)
  }

  /** A full scan may be trusted in any case, a compact one if the blocks have the filters
      and the scripts for it. */
  ghost predicate Trusted(b: Backend, keys: Keys, scripts: Scripts, batch: seq<nat>, start: Progress) {
    b.compact ==> Filtered(b, keys, start.branches.Keys, batch, scripts) && WatchedTruly(b, scripts, start.watched)
  }

  lemma {:induction false} AnswerIsTrue(
    b: Backend, keys: Keys, scripts: Scripts, now: Progress, rest: seq<nat>, answer: Answer)
    requires Ready(keys, now) && AnswerNow(b, now, rest, answer) && Trusted(b, keys, scripts, rest, now)
    ensures answer == FullScan(b, WatchNow(b, now, rest), rest, 0)
  {
    var req := RequestOf(now.branches, now.watched, rest);
    var w :| WatchFor(b, req, w) && AnswerOf(b, req, w, answer);
    ReadyMeans(keys, now);
    RequestIsDistinct(keys, now.branches, now.watched, rest);
    WatchIsUnique(b, req, w);
    if b.compact {
      RequestIsTrustworthy(b, keys, now.branches, now.watched, rest, scripts);
    }
    AnswerIsFull(b, req, w, answer, scripts.spent);
  }

  lemma {:induction false} AnswerIsInside(b: Backend, now: Progress, rest: seq<nat>, answer: Answer)
    requires AnswerNow(b, now, rest, answer) && answer.Match?
    ensures answer.response.batchIndex < |rest|
  {
    var req := RequestOf(now.branches, now.watched, rest);
    var w :| WatchFor(b, req, w) && AnswerOf(b, req, w, answer);
    if b.compact {
      var list :| IsWatchList(b, req, list) && answer == CompactScan(b, w, list, req.blocks, 0);
      var k := CompactScanEnds(b, w, list, rest, 0);
    } else {
      var k := FullScanEnds(b, w, rest, 0);
    }
  }

  /** All the children that the extensions have derived since the start can be derived. */
  ghost predicate AllDerived(keys: Keys, start: Branches, now: Branches) {
    && now.Keys == start.Keys
    && forall id :: id in start ==>
         start[id].horizon <= now[id].horizon && AllDerivable(keys, id, start[id].horizon, now[id].horizon)
  }

  /** All that the managers were asked to extend since the start was granted. */
  ghost predicate AllGranted(keys: Keys, start: Asks, now: Asks) {
    forall id, last :: last in AsksOf(now, id) && last !in AsksOf(start, id) ==> keys.grants(id)(last)
  }

  /** How far the children must be derivable for a branch that no block uses from `limit` on. */
  function Bound(br: Branch, limit: nat): nat {
    limit + br.window + |br.invalidChildren|
  }

  /** The blocks can be fetched and use each branch below its limit only. The children up to a
      window beyond that can be derived, and the extensions up to there are granted. */
  ghost predicate Enough(b: Backend, keys: Keys, batch: seq<nat>, start: Branches, limits: map<BranchId, nat>) {
    && (forall h :: h in batch ==> b.fetch(h).Some?)
    && start.Keys <= limits.Keys
    && forall id :: id in start ==>
         && start[id].nextUnfound <= limits[id]
         && (forall h, i: nat :: h in batch && Uses(b, keys, h, id, i) ==> i < limits[id])
         && AllDerivable(keys, id, start[id].horizon, Bound(start[id], limits[id]))
         && forall i: nat :: i < limits[id] ==> keys.grants(id)(i)
  }

  /** The branch has not gone beyond its limit, and has met no invalid child. */
  predicate BranchWithin(start: Branch, limit: nat, now: Branch) {
    && now.nextUnfound <= limit && now.window == start.window
    && now.invalidChildren <= start.invalidChildren && start.horizon <= now.horizon
  }

  ghost predicate Within(start: Branches, limits: map<BranchId, nat>, now: Branches)
    requires start.Keys <= limits.Keys
  {
    now.Keys == start.Keys && forall id :: id in start ==> BranchWithin(start[id], limits[id], now[id])
  }

  datatype Part = Watches | Derives | Asked | Arrives | Truthful | Bounded

  ghost predicate Keeps(
    part: Part, b: Backend, keys: Keys, scripts: Scripts, batch: seq<nat>, p: nat, limits: map<BranchId, nat>,
    start: Progress, now: Progress)
    requires p <= |batch|
  {
    match part
    case Watches => AllWatching(keys, now.branches)
    case Derives => AllDerived(keys, start.branches, now.branches)
    case Asked => AllGranted(keys, start.asked, now.asked)
    case Arrives =>
      Trusted(b, keys, scripts, batch, start) && AllGapsWithin(b, keys, batch, start.branches) ==>
        Reached(b, keys, batch, p, start, now)
    case Truthful => Trusted(b, keys, scripts, batch, start) && b.compact ==> WatchedTruly(b, scripts, now.watched)
    case Bounded =>
      Trusted(b, keys, scripts, batch, start) && Enough(b, keys, batch, start.branches, limits) ==>
        Within(start.branches, limits, now.branches)
  }

  /** What holds when the first p blocks are done. */
  ghost predicate DoneUpTo(
    b: Backend, keys: Keys, scripts: Scripts, batch: seq<nat>, p: nat, limits: map<BranchId, nat>,
    start: Progress, now: Progress)
    requires p <= |batch|
  {
    forall part :: Keeps(part, b, keys, scripts, batch, p, limits, start, now)
  }

  lemma DoneMeans(
    b: Backend, keys: Keys, scripts: Scripts, batch: seq<nat>, p: nat, limits: map<BranchId, nat>,
    start: Progress, now: Progress)
    requires p <= |batch| && DoneUpTo(b, keys, scripts, batch, p, limits, start, now)
    ensures AllWatching(keys, now.branches)
    ensures AllDerived(keys, start.branches, now.branches) && AllGranted(keys, start.asked, now.asked)
    ensures Trusted(b, keys, scripts, batch, start) && AllGapsWithin(b, keys, batch, start.branches) ==>
              Reached(b, keys, batch, p, start, now)
  {
    assert Keeps(Watches, b, keys, scripts, batch, p, limits, start, now);
    assert Keeps(Derives, b, keys, scripts, batch, p, limits, start, now);
    assert Keeps(Asked, b, keys, scripts, batch, p, limits, start, now);
    assert Keeps(Arrives, b, keys, scripts, batch, p, limits, start, now);
  }

  lemma StartDone(
    b: Backend, keys: Keys, scripts: Scripts, batch: seq<nat>, limits: map<BranchId, nat>, start: Progress)
    requires AllWatching(keys, start.branches)
    ensures DoneUpTo(b, keys, scripts, batch, 0, limits, start, start)
  {
    StartReached(b, keys, batch, start);
  }

  lemma StillTrusted(
    b: Backend, keys: Keys, scripts: Scripts, batch: seq<nat>, p: nat, q: nat, part: seq<nat>, limits: map<BranchId, nat>,
    start: Progress, now: Progress)
    requires p <= q <= |batch| && part == batch[p..q] && DoneUpTo(b, keys, scripts, batch, p, limits, start, now)
    requires Trusted(b, keys, scripts, batch, start)
    ensures Trusted(b, keys, scripts, part, now)
  {
    assert Keeps(Derives, b, keys, scripts, batch, p, limits, start, now);
    assert Keeps(Truthful, b, keys, scripts, batch, p, limits, start, now);
    assert forall h :: h in part ==> h in batch;
  }

  lemma CanExpandWithin(keys: Keys, id: BranchId, start: Branch, limit: nat, now: Branch)
    requires BranchWithin(start, limit, now) && AllDerivable(keys, id, start.horizon, Bound(start, limit))
    ensures CanExpand(keys, id, now)
  {
    SubsetSize(InvalidAhead(now), start.invalidChildren);
  }

  lemma {:induction false} SubsetSize(a: set<nat>, b: set<nat>)
    requires a <= b
    ensures |a| <= |b|
  {
    assert b == a + (b - a);
  }

  predicate AllCanExpand(keys: Keys, branches: Branches) {
    forall id :: id in branches ==> CanExpand(keys, id, branches[id])
  }

  /** With enough keys, every look-ahead can be extended. */
  lemma CanGoOn(
    b: Backend, keys: Keys, scripts: Scripts, batch: seq<nat>, p: nat, limits: map<BranchId, nat>,
    start: Progress, now: Progress)
    requires p <= |batch| && DoneUpTo(b, keys, scripts, batch, p, limits, start, now)
    requires Trusted(b, keys, scripts, batch, start) && Enough(b, keys, batch, start.branches, limits)
    ensures AllCanExpand(keys, now.branches)
  {
    assert Keeps(Bounded, b, keys, scripts, batch, p, limits, start, now);
    forall id | id in now.branches
      ensures CanExpand(keys, id, now.branches[id])
    {
      CanExpandWithin(keys, id, start.branches[id], limits[id], now.branches[id]);
    }
  }

  /** What an extension that succeeds changes. */
  lemma {:induction false} ExpandedKeeps(keys: Keys, id: BranchId, br: Branch)
    requires GoodKeys(keys) && CanExpand(keys, id, br)
    ensures
      var br' := ExpandedOn(keys, id, br);
      && br'.horizon == br.horizon + Missing(br) && br'.window == br.window
      && br'.nextUnfound == br.nextUnfound && br'.invalidChildren == br.invalidChildren
  {
    NoneUnderivable(keys, id, br.horizon, br.horizon + Missing(br));
    ExpandedOverValid(br, keys.valid(id), keys.addr(id));
  }

  lemma DerivableOn(keys: Keys, id: BranchId, lo: nat, mid: nat, hi: nat)
    requires AllDerivable(keys, id, lo, mid) && AllDerivable(keys, id, mid, hi)
    ensures AllDerivable(keys, id, lo, hi)
  {
  }

  lemma {:induction false} ExtendedDerived(keys: Keys, start: Branches, before: Branches, now: Branches)
    requires GoodKeys(keys) && AllDerived(keys, start, before) && now.Keys == before.Keys && AllCanExpand(keys, before)
    requires forall id :: id in before ==> now[id] == ExpandedOn(keys, id, before[id])
    ensures AllDerived(keys, start, now)
  {
    forall id | id in start
      ensures start[id].horizon <= now[id].horizon && AllDerivable(keys, id, start[id].horizon, now[id].horizon)
    {
      ExpandedKeeps(keys, id, before[id]);
      DerivableOn(keys, id, start[id].horizon, before[id].horizon, now[id].horizon);
    }
  }

  lemma {:induction false} ExtendedWithin(
    keys: Keys, start: Branches, limits: map<BranchId, nat>, before: Branches, now: Branches)
    requires GoodKeys(keys) && start.Keys <= limits.Keys && Within(start, limits, before)
    requires now.Keys == before.Keys && AllCanExpand(keys, before)
    requires forall id :: id in before ==> now[id] == ExpandedOn(keys, id, before[id])
    ensures Within(start, limits, now)
  {
    forall id | id in start
      ensures BranchWithin(start[id], limits[id], now[id])
    {
      ExpandedKeeps(keys, id, before[id]);
    }
  }

  lemma {:induction false} ExtendedReady(
    b: Backend, keys: Keys, scripts: Scripts, batch: seq<nat>, p: nat, limits: map<BranchId, nat>,
    start: Progress, before: Progress, now: Progress)
    requires p <= |batch| && DoneUpTo(b, keys, scripts, batch, p, limits, start, before)
    requires GoodKeys(keys) && Extended(keys, before, now)
    ensures Ready(keys, now)
  {
    assert Keeps(Watches, b, keys, scripts, batch, p, limits, start, before);
    ExtendedIsReady(keys, before, now);
  }

  lemma ReadyWatches(keys: Keys, now: Progress)
    requires Ready(keys, now)
    ensures AllWatching(keys, now.branches)
  {
    ReadyMeans(keys, now);
  }

  /** Extending every look-ahead keeps what was reached. */
  lemma {:induction false} ExtendedDone(
    b: Backend, keys: Keys, scripts: Scripts, batch: seq<nat>, p: nat, limits: map<BranchId, nat>,
    start: Progress, before: Progress, now: Progress)
    requires p <= |batch| && DoneUpTo(b, keys, scripts, batch, p, limits, start, before)
    requires GoodKeys(keys) && Extended(keys, before, now) && AllCanExpand(keys, before.branches)
    ensures Ready(keys, now) && DoneUpTo(b, keys, scripts, batch, p, limits, start, now)
  {
    ExtendedReady(b, keys, scripts, batch, p, limits, start, before, now);
    assert now == before.(branches := now.branches);
    forall part
      ensures Keeps(part, b, keys, scripts, batch, p, limits, start, now)
    {
      assert Keeps(part, b, keys, scripts, batch, p, limits, start, before);
      match part
      case Watches => ReadyWatches(keys, now);
      case Derives => ExtendedDerived(keys, start.branches, before.branches, now.branches);
      case Arrives =>
        if Reached(b, keys, batch, p, start, before) {
          ExtendedReached(b, keys, batch, p, start, before, now);
        }
      case Bounded =>
        if Trusted(b, keys, scripts, batch, start) && Enough(b, keys, batch, start.branches, limits) {
          ExtendedWithin(keys, start.branches, limits, before.branches, now.branches);
        }
      case _ =>
    }
  }

  /** The position of the matching block, or the end of the batch. */
  function MatchOf(answer: Answer, p: nat, n: nat): nat {
    if answer.Match? then p + answer.response.batchIndex else n
  }

  /** The number of blocks that are done after a round that started at block p. */
  function EndOf(answer: Answer, p: nat, n: nat): nat {
    if answer.Match? then p + answer.response.batchIndex + 1 else n
  }

  function FoundIn(resp: Response): Found {
    Found(resp.foundExternal, resp.foundInternal, resp.foundOutPoints, resp.relevantTxns)
  }

  lemma {:induction false} TrueAnswer(
    b: Backend, keys: Keys, scripts: Scripts, batch: seq<nat>, p: nat, limits: map<BranchId, nat>,
    start: Progress, now: Progress, answer: Answer)
    requires p <= |batch| && DoneUpTo(b, keys, scripts, batch, p, limits, start, now)
    requires Ready(keys, now) && AnswerNow(b, now, batch[p..], answer) && Trusted(b, keys, scripts, batch, start)
    ensures answer == FullScan(b, WatchNow(b, now, batch[p..]), batch[p..], 0)
  {
    StillTrusted(b, keys, scripts, batch, p, |batch|, batch[p..], limits, start, now);
    AnswerIsTrue(b, keys, scripts, now, batch[p..], answer);
  }

  /** The scan fails only if a block cannot be fetched, or if a compact one cannot be trusted. */
  lemma {:induction false} ScanAnswers(
    b: Backend, keys: Keys, scripts: Scripts, batch: seq<nat>, p: nat, limits: map<BranchId, nat>,
    start: Progress, now: Progress, answer: Answer)
    requires p <= |batch| && DoneUpTo(b, keys, scripts, batch, p, limits, start, now)
    requires Ready(keys, now) && AnswerNow(b, now, batch[p..], answer)
    requires Trusted(b, keys, scripts, batch, start) && forall h :: h in batch ==> b.fetch(h).Some?
    ensures !answer.Failed?
  {
    var rest := batch[p..];
    TrueAnswer(b, keys, scripts, batch, p, limits, start, now, answer);
    var k := FullScanEnds(b, WatchNow(b, now, rest), rest, 0);
    assert k < |rest| ==> rest[k] in batch;
  }

  /** The blocks that a trusted scan passes over mean nothing. */
  lemma {:induction false} ScanReached(
    b: Backend, keys: Keys, batch: seq<nat>, p: nat, start: Progress, now: Progress, answer: Answer)
    requires p <= |batch| && Ready(keys, now) && !answer.Failed?
    requires answer == FullScan(b, WatchNow(b, now, batch[p..]), batch[p..], 0)
    requires AllGapsWithin(b, keys, batch, start.branches) && Reached(b, keys, batch, p, start, now)
    ensures MatchOf(answer, p, |batch|) <= |batch| && Reached(b, keys, batch, MatchOf(answer, p, |batch|), start, now)
  {
    var rest := batch[p..];
    var w := WatchNow(b, now, rest);
    var k := FullScanEnds(b, w, rest, 0);
    var q := MatchOf(answer, p, |batch|);
    forall j | p <= j < q
      ensures FindsNothing(b, w, batch[j])
    {
      assert batch[j] == rest[j - p];
    }
    NothingInEach(b, w, batch, p, q);
    SkippedAdvance(b, keys, batch, p, q, start, now, rest, w);
  }

  /** A scan keeps what was reached, up to the first match. */
  lemma {:induction false} ScanDone(
    b: Backend, keys: Keys, scripts: Scripts, batch: seq<nat>, p: nat, limits: map<BranchId, nat>,
    start: Progress, now: Progress, answer: Answer)
    requires p <= |batch| && DoneUpTo(b, keys, scripts, batch, p, limits, start, now)
    requires Ready(keys, now) && AnswerNow(b, now, batch[p..], answer) && !answer.Failed?
    ensures answer.Match? ==> MatchOf(answer, p, |batch|) < |batch|
    ensures MatchOf(answer, p, |batch|) <= |batch|
    ensures DoneUpTo(b, keys, scripts, batch, MatchOf(answer, p, |batch|), limits, start, now)
  {
    if answer.Match? {
      AnswerIsInside(b, now, batch[p..], answer);
    }
    var q := MatchOf(answer, p, |batch|);
    forall part
      ensures Keeps(part, b, keys, scripts, batch, q, limits, start, now)
    {
      assert Keeps(part, b, keys, scripts, batch, p, limits, start, now);
      if part == Arrives && Trusted(b, keys, scripts, batch, start) && AllGapsWithin(b, keys, batch, start.branches) {
        TrueAnswer(b, keys, scripts, batch, p, limits, start, now, answer);
        ScanReached(b, keys, batch, p, start, now, answer);
      }
    }
  }

  /** The findings are those of the block at position q. */
  ghost predicate FoundAt(b: Backend, batch: seq<nat>, q: nat, now: Progress, rest: seq<nat>, f: Found) {
    && q < |batch| && b.fetch(batch[q]).Some?
    && f == BlockFound(WatchNow(b, now, rest), NothingFound, b.fetch(batch[q]).value.txs)
  }

  lemma {:induction false} MatchIsFound(
    b: Backend, keys: Keys, scripts: Scripts, batch: seq<nat>, p: nat, limits: map<BranchId, nat>,
    start: Progress, now: Progress, answer: Answer)
    requires p <= |batch| && DoneUpTo(b, keys, scripts, batch, p, limits, start, now)
    requires Ready(keys, now) && AnswerNow(b, now, batch[p..], answer) && answer.Match?
    requires Trusted(b, keys, scripts, batch, start)
    ensures FoundAt(b, batch, MatchOf(answer, p, |batch|), now, batch[p..], FoundIn(answer.response))
  {
    var rest := batch[p..];
    TrueAnswer(b, keys, scripts, batch, p, limits, start, now, answer);
    var k := FullScanEnds(b, WatchNow(b, now, rest), rest, 0);
    assert rest[answer.response.batchIndex] == batch[MatchOf(answer, p, |batch|)];
  }

  lemma UsesBelow(
    b: Backend, keys: Keys, batch: seq<nat>, q: nat, start: Branches, limits: map<BranchId, nat>, id: BranchId, i: nat)
    requires q < |batch| && Enough(b, keys, batch, start, limits) && id in start && Uses(b, keys, batch[q], id, i)
    ensures i < limits[id]
  {
  }

  /** What is found in a block is what it uses. */
  lemma {:induction false} FoundAtIsUsed(
    b: Backend, keys: Keys, batch: seq<nat>, q: nat, now: Progress, rest: seq<nat>, f: Found, id: BranchId, i: nat)
    requires Ready(keys, now) && FoundAt(b, batch, q, now, rest, f)
    requires id in now.branches && i in FoundOf(f.external, f.internal, id)
    ensures Uses(b, keys, batch[q], id, i)
  {
    ReadyMeans(keys, now);
    FoundIsUsed(b, keys, now.branches, now.watched, rest, b.fetch(batch[q]).value.txs, id, i);
  }

  /** What a trusted scan finds is below the limit. */
  lemma {:induction false} FoundIsBelow(
    b: Backend, keys: Keys, batch: seq<nat>, q: nat, start: Branches, limits: map<BranchId, nat>,
    now: Progress, rest: seq<nat>, f: Found, id: BranchId)
    requires Ready(keys, now) && FoundAt(b, batch, q, now, rest, f)
    requires Enough(b, keys, batch, start, limits) && id in start && id in now.branches
    ensures forall i :: i in FoundOf(f.external, f.internal, id) ==> i < limits[id]
  {
    forall i | i in FoundOf(f.external, f.internal, id)
      ensures i < limits[id]
    {
      FoundAtIsUsed(b, keys, batch, q, now, rest, f, id, i);
      UsesBelow(b, keys, batch, q, start, limits, id, i);
    }
  }

  lemma ReportedWithin(start: Branch, limit: nat, now: Branch, found: set<nat>, now': Branch)
    requires BranchWithin(start, limit, now) && AllReported(now, found, now') && forall i :: i in found ==> i < limit
    ensures BranchWithin(start, limit, now')
    ensures found != {} ==> LastFound(now') < limit
  {
    ReportedMeans(now, found, now');
    if i :| i in found {
      assert i < now'.nextUnfound;
    }
  }

  /** The manager grants what it is asked for in a branch. */
  predicate GrantedIn(keys: Keys, f: Found, id: BranchId, br: Branch) {
    FoundOf(f.external, f.internal, id) != {} ==> keys.grants(id)(LastFound(br))
  }

  predicate AllGrantedIn(keys: Keys, f: Found, branches: Branches) {
    forall id :: id in branches ==> GrantedIn(keys, f, id, branches[id])
  }

  /** Once the findings of some branch are reported, the manager does not grant what is asked
      of it. */
  ghost predicate Refused(keys: Keys, f: Found, branches: Branches) {
    exists id, br ::
      id in branches && AllReported(branches[id], FoundOf(f.external, f.internal, id), br) && !GrantedIn(keys, f, id, br)
  }

  datatype Side = Findings | Grants

  ghost predicate TakenOn(
    side: Side, keys: Keys, f: Found, was: Progress, done: Branches, used: set<(BranchId, nat)>, asked: Asks)
  {
    match side
    case Findings => FoundExtended(f, was, done, used, asked)
    case Grants => AllGrantedIn(keys, f, done)
  }

  /** The findings in some of the branches have been taken over, and the extensions that they
      ask for granted. */
  ghost predicate TakenSoFar(
    keys: Keys, f: Found, was: Progress, done: Branches, used: set<(BranchId, nat)>, asked: Asks)
  {
    forall side :: TakenOn(side, keys, f, was, done, used, asked)
  }

  lemma NothingTaken(keys: Keys, f: Found, was: Progress)
    ensures TakenSoFar(keys, f, was, map[], was.used, was.asked)
  {
  }

  lemma OneMoreTaken(
    keys: Keys, f: Found, was: Progress, done: Branches, used: set<(BranchId, nat)>, asked: Asks,
    id: BranchId, br: Branch, used': set<(BranchId, nat)>, asked': Asks)
    requires TakenSoFar(keys, f, was, done, used, asked) && id in was.branches && id !in done
    requires AllReported(was.branches[id], FoundOf(f.external, f.internal, id), br) && GrantedIn(keys, f, id, br)
    requires used' == used + set i | i in FoundOf(f.external, f.internal, id) :: (id, i)
    requires forall x :: AsksOf(asked', x) ==
               AsksOf(asked, x) + if x == id then AskAfter(FoundOf(f.external, f.internal, id), br) else {}
    ensures TakenSoFar(keys, f, was, done[id := br], used', asked')
  {
    assert TakenOn(Grants, keys, f, was, done, used, asked) && TakenOn(Findings, keys, f, was, done, used, asked);
    FoundExtendedOneMore(f, was, done, used, asked, id, br, used', asked');
  }

  lemma TakenGranted(keys: Keys, start: Asks, now: Progress, f: Found, now': Progress)
    requires AllGranted(keys, start, now.asked) && TakenOver(now, f, now')
    requires AllGrantedIn(keys, f, now'.branches)
    ensures AllGranted(keys, start, now'.asked)
  {
    assert ExtendedIn(Extensions, f, now, now'.branches, now'.used, now'.asked);
    forall id, last | last in AsksOf(now'.asked, id) && last !in AsksOf(start, id)
      ensures keys.grants(id)(last)
    {
      if last !in AsksOf(now.asked, id) {
        assert id in now'.branches && last in AskAfter(FoundOf(f.external, f.internal, id), now'.branches[id]);
      }
    }
  }

  lemma TakenDerived(keys: Keys, start: Branches, now: Progress, f: Found, now': Progress)
    requires AllDerived(keys, start, now.branches) && TakenOver(now, f, now')
    ensures AllDerived(keys, start, now'.branches)
  {
    assert ExtendedIn(NextIndexes, f, now, now'.branches, now'.used, now'.asked);
    forall id | id in start
      ensures now'.branches[id].horizon == now.branches[id].horizon
    {
      ReportedMeans(now.branches[id], FoundOf(f.external, f.internal, id), now'.branches[id]);
    }
  }

  lemma TakenWatches(keys: Keys, now: Progress, f: Found, now': Progress)
    requires Ready(keys, now) && TakenOver(now, f, now')
    ensures AllWatching(keys, now'.branches)
  {
    ReadyMeans(keys, now);
    TakenOverKeepsWatching(keys, now, f, now');
  }

  lemma {:induction false} TakenReached(
    b: Backend, keys: Keys, batch: seq<nat>, q: nat, next: nat, start: Progress, now: Progress, rest: seq<nat>, f: Found,
    now': Progress)
    requires Ready(keys, now) && FoundAt(b, batch, q, now, rest, f) && TakenOver(now, f, now') && next == q + 1
    requires AllGapsWithin(b, keys, batch, start.branches) && Reached(b, keys, batch, q, start, now)
    ensures Reached(b, keys, batch, next, start, now')
  {
    NextBlock(b, keys, batch, q, start, now, rest, f);
    MatchedAdvance(b, keys, batch, q, next, start, now, f, now');
  }

  lemma {:induction false} TakenTruly(
    b: Backend, keys: Keys, scripts: Scripts, batch: seq<nat>, q: nat, now: Progress, rest: seq<nat>, f: Found,
    now': Progress)
    requires Ready(keys, now) && FoundAt(b, batch, q, now, rest, f) && TakenOver(now, f, now')
    requires Filtered(b, keys, now.branches.Keys, batch, scripts) && WatchedTruly(b, scripts, now.watched)
    ensures WatchedTruly(b, scripts, now'.watched)
  {
    assert batch[q] in batch;
    ReadyMeans(keys, now);
    FoundIsWatchedTruly(
      b, keys, now.branches, now.watched, rest, b.fetch(batch[q]).value, scripts, WatchNow(b, now, rest));
  }

  /** With enough keys, the findings keep every branch within its limit, and the manager
      grants the extension that they ask for. */
  lemma {:induction false} FoundIsGranted(
    b: Backend, keys: Keys, batch: seq<nat>, q: nat, start: Branches, limits: map<BranchId, nat>,
    now: Progress, rest: seq<nat>, f: Found, id: BranchId, br: Branch)
    requires Ready(keys, now) && FoundAt(b, batch, q, now, rest, f)
    requires Enough(b, keys, batch, start, limits) && id in start && id in now.branches
    requires BranchWithin(start[id], limits[id], now.branches[id])
    requires AllReported(now.branches[id], FoundOf(f.external, f.internal, id), br)
    ensures BranchWithin(start[id], limits[id], br) && GrantedIn(keys, f, id, br)
  {
    FoundIsBelow(b, keys, batch, q, start, limits, now, rest, f, id);
    ReportedWithin(start[id], limits[id], now.branches[id], FoundOf(f.external, f.internal, id), br);
  }

  lemma {:induction false} NeverRefused(
    b: Backend, keys: Keys, scripts: Scripts, batch: seq<nat>, p: nat, q: nat, limits: map<BranchId, nat>,
    start: Progress, now: Progress, rest: seq<nat>, f: Found)
    requires p <= |batch| && DoneUpTo(b, keys, scripts, batch, p, limits, start, now) && Ready(keys, now)
    requires Trusted(b, keys, scripts, batch, start) && Enough(b, keys, batch, start.branches, limits)
    requires FoundAt(b, batch, q, now, rest, f)
    ensures !Refused(keys, f, now.branches)
  {
    assert Keeps(Bounded, b, keys, scripts, batch, p, limits, start, now);
    forall id, br | id in now.branches && AllReported(now.branches[id], FoundOf(f.external, f.internal, id), br)
      ensures GrantedIn(keys, f, id, br)
    {
      FoundIsGranted(b, keys, batch, q, start.branches, limits, now, rest, f, id, br);
    }
  }

  lemma {:induction false} TakenWithin(
    b: Backend, keys: Keys, batch: seq<nat>, q: nat, start: Branches, limits: map<BranchId, nat>,
    now: Progress, rest: seq<nat>, f: Found, now': Progress)
    requires Ready(keys, now) && FoundAt(b, batch, q, now, rest, f)
    requires Enough(b, keys, batch, start, limits) && Within(start, limits, now.branches) && TakenOver(now, f, now')
    ensures Within(start, limits, now'.branches)
  {
    assert ExtendedIn(NextIndexes, f, now, now'.branches, now'.used, now'.asked);
    forall id | id in start
      ensures BranchWithin(start[id], limits[id], now'.branches[id])
    {
      FoundIsGranted(b, keys, batch, q, start, limits, now, rest, f, id, now'.branches[id]);
    }
  }

  /** Taking over what the block at position q revealed: the block is done. */
  lemma {:induction false} TakenDone(
    b: Backend, keys: Keys, scripts: Scripts, batch: seq<nat>, q: nat, next: nat, limits: map<BranchId, nat>,
    start: Progress, now: Progress, rest: seq<nat>, f: Found, now': Progress)
    requires q < |batch| && next == q + 1 && DoneUpTo(b, keys, scripts, batch, q, limits, start, now) && Ready(keys, now)
    requires Trusted(b, keys, scripts, batch, start) ==> FoundAt(b, batch, q, now, rest, f)
    requires TakenOver(now, f, now') && AllGrantedIn(keys, f, now'.branches)
    ensures DoneUpTo(b, keys, scripts, batch, next, limits, start, now')
  {
    assert Keeps(Derives, b, keys, scripts, batch, q, limits, start, now);
    forall part
      ensures Keeps(part, b, keys, scripts, batch, next, limits, start, now')
    {
      assert Keeps(part, b, keys, scripts, batch, q, limits, start, now);
      match part
      case Watches => TakenWatches(keys, now, f, now');
      case Derives => TakenDerived(keys, start.branches, now, f, now');
      case Asked => TakenGranted(keys, start.asked, now, f, now');
      case Arrives =>
        if Trusted(b, keys, scripts, batch, start) && AllGapsWithin(b, keys, batch, start.branches) {
          TakenReached(b, keys, batch, q, next, start, now, rest, f, now');
        }
      case Truthful =>
        if Trusted(b, keys, scripts, batch, start) && b.compact {
          TakenTruly(b, keys, scripts, batch, q, now, rest, f, now');
        }
      case Bounded =>
        if Trusted(b, keys, scripts, batch, start) && Enough(b, keys, batch, start.branches, limits) {
          TakenWithin(b, keys, batch, q, start.branches, limits, now, rest, f, now');
        }
    }
  }

  /** A round that takes over the findings of a match is done with the matching block. */
  lemma {:induction false} MatchTaken(
    b: Backend, keys: Keys, scripts: Scripts, batch: seq<nat>, p: nat, limits: map<BranchId, nat>,
    start: Progress, now: Progress, answer: Answer, now': Progress)
    requires p <= |batch| && DoneUpTo(b, keys, scripts, batch, p, limits, start, now)
    requires Ready(keys, now) && AnswerNow(b, now, batch[p..], answer) && answer.Match?
    requires TakenOver(now, FoundIn(answer.response), now') && AllGrantedIn(keys, FoundIn(answer.response), now'.branches)
    ensures EndOf(answer, p, |batch|) <= |batch|
    ensures DoneUpTo(b, keys, scripts, batch, EndOf(answer, p, |batch|), limits, start, now')
  {
    var q, next := MatchOf(answer, p, |batch|), EndOf(answer, p, |batch|);
    ScanDone(b, keys, scripts, batch, p, limits, start, now, answer);
    if Trusted(b, keys, scripts, batch, start) {
      MatchIsFound(b, keys, scripts, batch, p, limits, start, now, answer);
    }
    TakenDone(b, keys, scripts, batch, q, next, limits, start, now, batch[p..], FoundIn(answer.response), now');
  }

  /** With enough keys, the findings of a match are never refused. */
  lemma {:induction false} MatchGranted(
    b: Backend, keys: Keys, scripts: Scripts, batch: seq<nat>, p: nat, limits: map<BranchId, nat>,
    start: Progress, now: Progress, answer: Answer)
    requires p <= |batch| && DoneUpTo(b, keys, scripts, batch, p, limits, start, now)
    requires Ready(keys, now) && AnswerNow(b, now, batch[p..], answer) && answer.Match?
    requires Trusted(b, keys, scripts, batch, start) && Enough(b, keys, batch, start.branches, limits)
    ensures !Refused(keys, FoundIn(answer.response), now.branches)
  {
    var q := MatchOf(answer, p, |batch|);
    MatchIsFound(b, keys, scripts, batch, p, limits, start, now, answer);
    NeverRefused(b, keys, scripts, batch, p, q, limits, start, now, batch[p..], FoundIn(answer.response));
  }

  lemma WithinOn(start: Branches, limits: map<BranchId, nat>, mid: Branches, now: Branches)
    requires start.Keys <= limits.Keys && Within(start, limits, mid) && Within(mid, limits, now)
    ensures Within(start, limits, now)
  {
  }

  /** What is enough for a chain is enough for a batch of it. */
  lemma EnoughForBatch(
    b: Backend, keys: Keys, chain: seq<nat>, p: nat, q: nat, batch: seq<nat>, start: Branches, limits: map<BranchId, nat>,
    mid: Branches)
    requires p <= q <= |chain| && batch == chain[p..q]
    requires Enough(b, keys, chain, start, limits) && Within(start, limits, mid)
    ensures Enough(b, keys, batch, mid, limits)
  {
    assert forall h :: h in batch ==> h in chain;
    forall id | id in mid
      ensures AllDerivable(keys, id, mid[id].horizon, Bound(mid[id], limits[id]))
    {
      SubsetSize(mid[id].invalidChildren, start[id].invalidChildren);
    }
  }

  lemma BatchCanGoOn(
    b: Backend, keys: Keys, scripts: Scripts, chain: seq<nat>, p: nat, q: nat, batch: seq<nat>,
    limits: map<BranchId, nat>, start: Progress, mid: Progress)
    requires p <= q <= |chain| && batch == chain[p..q]
    requires DoneUpTo(b, keys, scripts, chain, p, limits, start, mid)
    requires Trusted(b, keys, scripts, chain, start) && Enough(b, keys, chain, start.branches, limits)
    ensures Trusted(b, keys, scripts, batch, mid) && Enough(b, keys, batch, mid.branches, limits)
  {
    assert Keeps(Bounded, b, keys, scripts, chain, p, limits, start, mid);
    StillTrusted(b, keys, scripts, chain, p, q, batch, limits, start, mid);
    EnoughForBatch(b, keys, chain, p, q, batch, start.branches, limits, mid.branches);
  }

  /** What a batch of a chain keeps, after what the batches before it kept. */
  lemma {:induction false} DoneComposes(
    b: Backend, keys: Keys, scripts: Scripts, chain: seq<nat>, p: nat, q: nat, batch: seq<nat>,
    limits: map<BranchId, nat>, start: Progress, mid: Progress, now: Progress)
    requires p <= q <= |chain| && batch == chain[p..q]
    requires DoneUpTo(b, keys, scripts, chain, p, limits, start, mid)
    requires DoneUpTo(b, keys, scripts, batch, |batch|, limits, mid, now)
    ensures DoneUpTo(b, keys, scripts, chain, q, limits, start, now)
  {
    forall part
      ensures Keeps(part, b, keys, scripts, chain, q, limits, start, now)
    {
      assert Keeps(part, b, keys, scripts, chain, p, limits, start, mid);
      assert Keeps(part, b, keys, scripts, batch, |batch|, limits, mid, now);
      if Trusted(b, keys, scripts, chain, start) {
        StillTrusted(b, keys, scripts, chain, p, q, batch, limits, start, mid);
      }
      match part
      case Arrives =>
        if Trusted(b, keys, scripts, chain, start) && AllGapsWithin(b, keys, chain, start.branches) {
          BatchWithinGap(b, keys, chain, p, q, batch, start, mid);
          ReachedComposes(b, keys, chain, p, q, batch, start, mid, now);
        }
      case Bounded =>
        if Trusted(b, keys, scripts, chain, start) && Enough(b, keys, chain, start.branches, limits) {
          EnoughForBatch(b, keys, chain, p, q, batch, start.branches, limits, mid.branches);
          WithinOn(start.branches, limits, mid.branches, now.branches);
        }
      case _ =>
    }
  }
}
