/** The recovery of a batch of blocks (recoverScopedAddresses in wallet/wallet.go), and what
    it is for: every address used on chain is found. */
module RecoveryDriver {
  import opened ChainData
  import opened Optional
  import opened Recovery
  import opened BlockFilter
  import opened FilterBlocks
  import opened KeyTree
  import opened RecoveryScan
  import opened CompactRecovery
  import opened RecoveryProgress
  import opened RecoveryRounds

  /** The branches with all look-aheads but those of `rest` extended. */
  ghost function AllExpanded(keys: Keys, was: Branches, rest: set<BranchId>): Branches
    requires GoodKeys(keys)
  {
    map id | id in was :: if id in rest then was[id] else ExpandedOn(keys, id, was[id])
  }

  lemma AllLeft(keys: Keys, was: Branches)
    requires GoodKeys(keys)
    ensures AllExpanded(keys, was, was.Keys) == was
  {
  }

  lemma OneMoreExpanded(keys: Keys, was: Branches, rest: set<BranchId>, id: BranchId)
    requires GoodKeys(keys) && id in rest && id in was
    ensures AllExpanded(keys, was, rest - {id}) == AllExpanded(keys, was, rest)[id := ExpandedOn(keys, id, was[id])]
    ensures AllExpanded(keys, was, rest)[id] == was[id]
  {
  }

  lemma AllDone(was: Branches, done: Branches)
    requires done.Keys == was.Keys
    ensures was + done == done
  {
  }

  lemma PlusOne(was: Branches, done: Branches, id: BranchId, br: Branch)
    ensures was + done[id := br] == (was + done)[id := br]
  {
  }

  class RecoveryState {
    const branches: map<BranchId, BranchRecoveryState>
    var watchedOutPoints: map<OutPoint, Address>
    /** The children marked used in the wallet. */
    var used: set<(BranchId, nat)>
    /** What the address managers were asked to extend, and up to which index. */
    var asked: Asks
    /** The transactions handed to the wallet. */
    var transactions: seq<Tx>

    constructor (branches: map<BranchId, BranchRecoveryState>, watchedOutPoints: map<OutPoint, Address>)
      ensures this.branches == branches && this.watchedOutPoints == watchedOutPoints
      ensures used == {} && asked == map[] && transactions == []
    {
      this.branches, this.watchedOutPoints := branches, watchedOutPoints;
      used, asked, transactions := {}, map[], [];
    }

    ghost predicate OnlyIn(id: BranchId)
      requires id in branches
    {
      forall x :: x in branches && branches[x] == branches[id] ==> x == id
    }

    /** Each branch has a state object of its own. */
    ghost predicate Distinct() {
      forall id {:trigger OnlyIn(id)} :: id in branches ==> OnlyIn(id)
    }

    function Branches(): (r: Branches)
      reads branches.Values
      ensures r.Keys == branches.Keys
    {
      map id | id in branches :: branches[id].State()
    }

    function View(): Progress reads this, branches.Values {
      Progress(Branches(), used, asked, watchedOutPoints, transactions)
    }

    twostate lemma OnlyOneChanged(id: BranchId)
      requires Distinct() && id in branches && forall x :: x in branches && x != id ==> unchanged(branches[x])
      ensures Branches() == old(Branches())[id := branches[id].State()]
    {
      assert OnlyIn(id);
    }

    method ExpandOn(keys: Keys, id: BranchId) returns (ok: bool)
      requires Distinct() && GoodKeys(keys) && id in branches
      modifies branches[id]
      ensures ok == CanExpand(keys, id, old(Branches())[id])
      ensures ok ==> Branches() == old(Branches())[id := ExpandedOn(keys, id, old(Branches())[id])]
    {
      assert OnlyIn(id);
      ok := ExpandFromKeys(branches[id], keys, id);
      OnlyOneChanged(id);
    }

    /** Extends the look-ahead of every branch, or stops at a child that is invalid or cannot
        be derived. */
    method ExpandScopeHorizons(keys: Keys) returns (ok: bool)
      requires Distinct() && GoodKeys(keys)
      modifies branches.Values
      ensures ok == AllCanExpand(keys, old(Branches()))
      ensures ok ==> Branches() == AllExpanded(keys, old(Branches()), {})
    {
      ghost var was := Branches();
      var rest := branches.Keys;
      AllLeft(keys, was);
      while rest != {}
        invariant rest <= branches.Keys && Branches() == AllExpanded(keys, was, rest)
        invariant forall id :: id in was && id !in rest ==> CanExpand(keys, id, was[id])
        decreases rest
      {
        var id :| id in rest;
        ok := ExpandOn(keys, id);
        if !ok {
          return;
        }
        OneMoreExpanded(keys, was, rest, id);
        rest := rest - {id};
      }
      ok := true;
    }

    /** Has a branch in which something was found extended up to its last found index, and
        marks the found indexes used. */
    method ExtendAndMark(keys: Keys, id: BranchId, found: set<nat>, br: Branch) returns (ok: bool)
      modifies this`used, this`asked
      ensures ok <==> (found != {} ==> keys.grants(id)(LastFound(br)))
      ensures Branches() == old(Branches())
      ensures ok ==> used == old(used) + set i | i in found :: (id, i)
      ensures ok ==> forall x :: AsksOf(asked, x) == AsksOf(old(asked), x) + if x == id then AskAfter(found, br) else {}
    {
      ok := true;
      if found != {} {
        ok := keys.grants(id)(LastFound(br));
        if !ok {
          return;
        }
        asked := asked[id := AsksOf(asked, id) + {LastFound(br)}];
      }
      used := used + set i | i in found :: (id, i);
    }

    /** Reports the found indexes of one branch. */
    method ReportOn(id: BranchId, found: set<nat>)
      requires Distinct() && id in branches
      modifies branches[id]
      ensures AllReported(old(branches[id].State()), found, branches[id].State())
      ensures Branches() == old(Branches())[id := branches[id].State()]
    {
      assert OnlyIn(id);
      ReportAll(branches[id], found);
      OnlyOneChanged(id);
    }

    /** Takes over what was found in one branch, after the branches done already. */
    method ExtendFoundIn(keys: Keys, resp: Response, id: BranchId, ghost was: Progress, ghost done: Branches)
      returns (ok: bool, ghost next: Branches)
      requires Distinct() && id in branches && id in was.branches && id !in done && Branches() == was.branches + done
      requires TakenSoFar(keys, FoundIn(resp), was, done, used, asked)
      modifies this`used, this`asked, branches[id]
      ensures ok ==> next.Keys == done.Keys + {id} && Branches() == was.branches + next
      ensures ok ==> TakenSoFar(keys, FoundIn(resp), was, next, used, asked)
      ensures !ok ==> Refused(keys, FoundIn(resp), was.branches)
    {
      ghost var usedBefore, askedBefore := used, asked;
      var found := FoundOf(resp.foundExternal, resp.foundInternal, id);
      ReportOn(id, found);
      var br := branches[id].State();
      next := done[id := br];
      PlusOne(was.branches, done, id, br);
      ok := ExtendAndMark(keys, id, found, br);
      if ok {
        OneMoreTaken(keys, FoundIn(resp), was, done, usedBefore, askedBefore, id, br, used, asked);
      }
    }

    /** Reports all found indexes, has the branches extended and marks the indexes used; or
        stops at an extension that is not granted. */
    method ExtendFoundAddresses(keys: Keys, resp: Response) returns (ok: bool)
      requires Distinct()
      modifies this`used, this`asked, branches.Values
      ensures ok ==> TakenSoFar(keys, FoundIn(resp), old(View()), Branches(), used, asked)
      ensures !ok ==> Refused(keys, FoundIn(resp), old(Branches()))
    {
      ghost var was := View();
      ghost var done: Branches := map[];
      var rest := branches.Keys;
      NothingTaken(keys, FoundIn(resp), was);
      while rest != {}
        invariant rest <= branches.Keys && done.Keys == branches.Keys - rest
        invariant Branches() == was.branches + done
        invariant TakenSoFar(keys, FoundIn(resp), was, done, used, asked)
        decreases rest
      {
        var id :| id in rest;
        ok, done := ExtendFoundIn(keys, resp, id, was, done);
        if !ok {
          return;
        }
        rest := rest - {id};
      }
      AllDone(was.branches, done);
      ok := true;
    }

    /** Extends every look-ahead, then asks for the first block that matches. */
    method NextMatch(b: Backend, keys: Keys, rest: seq<nat>) returns (ok: bool, answer: Answer)
      requires Distinct() && GoodKeys(keys)
      modifies branches.Values
      ensures ok == AllCanExpand(keys, old(Branches()))
      ensures ok ==> Extended(keys, old(View()), View()) && AnswerNow(b, View(), rest, answer)
    {
      answer := Failed;
      ok := ExpandScopeHorizons(keys);
      if ok {
        answer := FilterBlocks.FilterBlocks(b, RequestOf(Branches(), watchedOutPoints, rest));
      }
    }

    /** Records what a matching block revealed. */
    method TakeOver(keys: Keys, resp: Response) returns (ok: bool)
      requires Distinct()
      modifies this`watchedOutPoints, this`used, this`asked, this`transactions, branches.Values
      ensures ok ==> TakenOver(old(View()), FoundIn(resp), View()) && AllGrantedIn(keys, FoundIn(resp), Branches())
      ensures !ok ==> Refused(keys, FoundIn(resp), old(Branches()))
    {
      ok := ExtendFoundAddresses(keys, resp);
      if ok {
        ghost var extended := Branches();
        assert TakenOn(Grants, keys, FoundIn(resp), old(View()), extended, used, asked);
        assert TakenOn(Findings, keys, FoundIn(resp), old(View()), extended, used, asked);
        watchedOutPoints := watchedOutPoints + resp.foundOutPoints;
        transactions := transactions + resp.relevantTxns;
        assert Branches() == extended;
      }
    }

    /** One round: extend, scan, and take over the first match if there is one. */
    method ScanOnce(
      b: Backend, keys: Keys, rest: seq<nat>, ghost scripts: Scripts, ghost batch: seq<nat>, ghost p: nat,
      ghost limits: map<BranchId, nat>, ghost start: Progress)
      returns (ok: bool, answer: Answer)
      requires Distinct() && GoodKeys(keys) && p <= |batch| && rest == batch[p..]
      requires DoneUpTo(b, keys, scripts, batch, p, limits, start, View())
      modifies this`watchedOutPoints, this`used, this`asked, this`transactions, branches.Values
      ensures Trusted(b, keys, scripts, batch, start) && Enough(b, keys, batch, start.branches, limits) ==> ok
      ensures ok ==> !answer.Failed? && EndOf(answer, p, |batch|) <= |batch|
      ensures ok ==> DoneUpTo(b, keys, scripts, batch, EndOf(answer, p, |batch|), limits, start, View())
    {
      ghost var enough := Trusted(b, keys, scripts, batch, start) && Enough(b, keys, batch, start.branches, limits);
      ghost var before := View();
      if enough {
        CanGoOn(b, keys, scripts, batch, p, limits, start, before);
      }
      ok, answer := NextMatch(b, keys, rest);
      if !ok {
        return;
      }
      ghost var now := View();
      ExtendedReady(b, keys, scripts, batch, p, limits, start, before, now);
      ExtendedDone(b, keys, scripts, batch, p, limits, start, before, now);
      if enough {
        ScanAnswers(b, keys, scripts, batch, p, limits, start, now, answer);
      }
      match answer
      case Failed =>
        ok := false;
      case NoMatch =>
        ScanDone(b, keys, scripts, batch, p, limits, start, now, answer);
      case Match(response) =>
        if enough {
          MatchGranted(b, keys, scripts, batch, p, limits, start, now, answer);
        }
        ok := TakeOver(keys, response);
        if ok {
          MatchTaken(b, keys, scripts, batch, p, limits, start, now, answer, View());
        }
    }

    /** Scans a batch of blocks. If every block uses only indexes within the look-ahead, as
        the blocks before it leave it, and a scan with compact filters may be trusted, then
        exactly the indexes used in the batch are found, each branch ends one past its highest
        used index, and exactly the outputs to the wallet and the transactions that concern it
        have been recorded. It succeeds if the children up to a window beyond the highest used
        index can be derived, and only if all those below the final horizons can. */
    method RecoverScopedAddresses(
      b: Backend, keys: Keys, batch: seq<nat>, ghost scripts: Scripts, ghost limits: map<BranchId, nat>)
      returns (ok: bool)
      requires Distinct() && GoodKeys(keys) && AllWatching(keys, View().branches)
      modifies this`watchedOutPoints, this`used, this`asked, this`transactions, branches.Values
      ensures Trusted(b, keys, scripts, batch, old(View())) && Enough(b, keys, batch, old(Branches()), limits) ==> ok
      ensures ok ==> DoneUpTo(b, keys, scripts, batch, |batch|, limits, old(View()), View())
      ensures ok ==> AllDerived(keys, old(Branches()), Branches()) && AllGranted(keys, old(asked), asked)
      ensures ok && Trusted(b, keys, scripts, batch, old(View())) && AllGapsWithin(b, keys, batch, old(Branches())) ==>
                Reached(b, keys, batch, |batch|, old(View()), View())
    {
      ghost var start, p := View(), 0;
      ghost var enough := Trusted(b, keys, scripts, batch, start) && Enough(b, keys, batch, start.branches, limits);
      StartDone(b, keys, scripts, batch, limits, start);
      var rest := batch;
      while rest != []
        invariant 0 <= p <= |batch| && rest == batch[p..]
        invariant DoneUpTo(b, keys, scripts, batch, p, limits, start, View())
        decreases |rest|
      {
        var answer;
        ok, answer := ScanOnce(b, keys, rest, scripts, batch, p, limits, start);
        if !ok {
          return;
        }
        if answer.NoMatch? {
          DoneMeans(b, keys, scripts, batch, |batch|, limits, start, View());
          return;
        }
        DropDrop(batch, p, answer.response.batchIndex + 1);
        rest := rest[answer.response.batchIndex + 1..];
        p := EndOf(answer, p, |batch|);
      }
      DoneMeans(b, keys, scripts, batch, p, limits, start, View());
      ok := true;
    }

    /** Recovers the next batch of a chain. */
    method RecoverBatch(
      b: Backend, keys: Keys, batch: seq<nat>, ghost scripts: Scripts, ghost chain: seq<nat>, ghost p: nat, ghost q: nat,
      ghost limits: map<BranchId, nat>, ghost start: Progress)
      returns (ok: bool)
      requires p <= q <= |chain| && batch == chain[p..q] && Distinct() && GoodKeys(keys)
      requires DoneUpTo(b, keys, scripts, chain, p, limits, start, View())
      modifies this`watchedOutPoints, this`used, this`asked, this`transactions, branches.Values
      ensures Trusted(b, keys, scripts, chain, start) && Enough(b, keys, chain, start.branches, limits) ==> ok
      ensures ok ==> DoneUpTo(b, keys, scripts, chain, q, limits, start, View())
    {
      ghost var mid := View();
      assert Keeps(Watches, b, keys, scripts, chain, p, limits, start, mid);
      if Trusted(b, keys, scripts, chain, start) && Enough(b, keys, chain, start.branches, limits) {
        BatchCanGoOn(b, keys, scripts, chain, p, q, batch, limits, start, mid);
      }
      ok := RecoverScopedAddresses(b, keys, batch, scripts, limits);
      if ok {
        DoneComposes(b, keys, scripts, chain, p, q, batch, limits, start, mid, View());
      }
    }

    /** Adds a block to the batch, and recovers the batch once it is full or complete. */
    method AddToBatch(
      b: Backend, keys: Keys, batch: seq<nat>, chain: seq<nat>, height: nat, batchSize: nat,
      ghost scripts: Scripts, ghost p: nat, ghost limits: map<BranchId, nat>, ghost start: Progress)
      returns (ok: bool, left: seq<nat>, ghost next: nat)
      requires p <= height < |chain| && batch == chain[p..height] && Distinct() && GoodKeys(keys)
      requires DoneUpTo(b, keys, scripts, chain, p, limits, start, View())
      modifies this`watchedOutPoints, this`used, this`asked, this`transactions, branches.Values
      ensures Trusted(b, keys, scripts, chain, start) && Enough(b, keys, chain, start.branches, limits) ==> ok
      ensures ok ==> p <= next <= height + 1 && left == chain[next..height + 1] && (height == |chain| - 1 ==> next == |chain|)
      ensures ok ==> DoneUpTo(b, keys, scripts, chain, next, limits, start, View())
    {
      SliceSnoc(chain, p, height);
      ok, left, next := true, batch + [chain[height]], p;
      if |left| == batchSize || height == |chain| - 1 {
        ok := RecoverBatch(b, keys, left, scripts, chain, p, height + 1, limits, start);
        left, next := [], height + 1;
        SliceEmpty(chain, next, height + 1);
      }
    }

    /** Recovers a whole chain of blocks, some batch at a time. */
    method RecoverChain(
      b: Backend, keys: Keys, chain: seq<nat>, batchSize: nat, ghost scripts: Scripts, ghost limits: map<BranchId, nat>)
      returns (ok: bool)
      requires Distinct() && GoodKeys(keys) && AllWatching(keys, View().branches) && batchSize >= 1
      modifies this`watchedOutPoints, this`used, this`asked, this`transactions, branches.Values
      ensures Trusted(b, keys, scripts, chain, old(View())) && Enough(b, keys, chain, old(Branches()), limits) ==> ok
      ensures ok ==> AllDerived(keys, old(Branches()), Branches()) && AllGranted(keys, old(asked), asked)
      ensures ok && Trusted(b, keys, scripts, chain, old(View())) && AllGapsWithin(b, keys, chain, old(Branches())) ==>
                Reached(b, keys, chain, |chain|, old(View()), View())
    {
      ghost var start := View();
      ghost var enough := Trusted(b, keys, scripts, chain, start) && Enough(b, keys, chain, start.branches, limits);
      StartDone(b, keys, scripts, chain, limits, start);
      var batch: seq<nat>, height: nat := [], 0;
      ghost var p: nat := 0;
      ok := true;
      while ok && height < |chain|
        invariant enough ==> ok
        invariant ok ==> p <= height <= |chain| && batch == chain[p..height] && (height == |chain| ==> p == |chain|)
        invariant ok ==> DoneUpTo(b, keys, scripts, chain, p, limits, start, View())
        decreases |chain| - height
      {
        ok, batch, p := AddToBatch(b, keys, batch, chain, height, batchSize, scripts, p, limits, start);
        height := height + 1;
      }
      if ok {
        DoneMeans(b, keys, scripts, chain, p, limits, start, View());
      }
    }
  }

  lemma SliceSnoc(chain: seq<nat>, p: nat, q: nat)
    requires p <= q < |chain|
    ensures chain[p..q] + [chain[q]] == chain[p..q + 1]
  {
  }

  lemma SliceEmpty(chain: seq<nat>, p: nat, q: nat)
    requires p == q <= |chain|
    ensures chain[p..q] == []
  {
  }

  lemma DropDrop(batch: seq<nat>, p: nat, k: nat)
    requires p + k <= |batch|
    ensures batch[p..][k..] == batch[p + k..]
  {
  }
}
