/** What recovery leaves in the accounts (extendFoundAddresses in wallet/wallet.go, on top of
    extendAddresses in waddrmgr/scoped_manager.go): each branch goes on after its highest
    used index. */
module RecoveredAccounts {
  import opened Lookahead
  import FilterBlocks
  import opened KeyTree
  import opened RecoveryScan
  import opened RecoveryProgress
  import opened Allocator
  import opened AllocatorRuns

  /** The extension is served, or there is nothing left to do for it. */
  ghost predicate Granted(derive: Derive, a: Account, req: Request)
    requires GoodDerive(derive) && req.ExtendTo?
  {
    req.last < a.cache.Next(req.internal) || Issues(derive, a, req)
  }

  /** All the extensions succeed, one after the other. */
  ghost predicate AllGranted(derive: Derive, a: Account, reqs: seq<Request>)
    requires GoodDerive(derive) && forall req :: req in reqs ==> req.ExtendTo?
  {
    reqs == [] ||
    var before, last := reqs[..|reqs| - 1], reqs[|reqs| - 1];
    AllGranted(derive, a, before) && Granted(derive, ServedAll(derive, a, before), last)
  }

  /** The next index of a branch that was extended up to an index. */
  ghost function NextAfter(valid: nat -> bool, next: nat, last: nat): nat
    requires NeverEnding(valid)
  {
    if last < next then next else NextValid(valid, last) + 1
  }

  /** A next index on the way there: it is not beyond the end, and where it has moved it is
      one past a valid index. */
  ghost predicate OnTheWay(valid: nat -> bool, n0: nat, n: nat, top: nat)
    requires NeverEnding(valid)
  {
    n0 <= n <= NextAfter(valid, n0, top) && (n == n0 || valid(n - 1))
  }

  lemma OneStepOn(valid: nat -> bool, n0: nat, n: nat, last: nat, top: nat)
    requires NeverEnding(valid) && OnTheWay(valid, n0, n, top) && last <= top
    ensures OnTheWay(valid, n0, NextAfter(valid, n, last), top)
    ensures last == top || n == NextAfter(valid, n0, top) ==> NextAfter(valid, n, last) == NextAfter(valid, n0, top)
  {
  }

  /** Extensions, in any order and repeated at will, move a branch to one past the first
      valid index at or above the highest one asked for, unless it was beyond that. */
  lemma {:induction false} ExtendedToHighest(derive: Derive, a: Account, reqs: seq<Request>, c: bool, top: nat)
    requires GoodDerive(derive) && InStep(a, c) && forall req :: req in reqs ==> req.ExtendTo?
    requires AllGranted(derive, a, reqs) && forall req :: req in reqs && req.internal == c ==> req.last <= top
    ensures
      var r, n0 := ServedAll(derive, a, reqs), a.stored.Next(c);
      && InStep(r, c) && OnTheWay(Stops(derive, c), n0, r.stored.Next(c), top)
      && (ExtendTo(c, top) in reqs ==> r.stored.Next(c) == NextAfter(Stops(derive, c), n0, top))
      && ((forall req :: req in reqs ==> req.internal != c) ==> r.stored.Next(c) == n0)
  {
    if reqs != [] {
      var k := |reqs| - 1;
      var before, last := ServedAll(derive, a, reqs[..k]), reqs[k];
      assert forall req :: req in reqs <==> req in reqs[..k] || req == last;
      ExtendedToHighest(derive, a, reqs[..k], c, top);
      ExtensionServed(derive, before, last, c);
      if last.internal == c {
        OneStepOn(Stops(derive, c), a.stored.Next(c), before.stored.Next(c), last.last, top);
      }
    }
  }

  /** One extension that succeeds, as a branch sees it. */
  lemma {:induction false} ExtensionServed(derive: Derive, a: Account, req: Request, c: bool)
    requires GoodDerive(derive) && req.ExtendTo? && Granted(derive, a, req) && InStep(a, c)
    ensures
      var r := Served(derive, a, req);
      && InStep(r, c)
      && r.stored.Next(c) ==
           if c == req.internal then NextAfter(Stops(derive, c), a.stored.Next(c), req.last) else a.stored.Next(c)
  {
    if c != req.internal || !Issues(derive, a, req) {
      OtherServed(derive, a, req, c);
    }
    ServedExtension(derive, a, req);
  }

  /** One extension, as its branch sees it. */
  lemma ServedExtension(derive: Derive, a: Account, req: Request)
    requires GoodDerive(derive) && req.ExtendTo?
    ensures
      var r, c := Served(derive, a, req), req.internal;
      && r.onCommit == a.onCommit
      && (Issues(derive, a, req) ==>
            && a.cache.Next(c) <= req.last
            && r.stored.Next(c) == r.cache.Next(c) == NextValid(Stops(derive, c), req.last) + 1)
      && (!Issues(derive, a, req) ==> r == a)
  {
    if Issues(derive, a, req) {
      var end := ServedIssues(derive, a, req, req.internal);
      ExtensionEnd(derive, a, req);
    }
  }

  lemma {:induction false} ExtensionEnd(derive: Derive, a: Account, req: Request)
    requires GoodDerive(derive) && req.ExtendTo? && Issues(derive, a, req)
    ensures Served(derive, a, req).cache.Next(req.internal) == NextValid(Stops(derive, req.internal), req.last) + 1
  {
  }

  /** The requests are the extensions that recovery asks of the branch, in any order. */
  ghost predicate Asks(reqs: seq<Request>, asked: set<nat>, c: bool) {
    && (forall req :: req in reqs ==> req.ExtendTo?)
    && (forall last :: ExtendTo(c, last) in reqs <==> last in asked)
  }

  lemma {:induction false} ExtendedAsAsked(
    derive: Derive, a: Account, reqs: seq<Request>, c: bool, used: bool, u: nat, asked: set<nat>)
    requires GoodDerive(derive) && InStep(a, c) && Asks(reqs, asked, c) && AllGranted(derive, a, reqs)
    requires AskedFor(used, u, {}, asked)
    ensures
      var n0, r := a.stored.Next(c), ServedAll(derive, a, reqs);
      && InStep(r, c)
      && if used then u > 0 && r.stored.Next(c) == NextAfter(Stops(derive, c), n0, u - 1) else r.stored.Next(c) == n0
  {
    forall req | req in reqs && req.internal == c
      ensures req.last in asked
    {
      assert req == ExtendTo(c, req.last);
    }
    ExtendedToHighest(derive, a, reqs, c, if u > 0 then u - 1 else 0);
  }

  /** What recovery says of one branch. */
  lemma RecoveredBranch(b: FilterBlocks.Backend, keys: Keys, chain: seq<nat>, start: Progress, now: Progress, id: BranchId)
    requires Reached(b, keys, chain, |chain|, start, now) && id in start.branches && id in now.branches
    requires AsksOf(start.asked, id) == {}
    ensures
      var u, used := now.branches[id].nextUnfound, UsedOn(b, keys, chain, |chain|, id);
      && AskedFor(used, u, {}, AsksOf(now.asked, id))
      && (forall h, i: nat :: h in chain && Uses(b, keys, h, id, i) ==> used && i < u)
      && (u > start.branches[id].nextUnfound ==> used && keys.valid(id)(u - 1))
  {
    assert StandsAt(Aspect.NextIndexes, b, keys, chain, |chain|, start, now);
    assert StandsAt(Aspect.Extensions, b, keys, chain, |chain|, start, now);
    assert chain[..|chain|] == chain;
    UsedOnAny(b, keys, chain, id);
    assert IsNext(b, keys, id, chain, start.branches[id].nextUnfound, now.branches[id].nextUnfound);
  }

  /** Once a chain within the gap limit has been recovered and the account has served what
      was asked of it, the stored and the cached next index of each branch agree, lie above
      every index the chain uses, and are one past the first valid index at or above the
      highest used one, unless the account was beyond that. A branch that the chain does not
      use stays as it was. */
  lemma {:induction false} GoesOnAfterHighest(
    b: FilterBlocks.Backend, keys: Keys, chain: seq<nat>, start: Progress, now: Progress, id: BranchId,
    derive: Derive, a: Account, reqs: seq<Request>)
    requires Reached(b, keys, chain, |chain|, start, now) && id in start.branches && id in now.branches
    requires AsksOf(start.asked, id) == {}
    requires GoodDerive(derive) && forall i :: Stops(derive, id.internal)(i) <==> keys.valid(id)(i)
    requires InStep(a, id.internal) && Asks(reqs, AsksOf(now.asked, id), id.internal) && AllGranted(derive, a, reqs)
    ensures
      var c, r := id.internal, ServedAll(derive, a, reqs);
      var n0, n, u := a.stored.Next(c), r.stored.Next(c), now.branches[id].nextUnfound;
      && InStep(r, c)
      && (forall h, i: nat :: h in chain && Uses(b, keys, h, id, i) ==> i < n)
      && (if UsedOn(b, keys, chain, |chain|, id) then u > 0 && n == NextAfter(Stops(derive, c), n0, u - 1) else n == n0)
      && (u > start.branches[id].nextUnfound ==> n == if n0 > u then n0 else u)
  {
    var u, used := now.branches[id].nextUnfound, UsedOn(b, keys, chain, |chain|, id);
    RecoveredBranch(b, keys, chain, start, now, id);
    ExtendedAsAsked(derive, a, reqs, id.internal, used, u, AsksOf(now.asked, id));
    if u > start.branches[id].nextUnfound {
      assert Stops(derive, id.internal)(u - 1);
    }
  }

  lemma UsedOnAny(b: FilterBlocks.Backend, keys: Keys, chain: seq<nat>, id: BranchId)
    ensures UsedOn(b, keys, chain, |chain|, id) <==> exists h, i: nat :: h in chain && Uses(b, keys, h, id, i)
  {
    if h, i: nat :| h in chain && Uses(b, keys, h, id, i) {
      var j :| 0 <= j < |chain| && chain[j] == h;
      assert Uses(b, keys, chain[j], id, i);
    }
  }
}
