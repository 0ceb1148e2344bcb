/** When a wallet can take up recovery again (Resurrect in wallet/recovery.go, on the next
    indexes that waddrmgr/scoped_manager.go has stored): the allocator passes over invalid
    children, the restoration does not. */
module RestoredAccounts {
  import opened AddressIndexes
  import opened Allocator
  import opened AllocatorRuns
  import opened KeyTree

  /** The allocator and the recovery derive from the same keys. */
  ghost predicate SameTree(derive: Derive, keys: Keys, id: BranchId) {
    forall i: nat ::
      derive(id.internal, i) == if keys.broken(id)(i) then Fails else if keys.valid(id)(i) then Valid else Invalid
  }

  /** Every child below n was issued or is invalid, and none of them fails. */
  ghost predicate Covered(derive: Derive, a: Account, c: bool, n: nat) {
    && NoneFails(derive, c, 0, n)
    && forall i: nat :: i < n && Stops(derive, c)(i) ==> i in IssuedOn(a.addresses, c)
  }

  /** So it is below the stored and the cached next index, and below what is registered; and
      no invalid child was issued. */
  ghost predicate AllCovered(derive: Derive, a: Account, c: bool) {
    && Covered(derive, a, c, a.stored.Next(c)) && Covered(derive, a, c, a.cache.Next(c))
    && (forall r :: r in a.onCommit && r.internal == c ==> Covered(derive, a, c, r.next))
    && forall i :: i in IssuedOn(a.addresses, c) ==> Stops(derive, c)(i)
  }

  lemma {:induction false} CoveredStays(derive: Derive, a: Account, r: Account, c: bool, n: nat)
    requires Covered(derive, a, c, n) && IssuedOn(a.addresses, c) <= IssuedOn(r.addresses, c)
    ensures Covered(derive, r, c, n)
  {
    forall i: nat | i < n && Stops(derive, c)(i)
      ensures i in IssuedOn(r.addresses, c)
    {
      var s, t := IssuedOn(a.addresses, c), IssuedOn(r.addresses, c);
      assert i in s;
      var k :| 0 <= k < |s| && s[k] == i;
      assert t[k] == i;
    }
  }

  /** A range that is issued from a covered index on is covered to its end. */
  lemma {:induction false} RangeCovered(derive: Derive, a: Account, r: Account, c: bool, from: nat, end: nat)
    requires Covered(derive, a, c, from) && NoneFails(derive, c, from, end)
    requires IssuedOn(r.addresses, c) == IssuedOn(a.addresses, c) + ValidIn(Stops(derive, c), from, end)
    ensures Covered(derive, r, c, end)
  {
    var more := ValidIn(Stops(derive, c), from, end);
    forall i: nat | i < end && Stops(derive, c)(i)
      ensures i in IssuedOn(r.addresses, c)
    {
      ValidInExactly(Stops(derive, c), from, end, i);
      assert i in IssuedOn(a.addresses, c) || i in more;
    }
  }

  /** What is issued is covered. */
  lemma {:induction false} IssuedCovered(derive: Derive, a: Account, req: Request) returns (end: nat)
    requires GoodDerive(derive) && Issues(derive, a, req) && AllCovered(derive, a, req.internal)
    ensures
      var c, r := req.internal, Served(derive, a, req);
      && Covered(derive, r, c, end) && r.stored == a.stored.With(c, end)
      && (forall i :: i in IssuedOn(r.addresses, c) ==> Stops(derive, c)(i))
      && if req.Next? then r.cache == a.cache && r.onCommit == a.onCommit + [Registered(c, end, false)]
         else r.cache == a.cache.With(c, end) && r.onCommit == a.onCommit
  {
    var c, r := req.internal, Served(derive, a, req);
    var from := a.cache.Next(c);
    end := ServedIssues(derive, a, req, c);
    RangeCovered(derive, a, r, c, from, end);
    forall i | i in IssuedOn(r.addresses, c)
      ensures Stops(derive, c)(i)
    {
      ValidInExactly(Stops(derive, c), from, end, i);
    }
  }

  /** One request keeps everything covered. */
  lemma {:induction false} ServedCovered(derive: Derive, a: Account, req: Request, c: bool)
    requires GoodDerive(derive) && AllCovered(derive, a, c)
    ensures AllCovered(derive, Served(derive, a, req), c)
  {
    var r := Served(derive, a, req);
    IssuedOnlyGrows(derive, a, req, c);
    forall n | Covered(derive, a, c, n)
      ensures Covered(derive, r, c, n)
    {
      CoveredStays(derive, a, r, c, n);
    }
    if req.internal == c && Issues(derive, a, req) {
      var end := IssuedCovered(derive, a, req);
    } else {
      OtherServed(derive, a, req, c);
      if Issues(derive, a, req) {
        var end := ServedIssues(derive, a, req, c);
      } else {
        ServedNothing(derive, a, req);
      }
    }
  }

  lemma {:induction false} AllServedCovered(derive: Derive, a: Account, reqs: seq<Request>, c: bool)
    requires GoodDerive(derive) && AllCovered(derive, a, c)
    ensures AllCovered(derive, ServedAll(derive, a, reqs), c)
  {
    if reqs != [] {
      AllServedCovered(derive, a, reqs[..|reqs| - 1], c);
      ServedCovered(derive, ServedAll(derive, a, reqs[..|reqs| - 1]), reqs[|reqs| - 1], c);
    }
  }

  /** What the cache holds after a commit is what it held, or something registered. */
  lemma {:induction false} CommittedFrom(cache: NextIndexes, onCommit: seq<Registered>, c: bool)
    ensures
      var n := Committed(cache, onCommit).Next(c);
      n == cache.Next(c) || exists r :: r in onCommit && r.internal == c && r.next == n
  {
    if onCommit != [] {
      CommittedFrom(cache, onCommit[..|onCommit| - 1], c);
    }
  }

  /** Over any run of transactions, whether they overlap or not. */
  lemma {:induction false} RunCovered(derive: Derive, a: Account, txs: seq<seq<Request>>, c: bool)
    requires GoodDerive(derive) && AllCovered(derive, a, c)
    ensures AllCovered(derive, Transactions(derive, a, txs), c)
  {
    if txs != [] {
      var n := |txs| - 1;
      var before := Transactions(derive, a, txs[..n]);
      RunCovered(derive, a, txs[..n], c);
      AllServedCovered(derive, before, txs[n], c);
      var r := ServedAll(derive, before, txs[n]);
      CommittedFrom(r.cache, r.onCommit, c);
    }
  }

  /** A branch that has handed out nothing yet. */
  predicate Unused(a: Account, c: bool) {
    a.stored.Next(c) == 0 == a.cache.Next(c) && a.onCommit == [] && IssuedOn(a.addresses, c) == []
  }

  /** Every child below n was issued. */
  ghost predicate AllIssued(a: Account, c: bool, n: nat) {
    forall i: nat :: i < n ==> i in IssuedOn(a.addresses, c)
  }

  lemma DerivableAlike(keys: Keys, id: BranchId, n: nat, a: Account)
    requires forall i: nat :: i < n ==> (Derivable(keys, id, i) <==> keys.valid(id)(i))
    requires forall i: nat :: i < n ==> (Derivable(keys, id, i) <==> i in IssuedOn(a.addresses, id.internal))
    ensures CanResurrect(keys, id, n) <==> forall i: nat :: i < n ==> keys.valid(id)(i)
    ensures CanResurrect(keys, id, n) <==> AllIssued(a, id.internal, n)
  {
    if CanResurrect(keys, id, n) {
      assert forall i: nat :: i < n ==> Derivable(keys, id, i);
    } else {
      var i: nat :| i < n && !Derivable(keys, id, i);
      assert !keys.valid(id)(i) && i !in IssuedOn(a.addresses, id.internal);
    }
  }

  /** After any run of committed transactions, a branch can be restored if and only if every
      child below its key count is valid, that is, if the allocator has issued every index
      below it and passed over none. */
  lemma {:induction false} RestorableExactly(derive: Derive, a: Account, txs: seq<seq<Request>>, keys: Keys, id: BranchId)
    requires GoodDerive(derive) && SameTree(derive, keys, id) && Unused(a, id.internal)
    ensures
      var r := Transactions(derive, a, txs);
      var keyCount := r.stored.Next(id.internal);
      && (CanResurrect(keys, id, keyCount) <==> forall i: nat :: i < keyCount ==> keys.valid(id)(i))
      && (CanResurrect(keys, id, keyCount) <==> AllIssued(r, id.internal, keyCount))
  {
    var c, r := id.internal, Transactions(derive, a, txs);
    var keyCount := r.stored.Next(c);
    RunCovered(derive, a, txs, c);
    forall i: nat | i < keyCount
      ensures Derivable(keys, id, i) <==> keys.valid(id)(i)
      ensures Derivable(keys, id, i) <==> i in IssuedOn(r.addresses, c)
    {
      assert !derive(c, i).Fails?;
      assert Stops(derive, c)(i) <==> keys.valid(id)(i);
    }
    DerivableAlike(keys, id, keyCount, r);
  }

  /** A branch that cannot be restored never can be again: its key count does not fall, as
      long as no transaction allocates twice. */
  lemma {:induction false} NeverRestorableAgain(
    derive: Derive, a: Account, txs: seq<seq<Request>>, keys: Keys, id: BranchId)
    requires GoodDerive(derive) && InStep(a, id.internal)
    requires CommitsSucceed(derive, a, txs) && !SomeOverlaps(derive, a, txs, id.internal)
    requires !CanResurrect(keys, id, a.stored.Next(id.internal))
    ensures !CanResurrect(keys, id, Transactions(derive, a, txs).stored.Next(id.internal))
  {
    var c, r := id.internal, Transactions(derive, a, txs);
    AllocationsStayInStep(derive, a, txs, c);
    var i: nat :| i < a.stored.Next(c) && !Derivable(keys, id, i);
    assert i < r.stored.Next(c);
  }
}
