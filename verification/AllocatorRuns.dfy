/** What transactions of allocations keep: when the cached next indexes are those of the
    stored row, and when a branch hands out an index twice. */
module AllocatorRuns {
  import opened Lookahead
  import opened AddressIndexes
  import opened Allocator

  function Commit(a: Account): Account {
    a.(cache := Committed(a.cache, a.onCommit), onCommit := [])
  }

  /** A transaction that fails leaves the row and the addresses as they were before it, and
      what it registered is not done; the cache is not restored (walletdb/interface.go). */
  function RolledBack(before: Account, now: Account): Account {
    before.(cache := now.cache)
  }

  ghost function ServedAll(derive: Derive, a: Account, reqs: seq<Request>): Account
    requires GoodDerive(derive)
  {
    if reqs == [] then a
    else Served(derive, ServedAll(derive, a, reqs[..|reqs| - 1]), reqs[|reqs| - 1])
  }

  /** A run of committed transactions. */
  ghost function Transactions(derive: Derive, a: Account, txs: seq<seq<Request>>): Account
    requires GoodDerive(derive)
  {
    if txs == [] then a
    else Commit(ServedAll(derive, Transactions(derive, a, txs[..|txs| - 1]), txs[|txs| - 1]))
  }

  /** No commit of the run panics. */
  ghost predicate CommitsSucceed(derive: Derive, a: Account, txs: seq<seq<Request>>)
    requires GoodDerive(derive)
  {
    txs == [] ||
    var before, last := txs[..|txs| - 1], txs[|txs| - 1];
    && CommitsSucceed(derive, a, before)
    && !Panics(ServedAll(derive, Transactions(derive, a, before), last).onCommit)
  }

  /** The request is served and issues addresses. */
  ghost predicate Issues(derive: Derive, a: Account, req: Request)
    requires GoodDerive(derive)
  {
    match req
    case Next(internal, count) => count >= 1 && CanTake(derive, a.cache.Next(internal), internal, count)
    case ExtendTo(internal, last) => CanExtend(derive, a.cache.Next(internal), internal, last)
  }

  /** What a request does to one branch: nothing, or it issues addresses. */
  datatype Effect = Nothing | Allocated | Extended

  ghost function EffectOf(derive: Derive, a: Account, req: Request, c: bool): Effect
    requires GoodDerive(derive)
  {
    if req.internal != c || !Issues(derive, a, req) then Nothing else if req.Next? then Allocated else Extended
  }

  /** What each request of a transaction does to one branch. */
  ghost function Effects(derive: Derive, a: Account, reqs: seq<Request>, c: bool): (es: seq<Effect>)
    requires GoodDerive(derive)
    ensures |es| == |reqs|
  {
    if reqs == [] then []
    else
      var before := reqs[..|reqs| - 1];
      Effects(derive, a, before, c) + [EffectOf(derive, ServedAll(derive, a, before), reqs[|reqs| - 1], c)]
  }

  /** Something is issued after an allocation. */
  predicate Overlap(es: seq<Effect>) {
    exists j, k :: 0 <= j < k < |es| && es[j] == Allocated && es[k] != Nothing
  }

  lemma OverlapMore(es: seq<Effect>, e: Effect)
    ensures Overlap(es + [e]) <==> Overlap(es) || (Allocated in es && e != Nothing)
  {
    var more := es + [e];
    if Allocated in es && e != Nothing {
      var j :| 0 <= j < |es| && es[j] == Allocated;
      assert more[j] == Allocated && more[|es|] == e;
    }
    if Overlap(es) {
      var j, k :| 0 <= j < k < |es| && es[j] == Allocated && es[k] != Nothing;
      assert more[j] == es[j] && more[k] == es[k];
    }
  }

  /** In one transaction, some request issues addresses on the branch after an allocation
      has done so. */
  ghost predicate Overlaps(derive: Derive, a: Account, reqs: seq<Request>, c: bool)
    requires GoodDerive(derive)
  {
    Overlap(Effects(derive, a, reqs, c))
  }

  /** Some transaction of the run does so. */
  ghost predicate SomeOverlaps(derive: Derive, a: Account, txs: seq<seq<Request>>, c: bool)
    requires GoodDerive(derive)
  {
    txs != [] &&
    var before, last := txs[..|txs| - 1], txs[|txs| - 1];
    SomeOverlaps(derive, a, before, c) || Overlaps(derive, Transactions(derive, a, before), last, c)
  }

  /** The indexes issued on one branch, in order. */
  function IssuedOn(addresses: seq<(bool, nat)>, c: bool): seq<nat> {
    if addresses == [] then []
    else
      var last := addresses[|addresses| - 1];
      IssuedOn(addresses[..|addresses| - 1], c) + if last.0 == c then [last.1] else []
  }

  /** The branch has issued exactly the valid indexes between its next index then and now,
      in order, and nothing in the row but next indexes has changed. */
  predicate Progressed(derive: Derive, a: Account, a': Account, c: bool) {
    var from, to := a.stored.Next(c), a'.stored.Next(c);
    && from <= to && a'.rest == a.rest
    && IssuedOn(a'.addresses, c) == IssuedOn(a.addresses, c) + ValidIn(Stops(derive, c), from, to)
  }

  /** Once committed, the cached next index is the stored one. */
  predicate Done(a: Account, c: bool) {
    Committed(a.cache, a.onCommit).Next(c) == a.stored.Next(c)
  }

  /** The cached next index is the stored one, and nothing is going to change it. */
  predicate Ready(a: Account, c: bool) {
    a.cache.Next(c) == a.stored.Next(c) && forall r :: r in a.onCommit && r.internal == c ==> r.empty
  }

  lemma {:induction false} Undisturbed(cache: NextIndexes, onCommit: seq<Registered>, c: bool)
    requires forall r :: r in onCommit && r.internal == c ==> r.empty
    ensures Committed(cache, onCommit).Next(c) == cache.Next(c)
  {
    if onCommit != [] {
      Undisturbed(cache, onCommit[..|onCommit| - 1], c);
    }
  }

  lemma {:induction false} CommittedWith(cache: NextIndexes, onCommit: seq<Registered>, r: Registered)
    ensures Panics(onCommit + [r]) <==> Panics(onCommit) || r.empty
    ensures Committed(cache, onCommit + [r]) ==
              if Panics(onCommit + [r]) then Committed(cache, onCommit)
              else Committed(cache, onCommit).With(r.internal, r.next)
  {
    assert (onCommit + [r])[..|onCommit|] == onCommit;
    assert r in onCommit + [r];
  }

  lemma {:induction false} CacheCommutes(cache: NextIndexes, onCommit: seq<Registered>, b: bool, next: nat)
    ensures Committed(cache.With(b, next), onCommit).Next(!b) == Committed(cache, onCommit).Next(!b)
  {
    if onCommit != [] {
      CacheCommutes(cache, onCommit[..|onCommit| - 1], b, next);
    }
  }

  /** Storing addresses one by one moves the next index of their branch past the last. */
  lemma {:induction false} IssuedAtOnce(a: Account, b: bool, indexes: seq<nat>, c: bool)
    ensures
      var r := Issued(a, b, indexes);
      && r.cache == a.cache && r.onCommit == a.onCommit && r.rest == a.rest
      && r.stored == (if indexes == [] then a.stored else a.stored.With(b, indexes[|indexes| - 1] + 1))
      && IssuedOn(r.addresses, c) == IssuedOn(a.addresses, c) + (if c == b then indexes else [])
  {
    if indexes != [] {
      var n := |indexes| - 1;
      IssuedAtOnce(a, b, indexes[..n], c);
      var before := Issued(a, b, indexes[..n]).addresses;
      assert (before + [(b, indexes[n])])[..|before|] == before;
      assert indexes == indexes[..n] + [indexes[n]];
    }
  }

  /** A range of indexes that ends with a valid one is issued. */
  predicate IssuesRange(derive: Derive, a: Account, r: Account, b: bool, from: nat, end: nat, c: bool) {
    && from < end && Stops(derive, b)(end - 1) && r.rest == a.rest && r.stored == a.stored.With(b, end)
    && IssuedOn(r.addresses, c) == IssuedOn(a.addresses, c) + (if c == b then ValidIn(Stops(derive, b), from, end) else [])
  }

  lemma {:induction false} IssuedRange(derive: Derive, a: Account, b: bool, from: nat, end: nat, c: bool)
    requires from < end && Stops(derive, b)(end - 1)
    ensures
      var r := Issued(a, b, ValidIn(Stops(derive, b), from, end));
      r.cache == a.cache && r.onCommit == a.onCommit && IssuesRange(derive, a, r, b, from, end, c)
  {
    IssuedAtOnce(a, b, ValidIn(Stops(derive, b), from, end), c);
  }

  /** What a request that issues addresses does, as a branch sees it. */
  lemma ServedIssues(derive: Derive, a: Account, req: Request, c: bool) returns (end: nat)
    requires GoodDerive(derive) && Issues(derive, a, req)
    ensures
      var r, b := Served(derive, a, req), req.internal;
      && IssuesRange(derive, a, r, b, a.cache.Next(b), end, c) && NoneFails(derive, b, a.cache.Next(b), end)
      && if req.Next? then r.cache == a.cache && r.onCommit == a.onCommit + [Registered(b, end, false)]
         else r.cache == a.cache.With(b, end) && r.onCommit == a.onCommit
  {
    var valid, from, b := Stops(derive, req.internal), a.cache.Next(req.internal), req.internal;
    match req {
      case Next(_, count) =>
        end := After(valid, from, count);
        CountAfter(valid, from, count);
        IssuedRange(derive, a, b, from, end, c);
      case ExtendTo(_, last) =>
        end := NextValid(valid, last) + 1;
        IssuedRange(derive, a, b, from, end, c);
    }
  }

  /** A request that issues nothing changes nothing, but an allocation of nought addresses
      may be registered. */
  lemma ServedNothing(derive: Derive, a: Account, req: Request)
    requires GoodDerive(derive) && !Issues(derive, a, req)
    ensures
      var r := Served(derive, a, req);
      && r == a.(onCommit := r.onCommit)
      && (r.onCommit == a.onCommit || r.onCommit == a.onCommit + [Registered(req.internal, a.cache.Next(req.internal), true)])
  {
  }

  lemma {:induction false} PanicsGrow(derive: Derive, a: Account, req: Request)
    requires GoodDerive(derive) && Panics(a.onCommit)
    ensures Panics(Served(derive, a, req).onCommit)
  {
    if Issues(derive, a, req) {
      var end := ServedIssues(derive, a, req, false);
    } else {
      ServedNothing(derive, a, req);
    }
  }

  /** One request that issues addresses on a branch whose cached index is right. */
  lemma OneServed(derive: Derive, a: Account, req: Request)
    requires GoodDerive(derive) && Ready(a, req.internal) && Issues(derive, a, req)
    ensures
      var r := Served(derive, a, req);
      && Progressed(derive, a, r, req.internal)
      && (!Panics(r.onCommit) ==> Done(r, req.internal)) && (req.ExtendTo? ==> Ready(r, req.internal))
  {
    var b := req.internal;
    var end := ServedIssues(derive, a, req, b);
    Undisturbed(a.cache, a.onCommit, b);
    Undisturbed(a.cache.With(b, end), a.onCommit, b);
    CommittedWith(a.cache, a.onCommit, Registered(b, end, false));
  }

  /** One request leaves the other branch alone. */
  lemma {:induction false} OtherServed(derive: Derive, a: Account, req: Request, c: bool)
    requires GoodDerive(derive) && (c != req.internal || !Issues(derive, a, req))
    ensures
      var r := Served(derive, a, req);
      && (!Panics(r.onCommit) && Done(a, c) ==> Done(r, c))
      && (Ready(a, c) ==> Ready(r, c))
      && r.cache.Next(c) == a.cache.Next(c) && r.stored.Next(c) == a.stored.Next(c)
      && IssuedOn(r.addresses, c) == IssuedOn(a.addresses, c) && r.rest == a.rest
  {
    var b := req.internal;
    if Issues(derive, a, req) {
      var end := ServedIssues(derive, a, req, c);
      CommittedWith(a.cache, a.onCommit, Registered(b, end, false));
      CacheCommutes(a.cache, a.onCommit, b, end);
    } else {
      ServedNothing(derive, a, req);
      CommittedWith(a.cache, a.onCommit, Registered(b, a.cache.Next(b), true));
    }
  }

  lemma ProgressComposes(derive: Derive, a: Account, mid: Account, a': Account, c: bool)
    requires Progressed(derive, a, mid, c) && Progressed(derive, mid, a', c)
    ensures Progressed(derive, a, a', c)
  {
    ValidInComposes(Stops(derive, c), a.stored.Next(c), mid.stored.Next(c), a'.stored.Next(c));
  }

  /** The requests of one transaction, as one branch sees them. */
  lemma {:induction false} BranchServed(derive: Derive, a: Account, reqs: seq<Request>, c: bool)
    requires GoodDerive(derive) && Ready(a, c) && !Overlaps(derive, a, reqs, c)
    ensures
      var r := ServedAll(derive, a, reqs);
      && Progressed(derive, a, r, c) && (!Panics(r.onCommit) ==> Done(r, c))
      && (Allocated !in Effects(derive, a, reqs, c) ==> Ready(r, c))
  {
    if reqs == [] {
      Undisturbed(a.cache, a.onCommit, c);
    } else {
      var n := |reqs| - 1;
      var before, last := ServedAll(derive, a, reqs[..n]), reqs[n];
      OverlapMore(Effects(derive, a, reqs[..n], c), EffectOf(derive, before, last, c));
      BranchServed(derive, a, reqs[..n], c);
      if Panics(before.onCommit) {
        PanicsGrow(derive, before, last);
      }
      if EffectOf(derive, before, last, c) == Nothing {
        OtherServed(derive, before, last, c);
      } else {
        OneServed(derive, before, last);
        ProgressComposes(derive, a, before, ServedAll(derive, a, reqs), c);
      }
    }
  }

  /** The cached next index of the branch is the stored one, and nothing is registered. */
  predicate InStep(a: Account, c: bool) {
    a.onCommit == [] && a.cache.Next(c) == a.stored.Next(c)
  }

  /** Over any run of committed transactions in none of which a branch is issued addresses
      after an allocation, the cached next index of the branch is always the one in the
      stored row, and the branch has handed out exactly its valid indexes from where it
      began to where it stands: strictly increasing, skipping only invalid ones, none
      twice. */
  lemma {:induction false} AllocationsStayInStep(derive: Derive, a: Account, txs: seq<seq<Request>>, c: bool)
    requires GoodDerive(derive) && InStep(a, c) && CommitsSucceed(derive, a, txs) && !SomeOverlaps(derive, a, txs, c)
    ensures InStep(Transactions(derive, a, txs), c) && Progressed(derive, a, Transactions(derive, a, txs), c)
  {
    if txs != [] {
      var n := |txs| - 1;
      var before := Transactions(derive, a, txs[..n]);
      AllocationsStayInStep(derive, a, txs[..n], c);
      BranchServed(derive, before, txs[n], c);
      ProgressComposes(derive, a, before, Transactions(derive, a, txs), c);
    }
  }

  /** Some index is issued twice. */
  predicate Repeats(issued: seq<nat>) {
    exists j, k :: 0 <= j < k < |issued| && issued[j] == issued[k]
  }

  /** What has been issued on the branch lies below its next index, and nothing twice. */
  predicate IssuedBelow(a: Account, c: bool) {
    !Repeats(IssuedOn(a.addresses, c)) && forall i :: i in IssuedOn(a.addresses, c) ==> i < a.stored.Next(c)
  }

  lemma RepeatsStay(s: seq<nat>, t: seq<nat>)
    ensures Repeats(s) ==> Repeats(s + t)
    ensures (exists i :: i in s && i in t) ==> Repeats(s + t)
  {
    var both := s + t;
    if Repeats(s) {
      var j, k :| 0 <= j < k < |s| && s[j] == s[k];
      assert both[j] == both[k];
    }
    if i :| i in s && i in t {
      var j, k :| 0 <= j < |s| && s[j] == i && 0 <= k < |t| && t[k] == i;
      assert both[j] == both[|s| + k];
    }
  }

  /** What a request issues on a branch comes after what was issued before. */
  lemma {:induction false} IssuedOnlyGrows(derive: Derive, a: Account, req: Request, c: bool)
    requires GoodDerive(derive)
    ensures IssuedOn(a.addresses, c) <= IssuedOn(Served(derive, a, req).addresses, c)
    ensures Repeats(IssuedOn(a.addresses, c)) ==> Repeats(IssuedOn(Served(derive, a, req).addresses, c))
  {
    if Issues(derive, a, req) {
      var end := ServedIssues(derive, a, req, c);
    } else {
      ServedNothing(derive, a, req);
    }
    var was, now := IssuedOn(a.addresses, c), IssuedOn(Served(derive, a, req).addresses, c);
    assert now == was + now[|was|..];
    RepeatsStay(was, now[|was|..]);
  }

  /** Whatever issues addresses on a branch issues the first valid index at or above the
      cached next one. */
  lemma {:induction false} FirstIssued(derive: Derive, a: Account, req: Request)
    requires GoodDerive(derive) && Issues(derive, a, req)
    ensures
      var c, r := req.internal, Served(derive, a, req);
      var v := NextValid(Stops(derive, c), a.cache.Next(c));
      && v in IssuedOn(r.addresses, c)
      && (v in IssuedOn(a.addresses, c) ==> Repeats(IssuedOn(r.addresses, c)))
  {
    var c := req.internal;
    var valid, from := Stops(derive, c), a.cache.Next(c);
    var end := ServedIssues(derive, a, req, c);
    ValidInExactly(valid, from, end, NextValid(valid, from));
    RepeatsStay(IssuedOn(a.addresses, c), ValidIn(valid, from, end));
  }

  /** Whatever state it starts in, a transaction repeats an index on a branch if it issues
      addresses there after an allocation: the cached index has not moved. */
  lemma {:induction false} OverlapRepeats(derive: Derive, a: Account, reqs: seq<Request>, c: bool)
    requires GoodDerive(derive)
    ensures
      var r := ServedAll(derive, a, reqs);
      && (Overlaps(derive, a, reqs, c) ==> Repeats(IssuedOn(r.addresses, c)))
      && (Allocated in Effects(derive, a, reqs, c) && !Overlaps(derive, a, reqs, c) ==>
            NextValid(Stops(derive, c), r.cache.Next(c)) in IssuedOn(r.addresses, c))
  {
    if reqs != [] {
      var n := |reqs| - 1;
      var before, last := ServedAll(derive, a, reqs[..n]), reqs[n];
      OverlapRepeats(derive, a, reqs[..n], c);
      OverlapMore(Effects(derive, a, reqs[..n], c), EffectOf(derive, before, last, c));
      IssuedOnlyGrows(derive, before, last, c);
      if EffectOf(derive, before, last, c) == Nothing {
        OtherServed(derive, before, last, c);
      } else {
        var end := ServedIssues(derive, before, last, c);
        FirstIssued(derive, before, last);
      }
    }
  }

  lemma {:induction false} ProgressedBelow(derive: Derive, a: Account, a': Account, c: bool)
    requires Progressed(derive, a, a', c) && IssuedBelow(a, c)
    ensures IssuedBelow(a', c)
  {
    var valid, from, to := Stops(derive, c), a.stored.Next(c), a'.stored.Next(c);
    var issued, more := IssuedOn(a.addresses, c), ValidIn(valid, from, to);
    forall i
      ensures i in more <==> from <= i < to && valid(i)
    {
      ValidInExactly(valid, from, to, i);
    }
    forall j, k | 0 <= j < k < |issued + more|
      ensures (issued + more)[j] != (issued + more)[k]
    {
      if j >= |issued| {
        ValidInIncreases(valid, from, to, j - |issued|, k - |issued|);
      } else if k >= |issued| {
        assert (issued + more)[k] in more && issued[j] in issued;
      }
    }
  }

  /** A transaction hands out some index of a branch twice if and only if some request is
      served on the branch after an allocation was: the first starts where the second did.
      Requests that come after extensions only are harmless, for these move the cached
      index at once. */
  lemma {:induction false} RepeatsExactly(derive: Derive, a: Account, reqs: seq<Request>, c: bool)
    requires GoodDerive(derive) && InStep(a, c) && IssuedBelow(a, c)
    ensures Repeats(IssuedOn(ServedAll(derive, a, reqs).addresses, c)) <==> Overlaps(derive, a, reqs, c)
  {
    OverlapRepeats(derive, a, reqs, c);
    if !Overlaps(derive, a, reqs, c) {
      BranchServed(derive, a, reqs, c);
      ProgressedBelow(derive, a, ServedAll(derive, a, reqs), c);
    }
  }

  lemma {:induction false} RepeatsStayServed(derive: Derive, a: Account, reqs: seq<Request>, c: bool)
    requires GoodDerive(derive) && Repeats(IssuedOn(a.addresses, c))
    ensures Repeats(IssuedOn(ServedAll(derive, a, reqs).addresses, c))
  {
    if reqs != [] {
      RepeatsStayServed(derive, a, reqs[..|reqs| - 1], c);
      IssuedOnlyGrows(derive, ServedAll(derive, a, reqs[..|reqs| - 1]), reqs[|reqs| - 1], c);
    }
  }

  /** And so over whole runs of committed transactions. */
  lemma {:induction false} RunRepeatsExactly(derive: Derive, a: Account, txs: seq<seq<Request>>, c: bool)
    requires GoodDerive(derive) && InStep(a, c) && IssuedBelow(a, c) && CommitsSucceed(derive, a, txs)
    ensures Repeats(IssuedOn(Transactions(derive, a, txs).addresses, c)) <==> SomeOverlaps(derive, a, txs, c)
  {
    if txs != [] {
      var n := |txs| - 1;
      var before := Transactions(derive, a, txs[..n]);
      RunRepeatsExactly(derive, a, txs[..n], c);
      if SomeOverlaps(derive, a, txs[..n], c) {
        RepeatsStayServed(derive, before, txs[n], c);
      } else {
        AllocationsStayInStep(derive, a, txs[..n], c);
        ProgressedBelow(derive, a, before, c);
        RepeatsExactly(derive, before, txs[n], c);
      }
    }
  }

  /** No request on the branch follows an allocation on it. */
  predicate AllocatesLast(reqs: seq<Request>, c: bool) {
    forall j, k :: 0 <= j < k < |reqs| && reqs[j].internal == c && reqs[k].internal == c ==> reqs[j].ExtendTo?
  }

  /** What a caller can check beforehand: a transaction in which nothing follows an
      allocation on its branch, such as one of extensions only, does not overlap. */
  lemma {:induction false} AllocatesLastIsSafe(derive: Derive, a: Account, reqs: seq<Request>, c: bool)
    requires GoodDerive(derive) && AllocatesLast(reqs, c)
    ensures !Overlaps(derive, a, reqs, c)
    ensures forall k :: 0 <= k < |reqs| && Effects(derive, a, reqs, c)[k] == Allocated ==> reqs[k].Next? && reqs[k].internal == c
  {
    if reqs != [] {
      var n := |reqs| - 1;
      AllocatesLastIsSafe(derive, a, reqs[..n], c);
      OverlapMore(Effects(derive, a, reqs[..n], c), EffectOf(derive, ServedAll(derive, a, reqs[..n]), reqs[n], c));
    }
  }

  /** The cached next index never falls, and rises only by an extension. */
  lemma {:induction false} CacheRises(derive: Derive, a: Account, reqs: seq<Request>, c: bool)
    requires GoodDerive(derive)
    ensures a.cache.Next(c) <= ServedAll(derive, a, reqs).cache.Next(c)
    ensures a.cache.Next(c) < ServedAll(derive, a, reqs).cache.Next(c) <==> Extended in Effects(derive, a, reqs, c)
  {
    if reqs != [] {
      var n := |reqs| - 1;
      var before, last := ServedAll(derive, a, reqs[..n]), reqs[n];
      CacheRises(derive, a, reqs[..n], c);
      if EffectOf(derive, before, last, c) == Nothing {
        OtherServed(derive, before, last, c);
      } else {
        var end := ServedIssues(derive, before, last, c);
      }
    }
  }

  /** A transaction that is rolled back leaves cache and row in step if and only if no
      extension was served in it. */
  lemma {:induction false} RollbackInStepExactly(derive: Derive, a: Account, reqs: seq<Request>, c: bool)
    requires GoodDerive(derive) && InStep(a, c)
    ensures InStep(RolledBack(a, ServedAll(derive, a, reqs)), c) <==> Extended !in Effects(derive, a, reqs, c)
  {
    CacheRises(derive, a, reqs, c);
  }

  /** The request allocates nought addresses, and is served. */
  predicate AllocatesNone(a: Account, req: Request) {
    req.Next? && req.count == 0 && !TooMany(a.cache.Next(req.internal), 0)
  }

  ghost predicate SomeAllocatesNone(derive: Derive, a: Account, reqs: seq<Request>)
    requires GoodDerive(derive)
  {
    reqs != [] &&
    var before, last := reqs[..|reqs| - 1], reqs[|reqs| - 1];
    SomeAllocatesNone(derive, a, before) || AllocatesNone(ServedAll(derive, a, before), last)
  }

  /** A commit panics if and only if a request for nought addresses was served before it. */
  lemma {:induction false} CommitPanicsExactly(derive: Derive, a: Account, reqs: seq<Request>)
    requires GoodDerive(derive) && a.onCommit == []
    ensures Panics(ServedAll(derive, a, reqs).onCommit) <==> SomeAllocatesNone(derive, a, reqs)
  {
    if reqs != [] {
      var n := |reqs| - 1;
      var before, last := ServedAll(derive, a, reqs[..n]), reqs[n];
      CommitPanicsExactly(derive, a, reqs[..n]);
      OnePanics(derive, before, last);
    }
  }

  lemma {:induction false} OnePanics(derive: Derive, a: Account, req: Request)
    requires GoodDerive(derive)
    ensures Panics(Served(derive, a, req).onCommit) <==> Panics(a.onCommit) || AllocatesNone(a, req)
  {
    if Issues(derive, a, req) {
      var end := ServedIssues(derive, a, req, req.internal);
      CommittedWith(a.cache, a.onCommit, Registered(req.internal, end, false));
    } else {
      CommittedWith(a.cache, a.onCommit, Registered(req.internal, a.cache.Next(req.internal), true));
      ServedNothing(derive, a, req);
    }
  }
}
