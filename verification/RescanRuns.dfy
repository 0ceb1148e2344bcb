/** What any run of submissions, finished rescans and served batches keeps. */
module RescanRuns {
  import opened ChainData
  import opened Optional
  import opened Rescan

  predicate WantsAddr(jobs: seq<Job>, c: nat, a: Address) { c < |jobs| && a in jobs[c].addrs }

  predicate WantsOutPoint(jobs: seq<Job>, c: nat, op: OutPoint) { c < |jobs| && op in jobs[c].outPoints }

  predicate WantsInitialSync(jobs: seq<Job>, c: nat) { c < |jobs| && jobs[c].initialSync }

  predicate StartsBy(jobs: seq<Job>, c: nat, height: int) { c < |jobs| && height <= jobs[c].bs.height }

  /** The batch does what each of its jobs asks for, and nothing else. */
  ghost predicate Summarises(b: Batch, jobs: seq<Job>) {
    && b.errChans != []
    && (forall a :: a in b.addrs <==> exists c :: c in b.errChans && WantsAddr(jobs, c, a))
    && (forall op :: op in b.outPoints <==> exists c :: c in b.errChans && WantsOutPoint(jobs, c, op))
    && (b.initialSync <==> exists c :: c in b.errChans && WantsInitialSync(jobs, c))
    && (forall c :: c in b.errChans ==> StartsBy(jobs, c, b.bs.height))
    && (exists c :: c in b.errChans && c < |jobs| && jobs[c].bs == b.bs)
  }

  lemma JobAdded(jobs: seq<Job>, job: Job)
    ensures forall c, a :: WantsAddr(jobs + [job], c, a) <==> WantsAddr(jobs, c, a) || (c == |jobs| && a in job.addrs)
    ensures forall c, op :: WantsOutPoint(jobs + [job], c, op) <==>
              WantsOutPoint(jobs, c, op) || (c == |jobs| && op in job.outPoints)
    ensures forall c :: WantsInitialSync(jobs + [job], c) <==> WantsInitialSync(jobs, c) || (c == |jobs| && job.initialSync)
    ensures forall c, h :: StartsBy(jobs + [job], c, h) <==> StartsBy(jobs, c, h) || (c == |jobs| && h <= job.bs.height)
  {
  }

  lemma FreshSummarises(jobs: seq<Job>, job: Job)
    ensures Summarises(BatchOf(job, |jobs|), jobs + [job])
  {
    JobAdded(jobs, job);
    assert |jobs| in BatchOf(job, |jobs|).errChans;
  }

  lemma StillSummarises(b: Batch, jobs: seq<Job>, job: Job)
    requires Summarises(b, jobs)
    ensures Summarises(b, jobs + [job])
  {
    JobAdded(jobs, job);
    assert forall c :: c in b.errChans ==> StartsBy(jobs, c, b.bs.height);
  }

  lemma MergedSummarises(b: Batch, jobs: seq<Job>, job: Job)
    requires Summarises(b, jobs)
    ensures Summarises(Merged(b, job, |jobs|), jobs + [job])
  {
    JobAdded(jobs, job);
    var err, m := |jobs|, Merged(b, job, |jobs|);
    assert forall c :: c in m.errChans <==> c in b.errChans || c == err;
    assert err in m.errChans;
    assert forall c :: c in b.errChans ==> StartsBy(jobs, c, b.bs.height);
  }

  /** All batches in order: those dispatched, and the pending one. */
  function Batches(s: ManagerState): seq<Batch> {
    s.dispatched + if s.next.Some? then [s.next.value] else []
  }

  function ErrChans(bs: seq<Batch>): seq<nat> {
    if bs == [] then [] else ErrChans(bs[..|bs| - 1]) + bs[|bs| - 1].errChans
  }

  /** 0, 1, up to n - 1. */
  function UpTo(n: nat): (r: seq<nat>)
    ensures |r| == n && forall i :: 0 <= i < n ==> r[i] == i
  {
    seq(n, i => i)
  }

  lemma {:induction false} ErrChansSnoc(bs: seq<Batch>, b: Batch)
    ensures ErrChans(bs + [b]) == ErrChans(bs) + b.errChans
  {
    assert (bs + [b])[..|bs|] == bs;
  }

  /** The channels on which results were sent. */
  function ErrChansOf(sent: seq<Result>): (r: seq<nat>)
    ensures |r| == |sent|
  {
    seq(|sent|, i requires 0 <= i < |sent| => sent[i].errChan)
  }

  /** A pending batch exists only while one is current; every job is in exactly one place
      of one batch, in the order of acceptance; every batch does what its jobs ask for; and
      results have been sent to the jobs of the batches served, in that order. */
  ghost predicate Kept(s: ManagerState) {
    && (s.next.Some? ==> s.cur.Some?)
    && (s.cur.Some? ==> s.dispatched != [] && s.cur.value == s.dispatched[|s.dispatched| - 1])
    && ErrChans(Batches(s)) == UpTo(|s.jobs|)
    && (forall b :: b in Batches(s) ==> Summarises(b, s.jobs))
    && |s.outcomes| <= |s.dispatched| && ErrChansOf(s.sent) == ErrChans(s.dispatched[..|s.outcomes|])
  }

  /** A submitted job ends up at the end of the last batch, or in a batch of its own. */
  lemma {:induction false} SubmitOrders(s: ManagerState, job: Job)
    requires s.next.Some? ==> s.cur.Some?
    ensures ErrChans(Batches(Step(s, Submit(job)))) == ErrChans(Batches(s)) + [|s.jobs|]
  {
    var err, s' := |s.jobs|, Step(s, Submit(job));
    if s.next.Some? {
      ErrChansSnoc(s.dispatched, s.next.value);
      ErrChansSnoc(s.dispatched, s'.next.value);
    } else {
      assert Batches(s) == s.dispatched && Batches(s') == s.dispatched + [BatchOf(job, err)];
      ErrChansSnoc(s.dispatched, BatchOf(job, err));
    }
  }

  lemma {:induction false} SubmitSummarises(s: ManagerState, job: Job, b: Batch)
    requires (s.next.Some? ==> s.cur.Some?) && forall x :: x in Batches(s) ==> Summarises(x, s.jobs)
    requires b in Batches(Step(s, Submit(job)))
    ensures Summarises(b, s.jobs + [job])
  {
    if b in Batches(s) {
      StillSummarises(b, s.jobs, job);
    } else if s.next.Some? {
      assert s.next.value in Batches(s);
      MergedSummarises(s.next.value, s.jobs, job);
    } else {
      FreshSummarises(s.jobs, job);
    }
  }

  lemma {:induction false} AllSummarise(s: ManagerState, job: Job)
    requires (s.next.Some? ==> s.cur.Some?) && forall x :: x in Batches(s) ==> Summarises(x, s.jobs)
    ensures forall b :: b in Batches(Step(s, Submit(job))) ==> Summarises(b, s.jobs + [job])
  {
    forall b | b in Batches(Step(s, Submit(job)))
      ensures Summarises(b, s.jobs + [job])
    {
      SubmitSummarises(s, job, b);
    }
  }

  lemma {:induction false} UpToMore(n: nat)
    ensures UpTo(n + 1) == UpTo(n) + [n]
  {
  }

  lemma {:induction false} SubmitKeeps(s: ManagerState, job: Job)
    requires Kept(s)
    ensures Kept(Step(s, Submit(job)))
  {
    var s' := Step(s, Submit(job));
    SubmitOrders(s, job);
    UpToMore(|s.jobs|);
    AllSummarise(s, job);
    assert s'.dispatched[..|s.outcomes|] == s.dispatched[..|s.outcomes|];
  }

  lemma {:induction false} FinishedKeeps(s: ManagerState)
    requires Kept(s)
    ensures Kept(Step(s, Finished))
  {
    var s' := Step(s, Finished);
    assert Batches(s') == Batches(s);
    assert s'.dispatched[..|s.outcomes|] == s.dispatched[..|s.outcomes|];
  }

  lemma ToldAll(sent: seq<Result>, errChans: seq<nat>, outcome: Outcome)
    ensures ErrChansOf(sent + ToAll(errChans, outcome)) == ErrChansOf(sent) + errChans
  {
    var told := ToAll(errChans, outcome);
    assert ErrChansOf(told) == errChans;
    assert ErrChansOf(sent + told) == ErrChansOf(sent) + ErrChansOf(told);
  }

  lemma {:induction false} OnlyResultsKeep(s: ManagerState, outcomes: seq<Outcome>, sent: seq<Result>)
    requires Kept(s) && |outcomes| <= |s.dispatched| && ErrChansOf(sent) == ErrChans(s.dispatched[..|outcomes|])
    ensures Kept(s.(outcomes := outcomes, sent := sent))
  {
    assert Batches(s.(outcomes := outcomes, sent := sent)) == Batches(s);
  }

  lemma {:induction false} ServeKeeps(s: ManagerState, outcome: Outcome)
    requires Kept(s)
    ensures Kept(Step(s, Serve(outcome)))
  {
    var k := |s.outcomes|;
    if k < |s.dispatched| {
      var b := s.dispatched[k];
      assert s.dispatched[..k + 1] == s.dispatched[..k] + [b];
      ErrChansSnoc(s.dispatched[..k], b);
      ToldAll(s.sent, b.errChans, outcome);
      OnlyResultsKeep(s, s.outcomes + [outcome], s.sent + ToAll(b.errChans, outcome));
    }
  }

  lemma {:induction false} RunKeeps(events: seq<Event>)
    ensures Kept(Run(events))
  {
    if events != [] {
      RunKeeps(events[..|events| - 1]);
      match events[|events| - 1] {
        case Submit(job) => SubmitKeeps(Run(events[..|events| - 1]), job);
        case Finished => FinishedKeeps(Run(events[..|events| - 1]));
        case Serve(outcome) => ServeKeeps(Run(events[..|events| - 1]), outcome);
      }
    }
  }

  /** The addresses of some jobs, one after the other. */
  function AllAddrs(jobs: seq<Job>, chans: seq<nat>): seq<Address> {
    if chans == [] then []
    else
      var c := chans[|chans| - 1];
      AllAddrs(jobs, chans[..|chans| - 1]) + if c < |jobs| then jobs[c].addrs else []
  }

  /** The address for an outpoint comes from the last job of the batch that names it. */
  ghost predicate FromLast(b: Batch, jobs: seq<Job>, op: OutPoint)
    requires op in b.outPoints
  {
    exists c :: c in b.errChans && WantsOutPoint(jobs, c, op) && b.outPoints[op] == jobs[c].outPoints[op]
             && forall d :: d in b.errChans && WantsOutPoint(jobs, d, op) ==> d <= c
  }

  predicate StartsHigher(jobs: seq<Job>, c: nat, height: int) { c < |jobs| && jobs[c].bs.height > height }

  /** The start comes from the first of the jobs that start lowest. */
  ghost predicate StartsAtFirst(b: Batch, jobs: seq<Job>) {
    exists c :: c in b.errChans && c < |jobs| && jobs[c].bs == b.bs
             && forall d :: d in b.errChans && d < c ==> StartsHigher(jobs, d, b.bs.height)
  }

  /** Where all that is in a batch comes from. */
  ghost predicate Composed(b: Batch, jobs: seq<Job>) {
    && (forall c :: c in b.errChans ==> StartsBy(jobs, c, b.bs.height))
    && b.addrs == AllAddrs(jobs, b.errChans) && StartsAtFirst(b, jobs)
    && (forall op :: op in b.outPoints ==> FromLast(b, jobs, op))
    && (forall c, op :: c in b.errChans && WantsOutPoint(jobs, c, op) ==> op in b.outPoints)
  }

  lemma {:induction false} AllAddrsMore(jobs: seq<Job>, job: Job, chans: seq<nat>)
    requires forall c :: c in chans ==> c < |jobs|
    ensures AllAddrs(jobs + [job], chans) == AllAddrs(jobs, chans)
  {
    if chans != [] {
      var before, last := chans[..|chans| - 1], chans[|chans| - 1];
      assert chans == before + [last] && last in chans;
      assert forall c :: c in before ==> c in chans;
      AllAddrsMore(jobs, job, before);
    }
  }

  lemma StillComposed(b: Batch, jobs: seq<Job>, job: Job)
    requires Composed(b, jobs)
    ensures Composed(b, jobs + [job])
  {
    JobAdded(jobs, job);
    forall c | c in b.errChans
      ensures c < |jobs|
    {
      assert StartsBy(jobs, c, b.bs.height);
    }
    AllAddrsMore(jobs, job, b.errChans);
    var c :| c in b.errChans && c < |jobs| && jobs[c].bs == b.bs
             && forall d :: d in b.errChans && d < c ==> StartsHigher(jobs, d, b.bs.height);
    assert (jobs + [job])[c].bs == b.bs;
    assert forall d, h :: StartsHigher(jobs, d, h) ==> StartsHigher(jobs + [job], d, h);
    forall op | op in b.outPoints
      ensures FromLast(b, jobs + [job], op)
    {
      assert FromLast(b, jobs, op);
    }
  }

  lemma MergedComposed(b: Batch, jobs: seq<Job>, job: Job)
    requires Composed(b, jobs)
    ensures Composed(Merged(b, job, |jobs|), jobs + [job])
  {
    var err, m, more := |jobs|, Merged(b, job, |jobs|), jobs + [job];
    StillComposed(b, jobs, job);
    JobAdded(jobs, job);
    assert m.errChans[..|m.errChans| - 1] == b.errChans && m.errChans[|m.errChans| - 1] == err;
    assert forall c :: c in m.errChans <==> c in b.errChans || c == err;
    assert forall c :: c in b.errChans ==> StartsBy(jobs, c, b.bs.height);
    forall op | op in m.outPoints
      ensures FromLast(m, more, op)
    {
      if op in job.outPoints {
        assert err in m.errChans && WantsOutPoint(more, err, op) && m.outPoints[op] == more[err].outPoints[op];
      } else {
        assert FromLast(b, more, op);
      }
    }
    MergedStarts(b, jobs, job);
  }

  lemma MergedStarts(b: Batch, jobs: seq<Job>, job: Job)
    requires Composed(b, jobs)
    ensures StartsAtFirst(Merged(b, job, |jobs|), jobs + [job])
  {
    var err, m, more := |jobs|, Merged(b, job, |jobs|), jobs + [job];
    var c :| c in b.errChans && c < |jobs| && jobs[c].bs == b.bs
             && forall d :: d in b.errChans && d < c ==> StartsHigher(jobs, d, b.bs.height);
    assert forall d :: d in b.errChans ==> StartsBy(jobs, d, b.bs.height);
    assert forall d :: d in m.errChans <==> d in b.errChans || d == err;
    var first := if job.bs.height < b.bs.height then err else c;
    assert first in m.errChans && more[first].bs == m.bs;
    forall d | d in m.errChans && d < first
      ensures StartsHigher(more, d, m.bs.height)
    {
      assert StartsBy(jobs, d, b.bs.height) && (first == c ==> StartsHigher(jobs, d, b.bs.height));
    }
  }

  lemma FreshComposed(jobs: seq<Job>, job: Job)
    ensures Composed(BatchOf(job, |jobs|), jobs + [job])
  {
    var b, more := BatchOf(job, |jobs|), jobs + [job];
    assert b.errChans == [|jobs|] && b.errChans[..0] == [] && more[|jobs|] == job;
    assert AllAddrs(more, b.errChans) == AllAddrs(more, []) + job.addrs;
    assert |jobs| in b.errChans;
    forall op | op in b.outPoints
      ensures FromLast(b, more, op)
    {
      assert WantsOutPoint(more, |jobs|, op);
    }
  }

  /** In every run, every batch holds exactly what its jobs brought along: their addresses in
      order, for each outpoint the address that the last of them has for it, and the start of
      the first of those that start lowest. */
  lemma {:induction false} BatchesComposed(events: seq<Event>, b: Batch)
    requires b in Batches(Run(events))
    ensures Composed(b, Run(events).jobs)
  {
    if events != [] {
      var before, last := events[..|events| - 1], events[|events| - 1];
      var s := Run(before);
      RunKeeps(before);
      if b in Batches(s) {
        BatchesComposed(before, b);
        if last.Submit? {
          StillComposed(b, s.jobs, last.job);
        }
      } else if last.Submit? && s.next.Some? {
        assert s.next.value in Batches(s);
        BatchesComposed(before, s.next.value);
        MergedComposed(s.next.value, s.jobs, last.job);
      } else {
        assert last.Submit?;
        FreshComposed(s.jobs, last.job);
      }
    }
  }

  lemma {:induction false} PrefixOfErrChans(bs: seq<Batch>, n: nat)
    requires n <= |bs|
    ensures ErrChans(bs[..n]) <= ErrChans(bs)
    decreases |bs|
  {
    if n < |bs| {
      assert bs[..|bs| - 1][..n] == bs[..n];
      PrefixOfErrChans(bs[..|bs| - 1], n);
    } else {
      assert bs[..n] == bs;
    }
  }

  /** At every moment every job has been sent at most one result, so the buffer of one
      element never makes a sender wait; the jobs that have one are those that came first. */
  lemma {:induction false} AtMostOneResult(events: seq<Event>, c: nat)
    ensures
      var s := Run(events);
      && ErrChansOf(s.sent) == UpTo(|s.sent|) && |s.sent| <= |s.jobs|
      && multiset(ErrChansOf(s.sent))[c] == if c < |s.sent| then 1 else 0
  {
    var s := Run(events);
    RunKeeps(events);
    PrefixOfErrChans(Batches(s), |s.outcomes|);
    assert Batches(s)[..|s.outcomes|] == s.dispatched[..|s.outcomes|];
    CountUpTo(|s.sent|, c);
    assert ErrChansOf(s.sent) == UpTo(|s.sent|);
  }

  lemma StepGrows(s: ManagerState, e: Event)
    ensures s.dispatched <= Step(s, e).dispatched && s.outcomes <= Step(s, e).outcomes
  {
  }

  lemma {:induction false} ServedAreDispatched(events: seq<Event>)
    ensures |Run(events).outcomes| <= |Run(events).dispatched|
  {
    RunKeeps(events);
  }

  /** The result was sent for one of the first n batches. */
  ghost predicate SentFor(s: ManagerState, n: nat, r: Result)
    requires n <= |s.outcomes| <= |s.dispatched|
  {
    exists k :: 0 <= k < n && r.errChan in s.dispatched[k].errChans && r.outcome == s.outcomes[k]
  }

  /** The result sent on a channel is the outcome of a batch that the channel's job is in. */
  lemma {:induction false} ResultIsOfItsBatch(events: seq<Event>, r: Result)
    ensures
      var s := Run(events);
      |s.outcomes| <= |s.dispatched| && (r in s.sent <==> SentFor(s, |s.outcomes|, r))
  {
    if events != [] {
      var before, s, last := Run(events[..|events| - 1]), Run(events), events[|events| - 1];
      ResultIsOfItsBatch(events[..|events| - 1], r);
      StepGrows(before, last);
      ServedAreDispatched(events);
      SentForStays(before, s, r);
      if last.Serve? && |before.outcomes| < |before.dispatched| {
        InToAll(before.dispatched[|before.outcomes|].errChans, last.outcome, r);
      }
    }
  }

  lemma SentForStays(before: ManagerState, s: ManagerState, r: Result)
    requires before.dispatched <= s.dispatched && before.outcomes <= s.outcomes
    requires |before.outcomes| <= |before.dispatched| && |s.outcomes| <= |s.dispatched|
    ensures SentFor(s, |before.outcomes|, r) <==> SentFor(before, |before.outcomes|, r)
  {
  }

  lemma InToAll(errChans: seq<nat>, outcome: Outcome, r: Result)
    ensures r in ToAll(errChans, outcome) <==> r.errChan in errChans && r.outcome == outcome
  {
    if r.errChan in errChans && r.outcome == outcome {
      var i :| 0 <= i < |errChans| && errChans[i] == r.errChan;
      assert ToAll(errChans, outcome)[i] == r;
    }
  }

  lemma {:induction false} CountUpTo(n: nat, c: nat)
    ensures multiset(UpTo(n))[c] == if c < n then 1 else 0
  {
    if n > 0 {
      CountUpTo(n - 1, c);
      assert UpTo(n) == UpTo(n - 1) + [n - 1];
    }
  }

  /** No job is in two batches, or twice in one. */
  lemma {:induction false} InOneBatch(events: seq<Event>, c: nat, k: nat, k': nat)
    requires
      var bs := Batches(Run(events));
      k < |bs| && k' < |bs| && c in bs[k].errChans && c in bs[k'].errChans
    ensures k == k' && multiset(Batches(Run(events))[k].errChans)[c] == 1
  {
    var bs, n := Batches(Run(events)), |Run(events).jobs|;
    RunKeeps(events);
    CountUpTo(n, c);
    OccursInErrChans(bs, c);
    OccursTwice(bs, c, k, k');
  }

  lemma {:induction false} BatchWith(bs: seq<Batch>, c: nat) returns (k: nat)
    requires c in ErrChans(bs)
    ensures k < |bs| && c in bs[k].errChans
  {
    var n := |bs| - 1;
    if c in bs[n].errChans {
      k := n;
    } else {
      k := BatchWith(bs[..n], c);
    }
  }

  /** Every accepted job is in a batch that starts no later than the job asks for and
      includes its addresses and outpoints. */
  lemma {:induction false} EveryJobHasABatch(events: seq<Event>, c: nat) returns (k: nat)
    requires c < |Run(events).jobs|
    ensures k < |Batches(Run(events))|
    ensures
      var b, job := Batches(Run(events))[k], Run(events).jobs[c];
      && c in b.errChans && b.bs.height <= job.bs.height && (job.initialSync ==> b.initialSync)
      && (forall a :: a in job.addrs ==> a in b.addrs) && job.outPoints.Keys <= b.outPoints.Keys
  {
    var s := Run(events);
    RunKeeps(events);
    assert UpTo(|s.jobs|)[c] == c;
    k := BatchWith(Batches(s), c);
    var b, job := Batches(s)[k], s.jobs[c];
    assert Summarises(b, s.jobs) && StartsBy(s.jobs, c, b.bs.height);
    assert job.initialSync ==> WantsInitialSync(s.jobs, c);
    forall a | a in job.addrs
      ensures a in b.addrs
    {
      assert WantsAddr(s.jobs, c, a);
    }
    forall op | op in job.outPoints
      ensures op in b.outPoints
    {
      assert WantsOutPoint(s.jobs, c, op);
    }
  }

  /** How often a channel occurs in the batches. */
  function Occurs(bs: seq<Batch>, c: nat): nat {
    if bs == [] then 0 else Occurs(bs[..|bs| - 1], c) + multiset(bs[|bs| - 1].errChans)[c]
  }

  lemma {:induction false} OccursInErrChans(bs: seq<Batch>, c: nat)
    ensures multiset(ErrChans(bs))[c] == Occurs(bs, c)
  {
    if bs != [] {
      OccursInErrChans(bs[..|bs| - 1], c);
    }
  }

  lemma {:induction false} OccursTwice(bs: seq<Batch>, c: nat, k: nat, k': nat)
    requires k < |bs| && k' < |bs|
    ensures Occurs(bs, c) >= multiset(bs[k].errChans)[c]
    ensures k != k' ==> Occurs(bs, c) >= multiset(bs[k].errChans)[c] + multiset(bs[k'].errChans)[c]
    decreases |bs|
  {
    var n := |bs| - 1;
    if k < n && k' < n {
      OccursTwice(bs[..n], c, k, k');
    } else if k < n {
      OccursTwice(bs[..n], c, k, k);
    } else if k' < n {
      OccursTwice(bs[..n], c, k', k');
    }
  }

  /** The rescan handler catches up: it serves a number of batches with these outcomes. */
  function Serves(outcomes: seq<Outcome>): seq<Event> {
    if outcomes == [] then [] else Serves(outcomes[..|outcomes| - 1]) + [Serve(outcomes[|outcomes| - 1])]
  }

  function ServedEach(s: ManagerState, outcomes: seq<Outcome>): ManagerState {
    if outcomes == [] then s
    else Step(ServedEach(s, outcomes[..|outcomes| - 1]), Serve(outcomes[|outcomes| - 1]))
  }

  lemma {:induction false} RunServes(events: seq<Event>, outcomes: seq<Outcome>)
    ensures Run(events + Serves(outcomes)) == ServedEach(Run(events), outcomes)
  {
    if outcomes == [] {
      assert events + [] == events;
    } else {
      var more := events + Serves(outcomes);
      RunServes(events, outcomes[..|outcomes| - 1]);
      assert more[..|more| - 1] == events + Serves(outcomes[..|outcomes| - 1]);
    }
  }

  lemma {:induction false} ServesAll(s: ManagerState, outcomes: seq<Outcome>)
    requires |outcomes| <= |s.dispatched| - |s.outcomes|
    ensures ServedEach(s, outcomes) == s.(outcomes := s.outcomes + outcomes, sent := ServedEach(s, outcomes).sent)
  {
    if outcomes != [] {
      var n := |outcomes| - 1;
      ServesAll(s, outcomes[..n]);
      assert s.outcomes + outcomes == s.outcomes + outcomes[..n] + [outcomes[n]];
    }
  }

  lemma {:induction false} AllServed(s: ManagerState)
    requires Kept(s) && s.next.None? && |s.outcomes| == |s.dispatched|
    ensures ErrChansOf(s.sent) == UpTo(|s.jobs|)
  {
    assert s.dispatched[..|s.outcomes|] == s.dispatched == Batches(s);
  }

  /** Once the current rescan has finished and the rescan handler has caught up, with
      whatever outcomes, every job accepted so far has been sent its result, exactly once. */
  lemma {:induction false} EveryJobIsAnswered(events: seq<Event>, outcomes: seq<Outcome>)
    requires |outcomes| == |Run(events + [Finished]).dispatched| - |Run(events + [Finished]).outcomes|
    ensures ErrChansOf(Run(events + [Finished] + Serves(outcomes)).sent) == UpTo(|Run(events).jobs|)
  {
    var done := events + [Finished];
    RunKeeps(done);
    assert done[..|events|] == events;
    assert Run(done) == Step(Run(events), Finished);
    RunKeeps(events);
    RunServes(done, outcomes);
    ServesAll(Run(done), outcomes);
    RunKeeps(done + Serves(outcomes));
    AllServed(Run(done + Serves(outcomes)));
  }

  lemma {:induction false} OnlyFirstDispatched(events: seq<Event>)
    requires Finished !in events
    ensures
      var s := Run(events);
      && s.dispatched == (if s.jobs == [] then [] else [BatchOf(s.jobs[0], 0)])
      && (s.cur.Some? <==> s.jobs != []) && (s.next.Some? <==> |s.jobs| >= 2)
  {
    if events != [] {
      var before := events[..|events| - 1];
      assert Finished !in before && events[|events| - 1] != Finished;
      OnlyFirstDispatched(before);
    }
  }

  /** A rescan whose request fails sends its outcome but is never reported as finished. As
      long as no rescan is, only the first job is dispatched and can be answered; all later
      ones stay in the pending batch. */
  lemma {:induction false} UnfinishedBlocksTheRest(events: seq<Event>)
    requires Finished !in events
    ensures
      var s := Run(events);
      && ErrChansOf(s.sent) <= [0]
      && (s.jobs != [] ==> s.dispatched == [BatchOf(s.jobs[0], 0)])
      && (if |s.jobs| < 2 then s.next.None? else s.next.Some? && s.next.value.errChans == UpTo(|s.jobs|)[1..])
  {
    var s := Run(events);
    OnlyFirstDispatched(events);
    RunKeeps(events);
    if s.jobs != [] {
      OneBatch(s.dispatched[0]);
      assert s.dispatched[..0] == [] && s.dispatched[..1] == s.dispatched;
      if s.next.Some? {
        ErrChansSnoc(s.dispatched, s.next.value);
        assert UpTo(|s.jobs|) == [0] + s.next.value.errChans;
      }
    }
  }

  lemma OneBatch(b: Batch)
    ensures ErrChans([b]) == b.errChans
  {
    ErrChansSnoc([], b);
    assert [] + [b] == [b];
  }

  /** How many of the events report a finished rescan while one was under way. */
  function RescansFinished(events: seq<Event>): nat {
    if events == [] then 0
    else
      var before, last := events[..|events| - 1], events[|events| - 1];
      RescansFinished(before) + if last == Finished && Run(before).cur.Some? then 1 else 0
  }

  /** Every rescan dispatched has finished, but for the one that is under way. */
  lemma {:induction false} OneUnderWay(events: seq<Event>)
    ensures |Run(events).dispatched| == RescansFinished(events) + if Run(events).cur.Some? then 1 else 0
  {
    if events != [] {
      OneUnderWay(events[..|events| - 1]);
      RunKeeps(events[..|events| - 1]);
    }
  }

  /** The rescans that the events themselves make room for, without looking at the manager:
      whether one is under way, and whether jobs wait for the next. */
  datatype Phase = Idle | Busy | Waiting

  function PhaseOf(events: seq<Event>): Phase {
    if events == [] then Idle
    else
      var before := PhaseOf(events[..|events| - 1]);
      match events[|events| - 1]
      case Submit(_) => if before == Idle then Busy else Waiting
      case Finished => if before == Waiting then Busy else Idle
      case Serve(_) => before
  }

  /** The manager is idle, busy, or busy with jobs waiting exactly when the events say so. */
  lemma {:induction false} FollowsPhases(events: seq<Event>)
    ensures Run(events).cur.Some? <==> PhaseOf(events) != Idle
    ensures Run(events).next.Some? <==> PhaseOf(events) == Waiting
  {
    if events != [] {
      FollowsPhases(events[..|events| - 1]);
    }
  }

  lemma {:induction false} RunMore(events: seq<Event>, e: Event)
    ensures Run(events + [e]) == Step(Run(events), e)
  {
    assert (events + [e])[..|events|] == events;
  }

  /** If nothing was pending when a rescan finished, a job submitted next is dispatched at
      once, as a batch of its own; what was pending is dispatched when the rescan finishes,
      and nothing else. */
  lemma {:induction false} NextIsDispatchedAtOnce(events: seq<Event>, job: Job)
    ensures
      var s, done := Run(events), Run(events + [Finished]);
      var own := BatchOf(job, |s.jobs|);
      && done.next.None? && done.jobs == s.jobs
      && done.dispatched == s.dispatched + (if s.next.Some? then [s.next.value] else [])
      && (s.next.None? ==>
            Run(events + [Finished] + [Submit(job)]) == done.(
              cur := Some(own), dispatched := done.dispatched + [own], jobs := done.jobs + [job]))
  {
    RunKeeps(events);
    RunMore(events, Finished);
    RunMore(events + [Finished], Submit(job));
  }
}
