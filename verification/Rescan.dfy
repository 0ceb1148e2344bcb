/** Batching rescan jobs (wallet/rescan.go): one batch is being rescanned, later jobs are
    merged into one pending batch, and every job is told the result of its batch. */
module Rescan {
  import opened BlockTree
  import opened ChainData
  import opened Optional

  datatype Job = Job(initialSync: bool, addrs: seq<Address>, outPoints: map<OutPoint, Address>, bs: BlockStamp)

  /** The error channels are numbered by the jobs they belong to. */
  datatype Batch = Batch(
    initialSync: bool, addrs: seq<Address>, outPoints: map<OutPoint, Address>, bs: BlockStamp, errChans: seq<nat>)

  function BatchOf(job: Job, err: nat): Batch {
    Batch(job.initialSync, job.addrs, job.outPoints, job.bs, [err])
  }

  function Merged(b: Batch, job: Job, err: nat): Batch {
    Batch(b.initialSync || job.initialSync, b.addrs + job.addrs, b.outPoints + job.outPoints,
          if job.bs.height < b.bs.height then job.bs else b.bs, b.errChans + [err])
  }

  /** The error a rescan ended with, or None. */
  type Outcome = Option<nat>

  /** A result as it is sent on an error channel. */
  datatype Result = Result(errChan: nat, outcome: Outcome)

  /** The manager: the current and the pending batch, all batches handed to the rescan
      handler so far, all jobs accepted, the outcomes of the batches that have been
      rescanned, and the results sent. */
  datatype ManagerState = ManagerState(
    cur: Option<Batch>, next: Option<Batch>, dispatched: seq<Batch>, jobs: seq<Job>, outcomes: seq<Outcome>, sent: seq<Result>)

  datatype Event = Submit(job: Job) | Finished | Serve(outcome: Outcome)

  /** One outcome sent on each of some channels. */
  function ToAll(errChans: seq<nat>, outcome: Outcome): (r: seq<Result>)
    ensures |r| == |errChans|
  {
    seq(|errChans|, i requires 0 <= i < |errChans| => Result(errChans[i], outcome))
  }

  function Dispatch(s: ManagerState, b: Option<Batch>): ManagerState {
    s.(cur := b, next := None, dispatched := if b.Some? then s.dispatched + [b.value] else s.dispatched)
  }

  function Step(s: ManagerState, e: Event): ManagerState {
    match e
    case Submit(job) =>
      var err, s' := |s.jobs|, s.(jobs := s.jobs + [job]);
      if s.cur.None? then Dispatch(s', Some(BatchOf(job, err))).(next := s.next)
      else if s.next.None? then s'.(next := Some(BatchOf(job, err)))
      else s'.(next := Some(Merged(s.next.value, job, err)))
    case Finished =>
      if s.cur.None? then s else Dispatch(s, s.next)
    case Serve(outcome) =>
      var k := |s.outcomes|;
      if k < |s.dispatched| then
        s.(outcomes := s.outcomes + [outcome], sent := s.sent + ToAll(s.dispatched[k].errChans, outcome))
      else s
  }

  function Run(events: seq<Event>): ManagerState {
    if events == [] then ManagerState(None, None, [], [], [], [])
    else Step(Run(events[..|events| - 1]), events[|events| - 1])
  }

  class RescanBatch {
    var initialSync: bool
    var addrs: seq<Address>
    var outPoints: map<OutPoint, Address>
    var bs: BlockStamp
    var errChans: seq<nat>

    constructor (job: Job, err: nat)
      ensures Value() == BatchOf(job, err)
    {
      initialSync, addrs, outPoints, bs, errChans := job.initialSync, job.addrs, job.outPoints, job.bs, [err];
    }

    function Value(): Batch reads this {
      Batch(initialSync, addrs, outPoints, bs, errChans)
    }

    /** Merges a job into the batch; the rescan starts at the lower of the two heights. */
    method Merge(job: Job, err: nat)
      modifies this
      ensures Value() == Merged(old(Value()), job, err)
    {
      if job.initialSync {
        initialSync := true;
      }
      addrs := addrs + job.addrs;
      outPoints := outPoints + job.outPoints;
      if job.bs.height < bs.height {
        bs := job.bs;
      }
      errChans := errChans + [err];
    }
  }

  class RescanManager {
    var curBatch: RescanBatch?
    var nextBatch: RescanBatch?
    ghost var dispatched: seq<Batch>
    ghost var jobs: seq<Job>
    ghost var outcomes: seq<Outcome>
    var sent: seq<Result>

    constructor ()
      ensures Valid() && State() == Run([])
    {
      curBatch, nextBatch, dispatched, jobs, outcomes, sent := null, null, [], [], [], [];
    }

    ghost predicate Valid() reads this {
      curBatch != null ==> curBatch != nextBatch
    }

    ghost function State(): ManagerState reads this, curBatch, nextBatch {
      ManagerState(ValueOf(curBatch), ValueOf(nextBatch), dispatched, jobs, outcomes, sent)
    }

    ghost function ValueOf(b: RescanBatch?): Option<Batch> reads b {
      if b == null then None else Some(b.Value())
    }

    /** The batch handler receives a job. */
    method OnJob(job: Job, err: nat)
      requires Valid() && err == |jobs|
      modifies this, nextBatch
      ensures Valid() && State() == Step(old(State()), Submit(job))
    {
      jobs := jobs + [job];
      if curBatch == null {
        curBatch := new RescanBatch(job, err);
        dispatched := dispatched + [curBatch.Value()];
      } else if nextBatch == null {
        nextBatch := new RescanBatch(job, err);
      } else {
        nextBatch.Merge(job, err);
      }
    }

    /** The batch handler is told that a rescan has finished. */
    method OnRescanFinished()
      requires Valid()
      modifies this
      ensures Valid() && State() == Step(old(State()), Finished)
    {
      if curBatch == null {
        return;
      }
      curBatch, nextBatch := nextBatch, null;
      if curBatch != null {
        dispatched := dispatched + [curBatch.Value()];
      }
    }

    /** The rescan handler has received the oldest batch it has not served yet, rescanned it,
        and sends the outcome to everyone in the batch. */
    method OnBatch(errChans: seq<nat>, outcome: Outcome)
      requires Valid() && |outcomes| < |dispatched| && errChans == dispatched[|outcomes|].errChans
      modifies this`outcomes, this`sent
      ensures Valid() && State() == Step(old(State()), Serve(outcome))
    {
      for i := 0 to |errChans|
        invariant outcomes == old(outcomes) && sent == old(sent) + ToAll(errChans[..i], outcome)
      {
        sent := sent + [Result(errChans[i], outcome)];
        assert ToAll(errChans[..i + 1], outcome) == ToAll(errChans[..i], outcome) + [Result(errChans[i], outcome)];
      }
      assert errChans[..|errChans|] == errChans;
      outcomes := outcomes + [outcome];
    }
  }
}
