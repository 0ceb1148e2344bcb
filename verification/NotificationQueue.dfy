/** The unbounded FIFO between a chain client and its caller (chain/queue.go): an output
    channel of fixed capacity, and an overflow list for what does not fit. */
module NotificationQueue {

  datatype QueueState<T> = QueueState(
    capacity: nat, chanOut: seq<T>, overflow: seq<T>, accepted: seq<T>, delivered: seq<T>)

  /** The channel operations that can happen to a started queue. `waiting` says that a
      receiver is blocked on the output channel, which lets a send bypass the buffer. */
  datatype Action<T> =
    | Push(item: T, waiting: bool)
    | Forward(waiting: bool)
    | Pop

  function Empty<T>(capacity: nat): QueueState<T> {
    QueueState(capacity, [], [], [], [])
  }

  predicate CanSend<T>(q: QueueState<T>, waiting: bool) {
    |q.chanOut| < q.capacity || (waiting && q.chanOut == [])
  }

  /** A send on the output channel that is known not to block. */
  function Send<T>(q: QueueState<T>, item: T, waiting: bool): QueueState<T>
    requires CanSend(q, waiting)
  {
    if waiting && q.chanOut == [] then q.(delivered := q.delivered + [item])
    else q.(chanOut := q.chanOut + [item])
  }

  function Step<T>(q: QueueState<T>, action: Action<T>): QueueState<T> {
    match action
    case Push(item, waiting) =>
      var q' := q.(accepted := q.accepted + [item]);
      if q.overflow == [] && CanSend(q, waiting) then Send(q', item, waiting)
      else q'.(overflow := q.overflow + [item])
    case Forward(waiting) =>
      if q.overflow != [] && CanSend(q, waiting) then
        Send(q, q.overflow[0], waiting).(overflow := q.overflow[1..])
      else q
    case Pop =>
      if q.chanOut == [] then q
      else q.(chanOut := q.chanOut[1..], delivered := q.delivered + [q.chanOut[0]])
  }

  function Run<T>(q: QueueState<T>, actions: seq<Action<T>>): QueueState<T> {
    if actions == [] then q
    else Step(Run(q, actions[..|actions| - 1]), actions[|actions| - 1])
  }

  /** The items a list of actions pushes, in order. */
  function Pushed<T>(actions: seq<Action<T>>): seq<T> {
    if actions == [] then []
    else
      var before, last := Pushed(actions[..|actions| - 1]), actions[|actions| - 1];
      if last.Push? then before + [last.item] else before
  }

  /** All items in the queue's hands and those delivered, oldest first. */
  function Through<T>(q: QueueState<T>): seq<T> {
    q.delivered + q.chanOut + q.overflow
  }

  /** A step adds the item it pushes at the end, and changes nothing else. */
  lemma {:induction false} StepConserves<T>(q: QueueState<T>, action: Action<T>)
    ensures Through(Step(q, action)) == Through(q) + if action.Push? then [action.item] else []
  {
    match action
    case Push(item, _) =>
      assert q.overflow == [] ==> q.delivered + q.chanOut + [] == q.delivered + q.chanOut;
      assert q.chanOut == [] ==> q.delivered + [] == q.delivered;
    case Forward(_) =>
      assert q.overflow != [] ==> q.overflow == [q.overflow[0]] + q.overflow[1..];
    case Pop =>
      assert q.chanOut != [] ==> q.chanOut == [q.chanOut[0]] + q.chanOut[1..];
  }

  /** Nothing is lost, duplicated or reordered, at any moment of any run: what was pushed
      is what was delivered, then what is buffered, then what overflowed. */
  lemma {:induction false} Fifo<T>(capacity: nat, actions: seq<Action<T>>)
    ensures
      var q := Run(Empty(capacity), actions);
      && q.accepted == Pushed(actions) == q.delivered + q.chanOut + q.overflow
      && |q.chanOut| <= capacity == q.capacity
  {
    if actions != [] {
      Fifo(capacity, actions[..|actions| - 1]);
      StepConserves(Run(Empty(capacity), actions[..|actions| - 1]), actions[|actions| - 1]);
    }
  }

  /** Items wait in the overflow only behind a full channel. */
  predicate Saturated<T>(q: QueueState<T>) {
    q.overflow != [] ==> |q.chanOut| >= q.capacity
  }

  /** The loop forwards what it can after every item that the caller takes. */
  function Eager<T>(actions: seq<Action<T>>): seq<Action<T>> {
    if actions == [] then []
    else
      var before, last := Eager(actions[..|actions| - 1]), actions[|actions| - 1];
      before + if last.Pop? then [last, Forward(false)] else [last]
  }

  lemma {:induction false} StepSaturates<T>(q: QueueState<T>, action: Action<T>)
    requires Saturated(q)
    ensures !action.Pop? ==> Saturated(Step(q, action))
    ensures Saturated(Step(Step(q, action), Forward(false)))
  {
  }

  /** So no item waits in the overflow while there is room in the channel: with a loop that
      keeps forwarding, this holds whatever is pushed and taken. */
  lemma {:induction false} OverflowsOnlyWhenFull<T>(capacity: nat, actions: seq<Action<T>>)
    ensures Saturated(Run(Empty(capacity), Eager(actions)))
  {
    if actions != [] {
      var before, last := actions[..|actions| - 1], actions[|actions| - 1];
      OverflowsOnlyWhenFull(capacity, before);
      var q := Run(Empty(capacity), Eager(before));
      StepSaturates(q, last);
      RunMore(Empty(capacity), Eager(before), last);
      RunMore(Empty(capacity), Eager(before) + [last], Forward(false));
      assert Eager(before) + [last, Forward(false)] == Eager(before) + [last] + [Forward(false)];
    }
  }

  lemma {:induction false} RunMore<T>(q: QueueState<T>, actions: seq<Action<T>>, action: Action<T>)
    ensures Run(q, actions + [action]) == Step(Run(q, actions), action)
  {
    assert (actions + [action])[..|actions|] == actions;
  }

  /** Actions of the queue and a waiting reader that empty a queue of n items. */
  function Drain<T>(q: QueueState<T>): (r: seq<Action<T>>)
    decreases |q.chanOut| + |q.overflow|
  {
    if q.chanOut != [] then [Pop] + Drain(Step(q, Pop))
    else if q.overflow != [] then [Forward(true)] + Drain(Step(q, Forward(true)))
    else []
  }

  lemma {:induction false} RunConcat<T>(q: QueueState<T>, u: seq<Action<T>>, v: seq<Action<T>>)
    ensures Run(q, u + v) == Run(Run(q, u), v)
    decreases |v|
  {
    if v == [] {
      assert u + v == u;
    } else {
      assert (u + v)[..|u + v| - 1] == u + v[..|v| - 1];
      RunConcat(q, u, v[..|v| - 1]);
    }
  }

  /** A reader that keeps reading gets everything that was pushed. */
  lemma {:induction false} DrainDeliversAll<T>(q: QueueState<T>)
    requires q.accepted == q.delivered + q.chanOut + q.overflow
    ensures Run(q, Drain(q)).delivered == q.accepted
    ensures |Drain(q)| == |q.chanOut| + |q.overflow|
    decreases |q.chanOut| + |q.overflow|
  {
    if q.chanOut != [] || q.overflow != [] {
      var a: Action<T> := if q.chanOut != [] then Pop else Forward(true);
      var q' := Step(q, a);
      assert q'.delivered + q'.chanOut + q'.overflow == q.delivered + q.chanOut + q.overflow;
      DrainDeliversAll(q');
      RunConcat(q, [a], Drain(q'));
      assert [a][..0] == [];
      assert Run(q, [a]) == Step(Run(q, [a][..0]), a);
    }
  }

  class ConcurrentQueue<T> {
    const capacity: nat
    var chanOut: seq<T>
    var overflow: seq<T>
    ghost var accepted: seq<T>
    ghost var delivered: seq<T>

    constructor (bufferSize: nat)
      ensures State() == Empty(bufferSize)
    {
      capacity, chanOut, overflow := bufferSize, [], [];
      accepted, delivered := [], [];
    }

    ghost function State(): QueueState<T> reads this {
      QueueState(capacity, chanOut, overflow, accepted, delivered)
    }

    /** A select with a default branch: sends if the channel can take the item now. */
    method TrySend(item: T, waiting: bool) returns (sent: bool)
      modifies this`chanOut, this`delivered
      ensures sent == old(CanSend(State(), waiting))
      ensures State() == if sent then Send(old(State()), item, waiting) else old(State())
    {
      if waiting && chanOut == [] {
        delivered := delivered + [item];
        return true;
      }
      sent := |chanOut| < capacity;
      if sent {
        chanOut := chanOut + [item];
      }
    }

    /** The loop received an item from the input channel. */
    method OnItem(item: T, waiting: bool)
      modifies this
      ensures State() == Step(old(State()), Push(item, waiting))
      ensures old(overflow) == [] && waiting && old(chanOut) == [] ==>
        delivered == old(delivered) + [item] && chanOut == [] == overflow
      ensures old(overflow) == [] && !(waiting && old(chanOut) == []) && |old(chanOut)| < capacity ==>
        chanOut == old(chanOut) + [item] && overflow == [] && delivered == old(delivered)
      ensures old(overflow) != [] || (!(waiting && old(chanOut) == []) && |old(chanOut)| >= capacity) ==>
        overflow == old(overflow) + [item] && chanOut == old(chanOut) && delivered == old(delivered)
    {
      accepted := accepted + [item];
      if overflow == [] {
        var sent := TrySend(item, waiting);
        if !sent {
          overflow := overflow + [item];
        }
      } else {
        overflow := overflow + [item];
      }
    }

    /** The loop may hand the oldest overflow item to the output channel. */
    method OnReadyToSend(waiting: bool)
      modifies this
      ensures State() == Step(old(State()), Forward(waiting))
    {
      if overflow != [] {
        var sent := TrySend(overflow[0], waiting);
        if sent {
          overflow := overflow[1..];
        }
      }
    }

    /** The caller takes an item out of the output channel's buffer, if there is one. */
    method Receive() returns (item: seq<T>)
      modifies this
      ensures State() == Step(old(State()), Pop)
      ensures delivered == old(delivered) + item && item == old(chanOut)[..|item|]
    {
      if chanOut == [] {
        return [];
      }
      item, chanOut := [chanOut[0]], chanOut[1..];
      delivered := delivered + item;
    }
  }
}
