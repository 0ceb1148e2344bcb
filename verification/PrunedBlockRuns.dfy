/** What any interleaving of queries, responses and cancellations of pruned blocks keeps. */
module PrunedBlockRuns {
  import opened BlockTree
  import opened PrunedBlocks

  /** The hashes put into requests are, each once, those nobody had asked for. */
  lemma {:induction false} NewHashesExactly(queried: set<Hash>, blocks: seq<Hash>, n: nat)
    requires n <= |blocks|
    ensures forall h :: h in NewHashes(queried, blocks, n) <==> h in blocks[..n] && h !in queried
    ensures forall j, k :: 0 <= j < k < |NewHashes(queried, blocks, n)| ==>
              NewHashes(queried, blocks, n)[j] != NewHashes(queried, blocks, n)[k]
  {
    if n > 0 {
      NewHashesExactly(queried, blocks, n - 1);
      assert blocks[..n] == blocks[..n - 1] + [blocks[n - 1]];
    }
  }

  /** The position at which a hash first occurs, or the length of the list. */
  function FirstAt(blocks: seq<Hash>, h: Hash): (r: nat)
    ensures r < |blocks| <==> h in blocks
  {
    if blocks == [] then 0
    else
      var before := blocks[..|blocks| - 1];
      if h in before then FirstAt(before, h) else if blocks[|blocks| - 1] == h then |before| else |blocks|
  }

  /** They are asked for in the order in which the query first names them. */
  lemma {:induction false} NewHashesInOrder(queried: set<Hash>, blocks: seq<Hash>, n: nat, j: nat, k: nat)
    requires n <= |blocks| && j < k < |NewHashes(queried, blocks, n)|
    ensures
      var r := NewHashes(queried, blocks, n);
      FirstAt(blocks[..n], r[j]) < FirstAt(blocks[..n], r[k]) < n
  {
    var before := blocks[..n - 1];
    assert blocks[..n][..n - 1] == before;
    NewHashesExactly(queried, blocks, n);
    NewHashesExactly(queried, blocks, n - 1);
    if k < |NewHashes(queried, blocks, n - 1)| {
      NewHashesInOrder(queried, blocks, n - 1, j, k);
    }
  }

  /** The number of a channel's registrations, or of those that have been served. */
  function Registrations(ws: seq<Waiter>, chan: nat, servedOnly: bool): nat {
    if ws == [] then 0
    else
      var last := ws[|ws| - 1];
      Registrations(ws[..|ws| - 1], chan, servedOnly) +
      if last.chan == chan && (servedOnly ==> last.status.Served?) then 1 else 0
  }

  lemma {:induction false} SettledCount(ws: seq<Waiter>, h: Hash, status: Status, chan: nat)
    requires status != Pending
    ensures Registrations(Settled(ws, h, status), chan, false) == Registrations(ws, chan, false)
    ensures Registrations(Settled(ws, h, status), chan, true)
              == Registrations(ws, chan, true) + if status == Served then multiset(Waiting(ws, h))[chan] else 0
  {
    if ws != [] {
      var n := |ws| - 1;
      SettledCount(ws[..n], h, status, chan);
      assert Settled(ws, h, status)[..n] == Settled(ws[..n], h, status);
    }
  }

  lemma {:induction false} RegisteredCount(l: Log, blocks: seq<Hash>, n: nat, c: nat, cancel: nat, chan: nat)
    requires n <= |blocks|
    ensures
      var r := AllRegistered(l, blocks, n, c, cancel);
      && Registrations(r.waiters, chan, false) == Registrations(l.waiters, chan, false) + (if chan == c then n else 0)
      && Registrations(r.waiters, chan, true) == Registrations(l.waiters, chan, true)
  {
    if n > 0 {
      RegisteredCount(l, blocks, n - 1, c, cancel, chan);
      var before := AllRegistered(l, blocks, n - 1, c, cancel);
      assert AllRegistered(l, blocks, n, c, cancel).waiters[..|before.waiters|] == before.waiters;
    }
  }

  /** A channel is registered once for every block of its query, and a block is sent to it
      once for every registration that has been served. So what is ever sent to a channel
      fits its buffer, whatever the order of events and even if nobody reads from it. */
  lemma {:induction false} SendsFitBuffer(events: seq<Event>, chan: nat)
    ensures
      var l := Run(events);
      && Registrations(l.waiters, chan, false) == (if chan < |l.caps| then l.caps[chan] else 0)
      && multiset(l.sent)[chan] == Registrations(l.waiters, chan, true)
      && (chan < |l.caps| ==> multiset(l.sent)[chan] <= l.caps[chan])
  {
    if events != [] {
      var before, last := events[..|events| - 1], events[|events| - 1];
      SendsFitBuffer(before, chan);
      var l := Run(before);
      match last {
        case Query(blocks, cancel) =>
          RegisteredCount(l.(caps := l.caps + [|blocks|]), blocks, |blocks|, |l.caps|, cancel, chan);
        case Response(h, sane) =>
          SettledCount(l.waiters, h, Served, chan);
          assert multiset(l.sent + Waiting(l.waiters, h)) == multiset(l.sent) + multiset(Waiting(l.waiters, h));
        case Cancel(h) =>
          SettledCount(l.waiters, h, Dropped, chan);
      }
    }
    ServedAreRegistered(Run(events).waiters, chan);
  }

  lemma {:induction false} ServedAreRegistered(ws: seq<Waiter>, chan: nat)
    ensures Registrations(ws, chan, true) <= Registrations(ws, chan, false)
  {
    if ws != [] {
      ServedAreRegistered(ws[..|ws| - 1], chan);
    }
  }

  lemma {:induction false} RegisteredPrefix(l: Log, blocks: seq<Hash>, n: nat, c: nat, cancel: nat)
    requires n <= |blocks|
    ensures l.waiters <= AllRegistered(l, blocks, n, c, cancel).waiters
  {
    if n > 0 {
      RegisteredPrefix(l, blocks, n - 1, c, cancel);
    }
  }

  /** A registration is never forgotten, and once it has been served or dropped it stays
      so: it is served at most once, and never both served and dropped. */
  lemma {:induction false} SettledForGood(events: seq<Event>, i: nat, k: nat)
    requires i <= |events| && k < |Run(events[..i]).waiters|
    ensures
      var was, now := Run(events[..i]).waiters[k], Run(events).waiters;
      && k < |now| && now[k] == was.(status := now[k].status)
      && (!was.status.Pending? ==> now[k] == was)
  {
    if i == |events| {
      assert events[..i] == events;
    } else {
      var before, last := events[..|events| - 1], events[|events| - 1];
      assert before[..i] == events[..i];
      SettledForGood(before, i, k);
      if last.Query? {
        var l := Run(before);
        RegisteredPrefix(l.(caps := l.caps + [|last.blocks|]), last.blocks, |last.blocks|, |l.caps|, last.cancel);
      }
    }
  }

  /** A query registers its channel once for each of its blocks, in order. */
  lemma {:induction false} QueryRegisters(l: Log, blocks: seq<Hash>, n: nat, chan: nat, cancel: nat)
    requires n <= |blocks|
    ensures
      var r := AllRegistered(l, blocks, n, chan, cancel).waiters;
      && |r| == |l.waiters| + n && l.waiters <= r
      && forall k :: |l.waiters| <= k < |r| ==> r[k] == Waiter(blocks[k - |l.waiters|], chan, Pending)
  {
    if n > 0 {
      QueryRegisters(l, blocks, n - 1, chan, cancel);
      var before := AllRegistered(l, blocks, n - 1, chan, cancel).waiters;
      assert AllRegistered(l, blocks, n, chan, cancel).waiters == before + [Waiter(blocks[n - 1], chan, Pending)];
    }
  }

  /** The block arrives and is sane, or its request is cancelled. */
  predicate Settles(e: Event, h: Hash) {
    e == Response(h, true) || e == Cancel(h)
  }

  /** What becomes of one registration in one step. */
  lemma {:induction false} OneSettled(l: Log, e: Event, k: nat)
    requires k < |l.waiters|
    ensures
      var w, now := l.waiters[k], Step(l, e).waiters;
      && k < |now|
      && now[k] == if !w.status.Pending? || !Settles(e, w.hash) then w
                   else w.(status := if e.Response? then Served else Dropped)
  {
    if e.Query? {
      QueryRegisters(l.(caps := l.caps + [|e.blocks|]), e.blocks, |e.blocks|, |l.caps|, e.cancel);
    }
  }

  predicate NotSettled(events: seq<Event>, n: nat, h: Hash)
    requires n <= |events|
  {
    forall j :: 0 <= j < n ==> !Settles(events[j], h)
  }

  /** Of the events that settle the block, e is the first. */
  predicate SettledFirstBy(events: seq<Event>, h: Hash, e: Event) {
    exists j :: 0 <= j < |events| && events[j] == e && NotSettled(events, j, h)
  }

  /** What becomes of a registration, over everything that happens after it: it is served if
      and only if the block arrives and is sane before its request is cancelled, dropped if
      and only if the cancellation comes first, and waits as long as neither has happened. */
  predicate Fate(after: seq<Event>, w: Waiter) {
    && (w.status.Served? <==> SettledFirstBy(after, w.hash, Response(w.hash, true)))
    && (w.status.Dropped? <==> SettledFirstBy(after, w.hash, Cancel(w.hash)))
    && (w.status.Pending? <==> NotSettled(after, |after|, w.hash))
  }

  lemma FirstOneMore(before: seq<Event>, last: Event, h: Hash, e: Event)
    ensures SettledFirstBy(before + [last], h, e) <==>
              SettledFirstBy(before, h, e) || (last == e && NotSettled(before, |before|, h))
    ensures NotSettled(before + [last], |before| + 1, h) <==> NotSettled(before, |before|, h) && !Settles(last, h)
  {
    var events, n := before + [last], |before|;
    assert forall j :: 0 <= j < n ==> events[j] == before[j];
    assert forall j :: 0 <= j <= n ==> (NotSettled(events, j, h) <==> NotSettled(before, j, h));
    assert events[n] == last;
  }

  lemma {:induction false} FateOneMore(before: seq<Event>, last: Event, w: Waiter, w': Waiter)
    requires Fate(before, w)
    requires w' == if !w.status.Pending? || !Settles(last, w.hash) then w
                   else w.(status := if last.Response? then Served else Dropped)
    ensures Fate(before + [last], w')
  {
    FirstOneMore(before, last, w.hash, Response(w.hash, true));
    FirstOneMore(before, last, w.hash, Cancel(w.hash));
  }

  /** Events that go on from a history. */
  function RunFrom(l: Log, events: seq<Event>): Log {
    if events == [] then l else Step(RunFrom(l, events[..|events| - 1]), events[|events| - 1])
  }

  lemma {:induction false} RunSplits(before: seq<Event>, after: seq<Event>)
    ensures Run(before + after) == RunFrom(Run(before), after)
    decreases |after|
  {
    if after == [] {
      assert before + after == before;
    } else {
      assert (before + after)[..|before + after| - 1] == before + after[..|after| - 1];
      RunSplits(before, after[..|after| - 1]);
    }
  }

  lemma {:induction false} FateFrom(l: Log, after: seq<Event>, k: nat)
    requires k < |l.waiters| && l.waiters[k].status.Pending?
    ensures k < |RunFrom(l, after).waiters|
    ensures
      var w := RunFrom(l, after).waiters[k];
      w == l.waiters[k].(status := w.status) && Fate(after, w)
  {
    if after != [] {
      var before, last := after[..|after| - 1], after[|after| - 1];
      FateFrom(l, before, k);
      OneSettled(RunFrom(l, before), last, k);
      FateOneMore(before, last, RunFrom(l, before).waiters[k], RunFrom(l, after).waiters[k]);
      assert after == before + [last];
    }
  }

  /** Only a query makes registrations: one for each of its blocks, in order, for a channel of
      its own. Each of them has the fate that the events after the query give it. */
  lemma {:induction false} RegistrationFate(before: seq<Event>, e: Event, after: seq<Event>, k: nat)
    requires |Run(before).waiters| <= k < |Step(Run(before), e).waiters|
    ensures
      var l, ws := Run(before), Run(before + [e] + after).waiters;
      && e.Query? && |Step(l, e).waiters| == |l.waiters| + |e.blocks|
      && k < |ws| && ws[k].hash == e.blocks[k - |l.waiters|] && ws[k].chan == |l.caps| && Fate(after, ws[k])
  {
    var l := Run(before);
    if e.Query? {
      QueryRegisters(l.(caps := l.caps + [|e.blocks|]), e.blocks, |e.blocks|, |l.caps|, e.cancel);
    }
    assert (before + [e])[..|before|] == before;
    RunSplits(before + [e], after);
    FateFrom(Step(l, e), after, k);
  }

  /** The hash has been asked for when its turn comes among the first n blocks of a query. */
  predicate AskedAgain(l: Log, blocks: seq<Hash>, n: nat, h: Hash)
    requires n <= |blocks|
  {
    n > 0 && (AskedAgain(l, blocks, n - 1, h)
              || (blocks[n - 1] == h && (Waiting(l.waiters, h) != [] || h in blocks[..n - 1])))
  }

  lemma {:induction false} WaitingOneMore(ws: seq<Waiter>, w: Waiter, h: Hash)
    ensures Waiting(ws + [w], h) == Waiting(ws, h) + if w.hash == h && w.status.Pending? then [w.chan] else []
  {
    assert (ws + [w])[..|ws|] == ws;
  }

  lemma {:induction false} QueryWaits(l: Log, blocks: seq<Hash>, n: nat, chan: nat, cancel: nat, h: Hash)
    requires n <= |blocks|
    ensures Waiting(AllRegistered(l, blocks, n, chan, cancel).waiters, h) != [] <==>
              Waiting(l.waiters, h) != [] || h in blocks[..n]
  {
    if n > 0 {
      QueryWaits(l, blocks, n - 1, chan, cancel, h);
      WaitingOneMore(AllRegistered(l, blocks, n - 1, chan, cancel).waiters, Waiter(blocks[n - 1], chan, Pending), h);
      InPrefix(blocks, n - 1, h);
    }
  }

  lemma {:induction false} QueryDepends(l: Log, blocks: seq<Hash>, n: nat, chan: nat, cancel: nat, h: Hash, c: nat)
    requires n <= |blocks|
    ensures Dependant(h, c) in AllRegistered(l, blocks, n, chan, cancel).dependants <==>
              Dependant(h, c) in l.dependants || (c == cancel && AskedAgain(l, blocks, n, h))
  {
    if n > 0 {
      QueryDepends(l, blocks, n - 1, chan, cancel, h, c);
      QueryWaits(l, blocks, n - 1, chan, cancel, blocks[n - 1]);
    }
  }

  lemma {:induction false} DependingMembers(ds: seq<Dependant>, h: Hash, c: nat)
    ensures c in Depending(ds, h) <==> Dependant(h, c) in ds
  {
    if ds != [] {
      DependingMembers(ds[..|ds| - 1], h, c);
      assert ds == ds[..|ds| - 1] + [ds[|ds| - 1]];
    }
  }

  lemma InPrefix(blocks: seq<Hash>, i: nat, h: Hash)
    requires i < |blocks|
    ensures h in blocks[..i + 1] <==> h in blocks[..i] || h == blocks[i]
  {
    assert blocks[..i + 1] == blocks[..i] + [blocks[i]];
  }

  /** Query i found the block asked for already, and no cancellation of the block followed. */
  predicate DependsSince(events: seq<Event>, i: nat, h: Hash, c: nat) {
    && i < |events| && events[i].Query? && events[i].cancel == c
    && AskedAgain(Run(events[..i]), events[i].blocks, |events[i].blocks|, h)
    && forall j :: i < j < |events| ==> events[j] != Cancel(h)
  }

  lemma {:induction false} DependsOneMore(events: seq<Event>, i: nat, h: Hash, c: nat)
    requires events != []
    ensures
      var n := |events| - 1;
      DependsSince(events, i, h, c) <==>
        if i == n then
          events[n].Query? && events[n].cancel == c && AskedAgain(Run(events[..n]), events[n].blocks, |events[n].blocks|, h)
        else DependsSince(events[..n], i, h, c) && events[n] != Cancel(h)
  {
    if i < |events| - 1 {
      assert events[..|events| - 1][..i] == events[..i];
    }
  }

  lemma {:induction false} DependingOneMore(l: Log, e: Event, h: Hash, c: nat)
    ensures c in Depending(Step(l, e).dependants, h) <==>
              (c in Depending(l.dependants, h) && e != Cancel(h))
              || (e.Query? && e.cancel == c && AskedAgain(l, e.blocks, |e.blocks|, h))
  {
    match e
    case Query(blocks, cancel) =>
      QueryDepends(l.(caps := l.caps + [|blocks|]), blocks, |blocks|, |l.caps|, cancel, h, c);
      DependingMembers(l.dependants, h, c);
      DependingMembers(Step(l, e).dependants, h, c);
      SameWaiters(l, l.(caps := l.caps + [|blocks|]), blocks, |blocks|, h);
    case Response(_, _) =>
    case Cancel(x) => DroppedDepending(l.dependants, x);
  }

  lemma {:induction false} SameWaiters(l: Log, l': Log, blocks: seq<Hash>, n: nat, h: Hash)
    requires n <= |blocks| && l'.waiters == l.waiters
    ensures AskedAgain(l, blocks, n, h) == AskedAgain(l', blocks, n, h)
  {
    if n > 0 {
      SameWaiters(l, l', blocks, n - 1, h);
    }
  }

  /** Whom a cancellation tells: everyone who ever found the block asked for already, up to
      the last cancellation. A response does not take anyone off that list, so a request
      that has been served is told of a later cancellation all the same. */
  lemma {:induction false} CancellationTells(events: seq<Event>, h: Hash, c: nat)
    ensures c in Depending(Run(events).dependants, h) <==> exists i :: DependsSince(events, i, h, c)
  {
    if events != [] {
      var n := |events| - 1;
      CancellationTells(events[..n], h, c);
      DependingOneMore(Run(events[..n]), events[n], h, c);
      forall i: nat
        ensures DependsSince(events, i, h, c) <==>
          if i == n then
            events[n].Query? && events[n].cancel == c && AskedAgain(Run(events[..n]), events[n].blocks, |events[n].blocks|, h)
          else DependsSince(events[..n], i, h, c) && events[n] != Cancel(h)
      {
        DependsOneMore(events, i, h, c);
      }
      assert DependsSince(events, n, h, c) ==> exists i :: DependsSince(events, i, h, c);
    }
  }

  /** How many of the first n blocks of a query have been asked for when their turn comes. */
  function AgainOf(l: Log, blocks: seq<Hash>, n: nat): (r: nat)
    requires n <= |blocks|
    ensures r <= n
  {
    if n == 0 then 0
    else
      var last := blocks[n - 1];
      AgainOf(l, blocks, n - 1) + if Waiting(l.waiters, last) != [] || last in blocks[..n - 1] then 1 else 0
  }

  /** How many blocks the queries with this cancel channel ask for. */
  function BlocksOf(events: seq<Event>, c: nat): nat {
    if events == [] then 0
    else
      var last := events[|events| - 1];
      BlocksOf(events[..|events| - 1], c) + if last.Query? && last.cancel == c then |last.blocks| else 0
  }

  /** How many of these had been asked for already. */
  function AgainBlocksOf(events: seq<Event>, c: nat): (r: nat)
    ensures r <= BlocksOf(events, c)
  {
    if events == [] then 0
    else
      var before, last := events[..|events| - 1], events[|events| - 1];
      AgainBlocksOf(before, c) +
      if last.Query? && last.cancel == c then AgainOf(Run(before), last.blocks, |last.blocks|) else 0
  }

  /** All that is ever sent on cancel channels, by channel. */
  function Told(events: seq<Event>): seq<nat> {
    if events == [] then []
    else
      var before, last := events[..|events| - 1], events[|events| - 1];
      Told(before) + if last.Cancel? then Depending(Run(before).dependants, last.hash) else []
  }

  /** How often a cancel channel is registered. */
  function Dependences(ds: seq<Dependant>, c: nat): nat {
    if ds == [] then 0
    else Dependences(ds[..|ds| - 1], c) + if ds[|ds| - 1].cancel == c then 1 else 0
  }

  lemma {:induction false} RegisteredDependences(l: Log, block: Hash, chan: nat, cancel: nat, c: nat)
    ensures Dependences(Registered(l, block, chan, cancel).dependants, c)
              == Dependences(l.dependants, c) + if cancel == c && Waiting(l.waiters, block) != [] then 1 else 0
  {
    var ds, d := l.dependants, Dependant(block, cancel);
    assert (ds + [d])[..|ds|] == ds;
  }

  lemma {:induction false} QueryDependences(l: Log, blocks: seq<Hash>, n: nat, chan: nat, cancel: nat, c: nat)
    requires n <= |blocks|
    ensures Dependences(AllRegistered(l, blocks, n, chan, cancel).dependants, c)
              == Dependences(l.dependants, c) + if cancel == c then AgainOf(l, blocks, n) else 0
  {
    if n > 0 {
      QueryDependences(l, blocks, n - 1, chan, cancel, c);
      QueryWaits(l, blocks, n - 1, chan, cancel, blocks[n - 1]);
      var before, block := AllRegistered(l, blocks, n - 1, chan, cancel), blocks[n - 1];
      RegisteredDependences(before, block, chan, cancel, c);
      assert AgainOf(l, blocks, n) == AgainOf(l, blocks, n - 1) + if Waiting(before.waiters, block) != [] then 1 else 0;
    }
  }

  /** A cancellation tells those it takes off the list. */
  lemma {:induction false} DroppedDependences(ds: seq<Dependant>, h: Hash, c: nat)
    ensures Dependences(ds, c) == Dependences(DropDependants(ds, h), c) + multiset(Depending(ds, h))[c]
  {
    if ds != [] {
      var before, last := ds[..|ds| - 1], ds[|ds| - 1];
      DroppedDependences(before, h, c);
      assert DropDependants(before, h) == (DropDependants(before, h) + [last])[..|DropDependants(before, h)|];
    }
  }

  lemma {:induction false} AgainAlike(l: Log, l': Log, blocks: seq<Hash>, n: nat)
    requires n <= |blocks| && l'.waiters == l.waiters
    ensures AgainOf(l, blocks, n) == AgainOf(l', blocks, n)
  {
    if n > 0 {
      AgainAlike(l, l', blocks, n - 1);
    }
  }

  /** A cancel channel is told, once each, of the blocks that its queries found asked for
      already and that were cancelled since; the rest of them it may still be told of. So it
      is never told more often than its queries have blocks: a buffer of that size, such as
      one for the single block of GetBlock, never makes a cancellation wait. */
  lemma {:induction false} TellsFitBuffer(events: seq<Event>, c: nat)
    ensures multiset(Told(events))[c] + Dependences(Run(events).dependants, c) == AgainBlocksOf(events, c)
    ensures multiset(Told(events))[c] <= BlocksOf(events, c)
  {
    if events != [] {
      var before, last := events[..|events| - 1], events[|events| - 1];
      var l := Run(before);
      TellsFitBuffer(before, c);
      match last {
        case Query(blocks, cancel) =>
          var l' := l.(caps := l.caps + [|blocks|]);
          QueryDependences(l', blocks, |blocks|, |l.caps|, cancel, c);
          AgainAlike(l, l', blocks, |blocks|);
        case Response(h, sane) =>
        case Cancel(h) =>
          DroppedDependences(l.dependants, h, c);
          ToldMore(Told(before), Depending(l.dependants, h), c);
      }
    }
  }

  lemma ToldMore(s: seq<nat>, t: seq<nat>, c: nat)
    ensures multiset(s + t)[c] == multiset(s)[c] + multiset(t)[c]
  {
    assert multiset(s + t) == multiset(s) + multiset(t);
  }
}
