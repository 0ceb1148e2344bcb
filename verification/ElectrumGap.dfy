/** The Electrum client's gap-limit scan of one branch (recover in chain/electrum.go). */
module ElectrumGap {
  import opened Optional

  /** A transaction of an address's history, and the height of its block. */
  datatype Record = Record(txid: nat, height: int)

  /** The history of each child's address; nothing where it cannot be fetched. */
  type Histories = nat -> Option<seq<Record>>

  predicate Used(h: Histories, i: nat) {
    h(i).Some? && h(i).value != []
  }

  /** None of the `window` children from n on is used. */
  predicate Gap(h: Histories, n: nat, window: nat) {
    forall i :: n <= i < n + window ==> !Used(h, i)
  }

  /** The first such n. */
  predicate LeastGap(h: Histories, n: nat, window: nat) {
    Gap(h, n, window) && forall m :: 0 <= m < n ==> !Gap(h, m, window)
  }

  /** The histories of the first n children, one after the other. */
  function Records(h: Histories, n: nat): seq<Record> {
    if n == 0 then [] else Records(h, n - 1) + if h(n - 1).Some? then h(n - 1).value else []
  }

  lemma {:induction false} NothingMore(h: Histories, n: nat, k: nat)
    requires n <= k && forall i :: n <= i < k ==> !Used(h, i)
    ensures Records(h, k) == Records(h, n) && CountUsed(h, k) == CountUsed(h, n)
    decreases k
  {
    if n < k {
      NothingMore(h, n, k - 1);
      assert !Used(h, k - 1);
    }
  }

  /** How many of the first n children are used. */
  function CountUsed(h: Histories, n: nat): nat {
    if n == 0 then 0 else CountUsed(h, n - 1) + if Used(h, n - 1) then 1 else 0
  }

  /** The numbers after `counter`, as many as asked for. */
  function Progress(counter: nat, n: nat): seq<nat> {
    seq(n, i requires 0 <= i < n => counter + i + 1)
  }

  /** The children from `used` on that have been looked at are unused, and every window that
      starts below `used` has a used child in it. */
  ghost predicate Scanned(h: Histories, used: nat, index: nat, window: nat) {
    && used <= index && (forall i :: used <= i < index ==> !Used(h, i))
    && (used > 0 ==> Used(h, used - 1))
    && (window >= 1 ==> forall m :: 0 <= m < used ==> !Gap(h, m, window))
  }

  lemma ScannedUsed(h: Histories, used: nat, index: nat, window: nat)
    requires Scanned(h, used, index, window) && Used(h, index) && (window >= 1 ==> index - used < window)
    ensures Scanned(h, index + 1, index + 1, window)
  {
    forall m | 0 <= m < index + 1 && window >= 1
      ensures !Gap(h, m, window)
    {
      if m >= used {
        assert m <= index < m + window;
      }
    }
  }

  lemma ScannedUnused(h: Histories, used: nat, index: nat, window: nat)
    requires Scanned(h, used, index, window) && !Used(h, index)
    ensures Scanned(h, used, index + 1, window)
  {
  }

  lemma BeforeGap(h: Histories, used: nat, index: nat, window: nat, gap: nat)
    requires Scanned(h, used, index, window) && Gap(h, gap, window) && index - used < window
    ensures index < gap + window
  {
  }

  /** Where the scan ends, the first gap begins; but for an empty window the first child may
      have been passed. */
  lemma GapFound(h: Histories, used: nat, index: nat, window: nat)
    requires Scanned(h, used, index, window) && (if window == 0 then index == 1 else index == used + window)
    ensures LeastGap(h, used, window) <==> window >= 1 || !Used(h, 0)
    ensures window == 0 ==> used == if Used(h, 0) then 1 else 0
  {
    if window == 0 {
      assert Gap(h, 0, 0);
    }
  }

  lemma OneMoreProgress(counter: nat, n: nat)
    ensures Progress(counter, n + 1) == Progress(counter, n) + [counter + n + 1]
  {
  }

  /** The first child whose history cannot be fetched. */
  predicate FirstMissing(h: Histories, i: nat) {
    h(i).None? && forall j: nat :: j < i ==> h(j).Some?
  }

  /** The child lies below the end of every gap of that many children; a window of nought
      looks at the first child only. */
  ghost predicate NeededBy(h: Histories, i: nat, window: nat) {
    if window == 0 then i == 0 else forall n: nat :: Gap(h, n, window) ==> i < n + window
  }

  /** The scan failed at the first history that cannot be fetched, and needed it. */
  ghost predicate Missed(h: Histories, window: nat, counter: nat, progress: seq<nat>) {
    exists i :: FirstMissing(h, i) && NeededBy(h, i, window) && progress == Progress(counter, CountUsed(h, i))
  }

  lemma {:induction false} MissedNow(h: Histories, used: nat, index: nat, window: nat, counter: nat)
    requires Scanned(h, used, index, window) && (if window == 0 then index == 0 else index - used < window)
    requires FirstMissing(h, index)
    ensures Missed(h, window, counter, Progress(counter, CountUsed(h, used)))
  {
    NothingMore(h, used, index);
    forall n: nat | window >= 1 && Gap(h, n, window)
      ensures index < n + window
    {
      BeforeGap(h, used, index, window, n);
    }
    assert NeededBy(h, index, window);
  }

  /** If some `window` children in a row are unused, the scan ends. It then returns the first
      n that such a gap starts at, together with exactly the histories of the children below
      n, in order; or it fails at the first history that cannot be fetched, if it needs that
      one. A window of nought is the exception: one child is looked at all the same. */
  method Recover(h: Histories, window: nat, counter: nat, ghost gap: nat)
    returns (r: Option<(nat, seq<Record>)>, progress: seq<nat>)
    requires Gap(h, gap, window)
    ensures r.None? ==> Missed(h, window, counter, progress)
    ensures r.Some? ==>
      var n := r.value.0;
      && (LeastGap(h, n, window) <==> window >= 1 || !Used(h, 0))
      && (window == 0 ==> n == if Used(h, 0) then 1 else 0)
      && (forall i :: 0 <= i < n + window ==> h(i).Some?)
      && r.value.1 == Records(h, n)
      && progress == Progress(counter, CountUsed(h, n))
  {
    var gapCount, index, usedAddrIndex, recoverCounter := 0, 0, 0, counter;
    var relevantRecords := [];
    ghost var end := if window == 0 then 1 else gap + window;
    progress := [];
    while true
      invariant 0 <= gapCount && 0 <= index < end && usedAddrIndex + gapCount == index
      invariant Scanned(h, usedAddrIndex, index, window) && (gapCount < window || index == 0)
      invariant forall i :: 0 <= i < index ==> h(i).Some?
      invariant relevantRecords == Records(h, usedAddrIndex)
      invariant recoverCounter == counter + CountUsed(h, usedAddrIndex)
      invariant progress == Progress(counter, CountUsed(h, usedAddrIndex))
      decreases end - index
    {
      if h(index).None? {
        MissedNow(h, usedAddrIndex, index, window, counter);
        return None, progress;
      }
      if |h(index).value| > 0 {
        NothingMore(h, usedAddrIndex, index);
        ScannedUsed(h, usedAddrIndex, index, window);
        OneMoreProgress(counter, CountUsed(h, usedAddrIndex));
        recoverCounter := recoverCounter + 1;
        progress := progress + [recoverCounter];
        relevantRecords := relevantRecords + h(index).value;
        gapCount := 0;
        usedAddrIndex := index + 1;
      } else {
        ScannedUnused(h, usedAddrIndex, index, window);
        gapCount := gapCount + 1;
      }
      if gapCount >= window {
        GapFound(h, usedAddrIndex, index + 1, window);
        r := Some((usedAddrIndex, relevantRecords));
        return;
      }
      BeforeGap(h, usedAddrIndex, index + 1, window, gap);
      index := index + 1;
    }
  }
}
