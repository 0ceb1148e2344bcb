/** Counting the child indexes of a derivation branch that give a valid key.

    Whether a child is valid is an oracle: BIP 32 lets a derivation fail for a vanishing
    fraction of the indexes, and tells the caller to go on with the next one. */
module Lookahead {

  ghost predicate SomeValidFrom(valid: nat -> bool, i: nat) {
    exists j: nat :: i <= j && valid(j)
  }

  /** There is always a next valid child. */
  ghost predicate NeverEnding(valid: nat -> bool) {
    forall i: nat :: SomeValidFrom(valid, i)
  }

  /** The first valid child at or above i. */
  ghost function NextValid(valid: nat -> bool, i: nat): (v: nat)
    requires NeverEnding(valid)
    ensures i <= v && valid(v)
    ensures forall k :: i <= k < v ==> !valid(k)
  {
    assert SomeValidFrom(valid, i);
    var j: nat :| i <= j && valid(j);
    FirstUpTo(valid, i, j)
  }

  function FirstUpTo(valid: nat -> bool, i: nat, j: nat): (v: nat)
    requires i <= j && valid(j)
    ensures i <= v <= j && valid(v)
    ensures forall k :: i <= k < v ==> !valid(k)
    decreases j - i
  {
    if valid(i) then i else FirstUpTo(valid, i + 1, j)
  }

  /** How many indexes from lo up to, not including, hi are valid. */
  function CountValid(valid: nat -> bool, lo: nat, hi: nat): (n: nat)
    ensures n <= if lo <= hi then hi - lo else 0
    decreases hi
  {
    if hi <= lo then 0
    else CountValid(valid, lo, hi - 1) + if valid(hi - 1) then 1 else 0
  }

  lemma {:induction false} CountSplit(valid: nat -> bool, lo: nat, mid: nat, hi: nat)
    requires lo <= mid <= hi
    ensures CountValid(valid, lo, hi) == CountValid(valid, lo, mid) + CountValid(valid, mid, hi)
    decreases hi
  {
    if mid < hi {
      CountSplit(valid, lo, mid, hi - 1);
    }
  }

  lemma {:induction false} CountMonotone(valid: nat -> bool, lo: nat, mid: nat, hi: nat)
    requires mid <= hi
    ensures CountValid(valid, lo, mid) <= CountValid(valid, lo, hi)
  {
    if lo <= mid {
      CountSplit(valid, lo, mid, hi);
    }
  }

  /** The set of invalid indexes from lo up to, not including, hi. */
  function InvalidIn(valid: nat -> bool, lo: nat, hi: nat): set<nat> {
    set i: nat | lo <= i < hi && !valid(i)
  }

  lemma {:induction false} ValidAndInvalid(valid: nat -> bool, lo: nat, hi: nat)
    requires lo <= hi
    ensures CountValid(valid, lo, hi) + |InvalidIn(valid, lo, hi)| == hi - lo
    decreases hi
  {
    if lo < hi {
      ValidAndInvalid(valid, lo, hi - 1);
      var before := InvalidIn(valid, lo, hi - 1);
      if valid(hi - 1) {
        assert InvalidIn(valid, lo, hi) == before;
      } else {
        assert InvalidIn(valid, lo, hi) == before + {hi - 1};
      }
    } else {
      assert InvalidIn(valid, lo, hi) == {};
    }
  }

  /** The index reached after passing `count` valid children, starting at `from`. */
  ghost function After(valid: nat -> bool, from: nat, count: nat): (r: nat)
    requires NeverEnding(valid)
    ensures from + count <= r
    ensures count == 0 ==> r == from
    decreases count
  {
    if count == 0 then from else NextValid(valid, After(valid, from, count - 1)) + 1
  }

  lemma {:induction false} NoneValid(valid: nat -> bool, lo: nat, hi: nat)
    requires forall k :: lo <= k < hi ==> !valid(k)
    ensures CountValid(valid, lo, hi) == 0
    decreases hi
  {
    if lo < hi {
      NoneValid(valid, lo, hi - 1);
    }
  }

  /** One more valid child, with none between. */
  lemma {:induction false} CountOneMore(valid: nat -> bool, from: nat, p: nat, v: nat)
    requires from <= p <= v && valid(v) && forall k :: p <= k < v ==> !valid(k)
    ensures CountValid(valid, from, v + 1) == CountValid(valid, from, p) + 1
  {
    NoneValid(valid, p, v);
    CountSplit(valid, from, p, v);
  }

  lemma {:induction false} CountAfter(valid: nat -> bool, from: nat, count: nat)
    requires NeverEnding(valid)
    ensures CountValid(valid, from, After(valid, from, count)) == count
    ensures count > 0 ==> valid(After(valid, from, count) - 1)
    decreases count
  {
    if count > 0 {
      var p := After(valid, from, count - 1);
      CountAfter(valid, from, count - 1);
      CountOneMore(valid, from, p, NextValid(valid, p));
    }
  }

  /** An index lies before the point reached after `count` valid children exactly when
      fewer than `count` of them lie behind it. */
  lemma {:induction false} BeforeAfter(valid: nat -> bool, from: nat, count: nat, r: nat)
    requires NeverEnding(valid) && from <= r
    ensures r < After(valid, from, count) <==> CountValid(valid, from, r) < count
  {
    var end := After(valid, from, count);
    CountAfter(valid, from, count);
    if r < end {
      CountMonotone(valid, from, r, end - 1);
    } else {
      CountMonotone(valid, from, end, r);
    }
  }

  /** The point reached is found by stopping at the count-th valid child. */
  lemma {:induction false} StopAtLast(valid: nat -> bool, from: nat, count: nat, r: nat)
    requires NeverEnding(valid) && from <= r && CountValid(valid, from, r) == count
    requires r == from || valid(r - 1)
    ensures r == After(valid, from, count)
  {
    BeforeAfter(valid, from, count, r);
    if from < r {
      BeforeAfter(valid, from, count, r - 1);
    }
  }

  lemma InvalidStep(valid: nat -> bool, lo: nat, hi: nat)
    requires lo <= hi
    ensures InvalidIn(valid, lo, hi + 1) == if valid(hi) then InvalidIn(valid, lo, hi) else InvalidIn(valid, lo, hi) + {hi}
    ensures |InvalidIn(valid, lo, hi + 1)| == |InvalidIn(valid, lo, hi)| + if valid(hi) then 0 else 1
  {
    ValidAndInvalid(valid, lo, hi);
    ValidAndInvalid(valid, lo, hi + 1);
  }
}
