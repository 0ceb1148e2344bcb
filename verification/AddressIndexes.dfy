/** The child indexes that a branch hands out one after the other. */
module AddressIndexes {
  import opened Lookahead

  /** The valid indexes from lo up to, not including, hi, in order. */
  function ValidIn(valid: nat -> bool, lo: nat, hi: nat): (r: seq<nat>)
    ensures |r| == CountValid(valid, lo, hi)
    decreases hi
  {
    if hi <= lo then []
    else ValidIn(valid, lo, hi - 1) + if valid(hi - 1) then [hi - 1] else []
  }

  /** They are exactly the valid indexes of the range. */
  lemma {:induction false} ValidInExactly(valid: nat -> bool, lo: nat, hi: nat, i: nat)
    ensures i in ValidIn(valid, lo, hi) <==> lo <= i < hi && valid(i)
    decreases hi
  {
    if lo < hi {
      ValidInExactly(valid, lo, hi - 1, i);
    }
  }

  /** They increase strictly, so none is handed out twice. */
  lemma {:induction false} ValidInIncreases(valid: nat -> bool, lo: nat, hi: nat, j: nat, k: nat)
    requires j < k < |ValidIn(valid, lo, hi)|
    ensures ValidIn(valid, lo, hi)[j] < ValidIn(valid, lo, hi)[k]
    decreases hi
  {
    var before := ValidIn(valid, lo, hi - 1);
    if k < |before| {
      ValidInIncreases(valid, lo, hi - 1, j, k);
    } else {
      assert before[j] in before;
      ValidInExactly(valid, lo, hi - 1, before[j]);
    }
  }

  /** Taking up where one left off leaves none out. */
  lemma {:induction false} ValidInComposes(valid: nat -> bool, lo: nat, mid: nat, hi: nat)
    requires lo <= mid <= hi
    ensures ValidIn(valid, lo, mid) + ValidIn(valid, mid, hi) == ValidIn(valid, lo, hi)
    decreases hi
  {
    if mid < hi {
      ValidInComposes(valid, lo, mid, hi - 1);
    }
  }

  lemma {:induction false} NoneIn(valid: nat -> bool, lo: nat, hi: nat)
    requires forall k :: lo <= k < hi ==> !valid(k)
    ensures ValidIn(valid, lo, hi) == []
    decreases hi
  {
    if lo < hi {
      NoneIn(valid, lo, hi - 1);
    }
  }

  /** One more valid index. */
  lemma {:induction false} OneMoreValid(valid: nat -> bool, lo: nat, from: nat, v: nat)
    requires lo <= from <= v && valid(v) && forall k :: from <= k < v ==> !valid(k)
    ensures ValidIn(valid, lo, v + 1) == ValidIn(valid, lo, from) + [v]
    ensures CountValid(valid, lo, v + 1) == CountValid(valid, lo, from) + 1
  {
    NoneIn(valid, from, v);
    ValidInComposes(valid, lo, from, v);
  }
}
