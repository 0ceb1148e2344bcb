/** Largest-first coin selection (wallet/createtx.go): coins are sorted by falling value, and
    an input source hands out a growing prefix of them. */
module CoinSelection {
  import opened ChainData

  datatype Coin = Coin(outPoint: OutPoint, value: int, pkScript: Script)

  predicate Descending(coins: seq<Coin>) {
    forall i, j :: 0 <= i <= j < |coins| ==> coins[i].value >= coins[j].value
  }

  /** The value of the first k coins. */
  function Total(coins: seq<Coin>, k: nat): int
    requires k <= |coins|
  {
    if k == 0 then 0 else Total(coins, k - 1) + coins[k - 1].value
  }

  /** The first k coins are the shortest prefix worth the target, or are all there are. */
  predicate ShortestPrefix(coins: seq<Coin>, k: nat, target: int) {
    && k <= |coins| && (k == |coins| || Total(coins, k) >= target)
    && forall j :: 0 <= j < k ==> Total(coins, j) < target
  }

  /** The value of the coins at the given indexes below n. */
  function Worth(coins: seq<Coin>, picked: set<nat>, n: nat): int
    requires n <= |coins|
  {
    if n == 0 then 0 else Worth(coins, picked, n - 1) + if n - 1 in picked then coins[n - 1].value else 0
  }

  /** No choice of coins is worth more than the same number of the largest ones. */
  lemma {:induction false} LargestAreWorthMost(coins: seq<Coin>, picked: set<nat>, n: nat)
    requires Descending(coins) && n <= |coins| && forall i :: i in picked ==> i < n
    ensures |picked| <= n && Worth(coins, picked, n) <= Total(coins, |picked|)
  {
    if n > 0 {
      var others := picked - {n - 1};
      SameWorth(coins, picked, others, n - 1);
      LargestAreWorthMost(coins, others, n - 1);
      if n - 1 in picked {
        assert |picked| == |others| + 1;
        assert Total(coins, |picked|) == Total(coins, |others|) + coins[|others|].value;
      } else {
        assert picked == others;
      }
    } else {
      assert picked == {};
    }
  }

  lemma {:induction false} SameWorth(coins: seq<Coin>, s: set<nat>, t: set<nat>, n: nat)
    requires n <= |coins| && forall i :: 0 <= i < n ==> (i in s <==> i in t)
    ensures Worth(coins, s, n) == Worth(coins, t, n)
  {
    if n > 0 {
      SameWorth(coins, s, t, n - 1);
    }
  }

  /** Every choice of coins that is worth the target has at least as many coins as the
      shortest prefix of the coins sorted by falling value. */
  lemma {:induction false} FewestCoins(coins: seq<Coin>, k: nat, target: int, picked: set<nat>)
    requires Descending(coins) && ShortestPrefix(coins, k, target)
    requires forall i :: i in picked ==> i < |coins|
    requires Worth(coins, picked, |coins|) >= target
    ensures k <= |picked| && Total(coins, k) >= target
  {
    LargestAreWorthMost(coins, picked, |coins|);
  }

  /** Sorts the coins in place by falling value. */
  method ArrangeCoins(eligible: array<Coin>)
    modifies eligible
    ensures Descending(eligible[..]) && multiset(eligible[..]) == multiset(old(eligible[..]))
  {
    for i := 0 to eligible.Length
      invariant SortedExcept(eligible, i, i) && multiset(eligible[..]) == multiset(old(eligible[..]))
    {
      Insert(eligible, i);
    }
  }

  /** The first n coins, apart from the one at j, are sorted. */
  predicate SortedExcept(eligible: array<Coin>, n: nat, j: nat)
    requires n <= eligible.Length
    reads eligible
  {
    forall x, y :: 0 <= x <= y < n && x != j && y != j ==> eligible[x].value >= eligible[y].value
  }

  /** sortByAmount's Swap. */
  method Swap(eligible: array<Coin>, i: nat, j: nat)
    requires i < eligible.Length && j < eligible.Length
    modifies eligible
    ensures forall x :: 0 <= x < eligible.Length ==>
      eligible[x] == old(eligible[if x == i then j else if x == j then i else x])
    ensures multiset(eligible[..]) == multiset(old(eligible[..]))
  {
    eligible[i], eligible[j] := eligible[j], eligible[i];
  }

  /** The coin that came from i has been moved down to j: the others are sorted, and it is
      worth at least as much as those it has passed. */
  predicate MovedDown(eligible: array<Coin>, i: nat, j: nat)
    requires j <= i < eligible.Length
    reads eligible
  {
    && SortedExcept(eligible, i + 1, j)
    && forall y :: j <= y <= i ==> eligible[j].value >= eligible[y].value
  }

  method MoveDown(eligible: array<Coin>, i: nat, j: nat)
    requires 0 < j <= i < eligible.Length && MovedDown(eligible, i, j) && eligible[j - 1].value < eligible[j].value
    modifies eligible
    ensures MovedDown(eligible, i, j - 1) && multiset(eligible[..]) == multiset(old(eligible[..]))
  {
    Swap(eligible, j - 1, j);
  }

  /** Moves the coin at i down to its place among the sorted coins before it. */
  method Insert(eligible: array<Coin>, i: nat)
    requires i < eligible.Length && SortedExcept(eligible, i, i)
    modifies eligible
    ensures SortedExcept(eligible, i + 1, i + 1) && multiset(eligible[..]) == multiset(old(eligible[..]))
  {
    var j := i;
    while j > 0 && eligible[j - 1].value < eligible[j].value
      invariant 0 <= j <= i && MovedDown(eligible, i, j) && multiset(eligible[..]) == multiset(old(eligible[..]))
    {
      MoveDown(eligible, i, j);
      j := j - 1;
    }
  }

  predicate NonNegative(coins: seq<Coin>) {
    forall coin :: coin in coins ==> coin.value >= 0
  }

  lemma {:induction false} TotalGrows(coins: seq<Coin>, j: nat, k: nat)
    requires NonNegative(coins) && j <= k <= |coins|
    ensures Total(coins, j) <= Total(coins, k)
    decreases k
  {
    if j < k {
      TotalGrows(coins, j, k - 1);
      assert coins[k - 1] in coins;
    }
  }

  /** Going on from the shortest prefix for one target until another is reached gives the
      shortest prefix for the larger of the two. */
  lemma {:induction false} StillShortest(coins: seq<Coin>, k: nat, k': nat, largest: int, target: int)
    requires NonNegative(coins) && ShortestPrefix(coins, k, largest) && k <= k' <= |coins|
    requires k' == |coins| || Total(coins, k') >= target
    requires forall j :: k <= j < k' ==> Total(coins, j) < target
    ensures ShortestPrefix(coins, k', if target > largest then target else largest)
  {
    TotalGrows(coins, k, k');
  }

  /** The closure that makeInputSource returns. */
  class InputSource {
    ghost const coins: seq<Coin>
    ghost var largest: int
    ghost var taken: nat
    var eligible: seq<Coin>
    var currentTotal: int
    var currentInputs: seq<OutPoint>
    var currentScripts: seq<Script>
    var currentInputValues: seq<int>

    constructor (eligible: seq<Coin>)
      ensures Valid() && coins == eligible && taken == 0 && largest == 0
    {
      this.eligible, coins, taken, largest := eligible, eligible, 0, 0;
      currentTotal, currentInputs, currentScripts, currentInputValues := 0, [], [], [];
    }

    /** The lists and the total are those of a prefix of the coins; with coins of no negative
        value it is the shortest one worth the largest target asked for so far. */
    ghost predicate Valid() reads this {
      && taken <= |coins| && eligible == coins[taken..] && currentTotal == Total(coins, taken)
      && |currentInputs| == |currentScripts| == |currentInputValues| == taken
      && (forall i :: 0 <= i < taken ==>
            coins[i] == Coin(currentInputs[i], currentInputValues[i], currentScripts[i]))
      && (NonNegative(coins) ==> ShortestPrefix(coins, taken, largest))
    }

    method Select(target: int)
      returns (total: int, inputs: seq<OutPoint>, values: seq<int>, scripts: seq<Script>)
      requires Valid()
      modifies this
      ensures Valid() && old(taken) <= taken && largest == if target > old(largest) then target else old(largest)
      ensures total == Total(coins, taken) && (taken == |coins| || total >= target)
      ensures forall j :: old(taken) <= j < taken ==> Total(coins, j) < target
      ensures inputs == currentInputs && values == currentInputValues && scripts == currentScripts
    {
      while currentTotal < target && |eligible| != 0
        invariant taken <= |coins| && eligible == coins[taken..] && currentTotal == Total(coins, taken)
        invariant |currentInputs| == |currentScripts| == |currentInputValues| == taken
        invariant forall i :: 0 <= i < taken ==>
          coins[i] == Coin(currentInputs[i], currentInputValues[i], currentScripts[i])
        invariant largest == old(largest) && old(taken) <= taken
        invariant forall j :: old(taken) <= j < taken ==> Total(coins, j) < target
        decreases |eligible|
      {
        var nextCredit := eligible[0];
        eligible := eligible[1..];
        currentTotal := currentTotal + nextCredit.value;
        currentInputs := currentInputs + [nextCredit.outPoint];
        currentScripts := currentScripts + [nextCredit.pkScript];
        currentInputValues := currentInputValues + [nextCredit.value];
        taken := taken + 1;
      }
      if NonNegative(coins) {
        StillShortest(coins, old(taken), taken, largest, target);
      }
      largest := if target > largest then target else largest;
      total, inputs, values, scripts := currentTotal, currentInputs, currentInputValues, currentScripts;
    }
  }
}
