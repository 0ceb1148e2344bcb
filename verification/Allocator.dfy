/** Handing out the addresses of an account (nextAddresses and extendAddresses in
    waddrmgr/scoped_manager.go, putChainedAddress in waddrmgr/db.go): the next index in the
    account's stored row, and the manager's copy of it. */
module Allocator {
  import opened Optional
  import opened Lookahead
  import opened AddressIndexes
  import opened Bytes
  import opened Rows
  import opened RowCodecs
  import opened RowStore

  /** HardenedKeyStart - 1. */
  const MaxAddressesPerAccount: nat := 0x7FFF_FFFF

  /** The outcome of deriving one child. */
  datatype Child = Valid | Invalid | Fails

  /** Deriving a child of the internal or of the external branch. */
  type Derive = (bool, nat) -> Child

  /** The indexes at which looking for the next valid child stops. */
  function Stops(derive: Derive, internal: bool): nat -> bool {
    (i: nat) => !derive(internal, i).Invalid?
  }

  ghost predicate GoodDerive(derive: Derive) {
    NeverEnding(Stops(derive, false)) && NeverEnding(Stops(derive, true))
  }

  function NextOf(info: AccountInfo, internal: bool): nat
    requires !info.OtherAccount?
  {
    match info
    case Default(a) => if internal then a.nextInternal else a.nextExternal
    case WatchOnly(w) => if internal then w.nextInternal else w.nextExternal
  }

  /** The account with another next index for one branch; the rest is as it was. */
  function WithNext(info: AccountInfo, internal: bool, next: nat): AccountInfo
    requires !info.OtherAccount?
  {
    match info
    case Default(a) => Default(if internal then a.(nextInternal := next) else a.(nextExternal := next))
    case WatchOnly(w) => WatchOnly(if internal then w.(nextInternal := next) else w.(nextExternal := next))
  }

  /** The check against the account's limit, in 32-bit arithmetic. */
  predicate TooMany(next: nat, count: nat) {
    count > MaxAddressesPerAccount || (next + count) % TWO_TO_THE_32 > MaxAddressesPerAccount
  }

  /** The next index of either branch. */
  datatype NextIndexes = NextIndexes(nextExternal: nat, nextInternal: nat) {
    function Next(internal: bool): nat { if internal then nextInternal else nextExternal }
    function With(internal: bool, next: nat): NextIndexes {
      if internal then this.(nextInternal := next) else this.(nextExternal := next)
    }
  }

  /** The account without its next indexes. */
  function Rest(info: AccountInfo): AccountInfo
    requires !info.OtherAccount?
  {
    WithNext(WithNext(info, false, 0), true, 0)
  }

  /** What an allocation registers to be done once the transaction is committed: the next
      index of its branch is cached. It also looks at its last address, so that it panics
      if it has none. */
  datatype Registered = Registered(internal: bool, next: nat, empty: bool)

  /** An account as the manager sees it: the next indexes in its stored row and the rest of
      that row, the cached next indexes, what is registered for the commit, and the
      addresses stored. */
  datatype Account = Account(
    stored: NextIndexes, rest: AccountInfo, cache: NextIndexes, onCommit: seq<Registered>, addresses: seq<(bool, nat)>)

  /** The account after one new address was stored: only the next index of its branch has
      moved in the row. */
  function Put(a: Account, internal: bool, index: nat): Account {
    a.(stored := a.stored.With(internal, index + 1), addresses := a.addresses + [(internal, index)])
  }

  function Issued(a: Account, internal: bool, indexes: seq<nat>): Account {
    if indexes == [] then a
    else Put(Issued(a, internal, indexes[..|indexes| - 1]), internal, indexes[|indexes| - 1])
  }

  datatype Request = Next(internal: bool, count: nat) | ExtendTo(internal: bool, last: nat)

  /** What one request makes of the account. */
  ghost function Served(derive: Derive, a: Account, req: Request): Account
    requires GoodDerive(derive)
  {
    var valid, from := Stops(derive, req.internal), a.cache.Next(req.internal);
    match req
    case Next(internal, count) =>
      if !CanTake(derive, from, internal, count) then a
      else
        var end := After(valid, from, count);
        Issued(a, internal, ValidIn(valid, from, end)).(onCommit := a.onCommit + [Registered(internal, end, count == 0)])
    case ExtendTo(internal, last) =>
      if !CanExtend(derive, from, internal, last) then a
      else
        var end := NextValid(valid, last) + 1;
        Issued(a, internal, ValidIn(valid, from, end)).(cache := a.cache.With(internal, end))
  }

  /** The branch can be extended to an index, and is not there yet. */
  ghost predicate CanExtend(derive: Derive, from: nat, internal: bool, last: nat)
    requires GoodDerive(derive)
  {
    && from <= last <= MaxAddressesPerAccount
    && NoneFails(derive, internal, from, NextValid(Stops(derive, internal), last) + 1)
  }

  /** What has been derived of a branch on the way from one index to another. */
  predicate Derived(derive: Derive, internal: bool, from: nat, indexes: seq<nat>, nextIndex: nat) {
    && from <= nextIndex && indexes == ValidIn(Stops(derive, internal), from, nextIndex)
    && NoneFails(derive, internal, from, nextIndex)
  }

  /** Derives children from an index on, skipping the invalid ones, and adds the first valid
      one to those found before. */
  method NextChild(derive: Derive, internal: bool, ghost from: nat, indexes: seq<nat>, nextIndex: nat)
    returns (ok: bool, indexes': seq<nat>, nextIndex': nat)
    requires GoodDerive(derive) && Derived(derive, internal, from, indexes, nextIndex)
    ensures
      var valid := Stops(derive, internal);
      var v := NextValid(valid, nextIndex);
      && ok == !derive(internal, v).Fails?
      && (ok ==> nextIndex' == v + 1 && CountValid(valid, from, v + 1) == CountValid(valid, from, nextIndex) + 1)
      && (ok ==> Derived(derive, internal, from, indexes', nextIndex'))
  {
    var i := nextIndex;
    ghost var v := NextValid(Stops(derive, internal), nextIndex);
    while derive(internal, i).Invalid?
      invariant nextIndex <= i <= v
      decreases v - i
    {
      assert !Stops(derive, internal)(i);
      i := i + 1;
    }
    assert Stops(derive, internal)(i);
    indexes', nextIndex' := indexes + [i], i + 1;
    ok := !derive(internal, i).Fails?;
    if ok {
      OneMoreValid(Stops(derive, internal), from, nextIndex, v);
      NoneFailsStep(derive, internal, from, nextIndex, v);
    }
  }

  /** k valid children have been derived, the last of them just now. */
  ghost predicate DerivedCount(derive: Derive, internal: bool, from: nat, indexes: seq<nat>, nextIndex: nat, k: nat) {
    && Derived(derive, internal, from, indexes, nextIndex)
    && CountValid(Stops(derive, internal), from, nextIndex) == k
    && (nextIndex == from || Stops(derive, internal)(nextIndex - 1))
  }

  /** Derives one more of `count` valid children. */
  method DeriveOneMore(
    derive: Derive, internal: bool, ghost from: nat, indexes: seq<nat>, nextIndex: nat, ghost k: nat, ghost count: nat)
    returns (ok: bool, indexes': seq<nat>, nextIndex': nat)
    requires GoodDerive(derive) && k < count && DerivedCount(derive, internal, from, indexes, nextIndex, k)
    ensures ok ==> DerivedCount(derive, internal, from, indexes', nextIndex', k + 1)
    ensures !ok ==> !NoneFails(derive, internal, from, After(Stops(derive, internal), from, count))
  {
    ok, indexes', nextIndex' := NextChild(derive, internal, from, indexes, nextIndex);
    if !ok {
      SomeFails(derive, internal, from, nextIndex, count);
    }
  }

  /** Derives the next `count` valid children from an index on. */
  method DeriveNext(derive: Derive, internal: bool, from: nat, count: nat) returns (r: Option<seq<nat>>, nextIndex: nat)
    requires GoodDerive(derive)
    ensures
      var valid := Stops(derive, internal);
      var end := After(valid, from, count);
      && (r.Some? <==> NoneFails(derive, internal, from, end))
      && (r.Some? ==> r.value == ValidIn(valid, from, end) && nextIndex == end)
  {
    var indexes, ok;
    indexes, nextIndex := [], from;
    for i := 0 to count
      invariant DerivedCount(derive, internal, from, indexes, nextIndex, i)
    {
      ok, indexes, nextIndex := DeriveOneMore(derive, internal, from, indexes, nextIndex, i, count);
      if !ok {
        return None, nextIndex;
      }
    }
    StopAtLast(Stops(derive, internal), from, count, nextIndex);
    r := Some(indexes);
  }

  /** Derives all valid children up to an index, and the first one at or above it. */
  method DeriveTo(derive: Derive, internal: bool, from: nat, lastIndex: nat) returns (r: Option<seq<nat>>, nextIndex: nat)
    requires GoodDerive(derive) && from <= lastIndex
    ensures
      var valid := Stops(derive, internal);
      var end := NextValid(valid, lastIndex) + 1;
      && (r.Some? <==> NoneFails(derive, internal, from, end))
      && (r.Some? ==> r.value == ValidIn(valid, from, end) && nextIndex == end)
  {
    ghost var valid := Stops(derive, internal);
    ghost var end := NextValid(valid, lastIndex) + 1;
    var indexes, ok;
    indexes, nextIndex := [], from;
    while nextIndex <= lastIndex
      invariant Derived(derive, internal, from, indexes, nextIndex)
      invariant nextIndex <= end && (nextIndex > lastIndex ==> nextIndex == end)
      decreases end - nextIndex
    {
      ReachesLast(valid, nextIndex, NextValid(valid, nextIndex), lastIndex);
      ok, indexes, nextIndex := NextChild(derive, internal, from, indexes, nextIndex);
      if !ok {
        return None, nextIndex;
      }
    }
    r := Some(indexes);
  }

  predicate AllFit(indexes: seq<nat>) {
    forall i :: i in indexes ==> Fits32(i + 1)
  }

  lemma {:induction false} AllBelow(valid: nat -> bool, from: nat, end: nat)
    requires Fits32(end)
    ensures AllFit(ValidIn(valid, from, end))
  {
    forall i | i in ValidIn(valid, from, end)
      ensures Fits32(i + 1)
    {
      ValidInExactly(valid, from, end, i);
    }
  }

  lemma {:induction false} IssuedOneMore(a: Account, internal: bool, indexes: seq<nat>, k: nat)
    requires k < |indexes|
    ensures indexes[k] in indexes
    ensures Issued(a, internal, indexes[..k + 1]) == Put(Issued(a, internal, indexes[..k]), internal, indexes[k])
  {
    assert indexes[..k + 1] == indexes[..k] + [indexes[k]];
  }

  lemma {:induction false} ServedNext(derive: Derive, a: Account, internal: bool, count: nat, indexes: seq<nat>, end: nat)
    requires GoodDerive(derive)
    requires CanTake(derive, a.cache.Next(internal), internal, count)
    requires end == After(Stops(derive, internal), a.cache.Next(internal), count)
    requires indexes == ValidIn(Stops(derive, internal), a.cache.Next(internal), end)
    ensures Served(derive, a, Next(internal, count))
              == Issued(a, internal, indexes).(onCommit := a.onCommit + [Registered(internal, end, count == 0)])
  {
  }

  lemma {:induction false} ServedExtend(derive: Derive, a: Account, internal: bool, last: nat, indexes: seq<nat>, end: nat)
    requires GoodDerive(derive)
    requires CanExtend(derive, a.cache.Next(internal), internal, last)
    requires end == NextValid(Stops(derive, internal), last) + 1
    requires indexes == ValidIn(Stops(derive, internal), a.cache.Next(internal), end)
    ensures Served(derive, a, ExtendTo(internal, last))
              == Issued(a, internal, indexes).(cache := a.cache.With(internal, end))
  {
  }

  /** The stored form of an account with another next index for one branch. */
  method RowWithNext(info: AccountInfo, internal: bool, next: nat) returns (row: seq<Byte>)
    requires FitsInfo(info) && !info.OtherAccount? && Fits32(next)
    ensures row == StoredAccount(WithNext(info, internal, next)) && FitsInfo(WithNext(info, internal, next))
  {
    var rawData: seq<Byte>;
    match info {
      case Default(a) =>
        var data := SerializeDefaultAccountRow(if internal then a.(nextInternal := next) else a.(nextExternal := next));
        rawData := data[..];
      case WatchOnly(w) =>
        rawData := SerializeWatchOnlyAccountRow(if internal then w.(nextInternal := next) else w.(nextExternal := next));
    }
    var buf := SerializeAccountRow(AccountRow(AccountType(info), rawData));
    row := buf[..];
  }

  class ScopedKeyManager {
    const derive: Derive
    /** The account's row in the database. */
    var row: seq<Byte>
    var cache: NextIndexes
    var onCommit: seq<Registered>
    var addresses: seq<(bool, nat)>

    constructor (derive: Derive, row: seq<Byte>, cache: NextIndexes)
      ensures this.derive == derive && this.row == row && this.cache == cache && onCommit == [] && addresses == []
    {
      this.derive, this.row, this.cache, onCommit, addresses := derive, row, cache, [], [];
    }

    ghost predicate Valid() reads this {
      GoodDerive(derive) && FetchedAccount(row).Ok?
    }

    ghost function State(): Account reads this
      requires FetchedAccount(row).Ok?
    {
      var info := FetchedAccount(row).value;
      Account(NextIndexes(NextOf(info, false), NextOf(info, true)), Rest(info), cache, onCommit, addresses)
    }

    /** Stores an address and moves the next index of its branch in the account's row. An
        account of a type that the code does not know is stored again as it was. */
    method PutChainedAddress(internal: bool, index: nat) returns (ok: bool)
      requires Fits32(index + 1)
      modifies this`row, this`addresses
      ensures addresses == old(addresses) + [(internal, index)]
      ensures ok <==> FetchedAccount(old(row)).Ok? || FetchedAccount(old(row)).Unsupported?
      ensures FetchedAccount(old(row)).Ok? ==> FetchedAccount(row).Ok? && State() == Put(old(State()), internal, index)
      ensures FetchedAccount(old(row)).Ok? ==> FetchedAccount(row) == Ok(
        match FetchedAccount(old(row)).value
        case Default(a) =>
          Default(if internal then a.(nextInternal := index + 1) else a.(nextExternal := index + 1))
        case WatchOnly(w) =>
          WatchOnly(if internal then w.(nextInternal := index + 1) else w.(nextExternal := index + 1))
        case OtherAccount(t, data) => OtherAccount(t, data))
      ensures FetchedAccount(old(row)).Unsupported? ==>
                DecAccount(old(row)).Some? && row == EncAccount(DecAccount(old(row)).value.0, [])
      ensures !ok ==> row == old(row)
    {
      addresses := addresses + [(internal, index)];
      var outer := DeserializeAccountRow(row);
      if !outer.Ok? {
        return false;
      }
      var info := FetchAccountInfo(row);
      if info.Unsupported? {
        var same := SerializeAccountRow(outer.value);
        row := same[..];
        return true;
      }
      if !info.Ok? {
        return false;
      }
      RowFits(row);
      row := RowWithNext(info.value, internal, index + 1);
      AccountRoundTrip(WithNext(info.value, internal, index + 1));
      ok := true;
    }

    /** Stores a list of new addresses. */
    method PutAddresses(internal: bool, indexes: seq<nat>)
      requires FetchedAccount(row).Ok? && AllFit(indexes)
      modifies this`row, this`addresses
      ensures FetchedAccount(row).Ok? && State() == Issued(old(State()), internal, indexes)
    {
      ghost var a := State();
      for k := 0 to |indexes|
        invariant FetchedAccount(row).Ok? && State() == Issued(a, internal, indexes[..k])
      {
        IssuedOneMore(a, internal, indexes, k);
        var ok := PutChainedAddress(internal, indexes[k]);
      }
      assert indexes[..|indexes|] == indexes;
    }

    /** Issues the next `count` addresses of a branch. The cached next index moves when the
        transaction is committed. */
    method NextAddresses(count: nat, internal: bool) returns (r: Option<seq<nat>>)
      requires Valid()
      requires TooMany(cache.Next(internal), count) || Fits32(After(Stops(derive, internal), cache.Next(internal), count))
      modifies this`row, this`addresses, this`onCommit
      ensures Valid() && State() == Served(derive, old(State()), Next(internal, count))
      ensures r.Some? <==> CanTake(derive, cache.Next(internal), internal, count)
      ensures r.Some? ==> r.value == ValidIn(Stops(derive, internal), cache.Next(internal),
                                             After(Stops(derive, internal), cache.Next(internal), count))
    {
      ghost var a := State();
      var from := cache.Next(internal);
      if TooMany(from, count) {
        return None;
      }
      assert Fits32(After(Stops(derive, internal), from, count));
      var indexes, nextIndex := DeriveNext(derive, internal, from, count);
      if indexes.None? {
        return None;
      }
      AllBelow(Stops(derive, internal), from, nextIndex);
      PutAddresses(internal, indexes.value);
      onCommit := onCommit + [Registered(internal, nextIndex, count == 0)];
      r := indexes;
      ServedNext(derive, a, internal, count, indexes.value, nextIndex);
    }

    /** Makes sure that all addresses of a branch up to an index have been issued. */
    method ExtendAddresses(lastIndex: nat, internal: bool) returns (ok: bool)
      requires Valid() && (lastIndex > MaxAddressesPerAccount || Fits32(NextValid(Stops(derive, internal), lastIndex) + 1))
      modifies this`row, this`addresses, this`cache
      ensures Valid() && State() == Served(derive, old(State()), ExtendTo(internal, lastIndex))
      ensures ok <==> lastIndex < old(cache).Next(internal) || CanExtend(derive, old(cache).Next(internal), internal, lastIndex)
    {
      ghost var a := State();
      var from := cache.Next(internal);
      ok := lastIndex < from;
      if from <= lastIndex <= MaxAddressesPerAccount {
        var indexes, nextIndex := DeriveTo(derive, internal, from, lastIndex);
        ok := indexes.Some?;
        if ok {
          AllBelow(Stops(derive, internal), from, nextIndex);
          PutAddresses(internal, indexes.value);
          cache := cache.With(internal, nextIndex);
          ServedExtend(derive, a, internal, lastIndex, indexes.value, nextIndex);
        }
      }
    }

    /** The transaction is committed: what it registered for this moment is done, in order,
        until something panics. */
    method Commit() returns (ok: bool)
      modifies this`cache, this`onCommit
      ensures ok <==> !Panics(old(onCommit))
      ensures cache == Committed(old(cache), old(onCommit))
      ensures ok ==> onCommit == []
    {
      for k := 0 to |onCommit|
        invariant onCommit == old(onCommit) && cache == Committed(old(cache), onCommit[..k]) && !Panics(onCommit[..k])
      {
        assert onCommit[..k + 1][..k] == onCommit[..k];
        if onCommit[k].empty {
          PanicsStay(cache, old(cache), onCommit, k + 1);
          return false;
        }
        cache := cache.With(onCommit[k].internal, onCommit[k].next);
      }
      assert onCommit[..|onCommit|] == onCommit;
      onCommit := [];
      ok := true;
    }
  }

  /** Some allocation of nought addresses is among those registered. */
  predicate Panics(onCommit: seq<Registered>) {
    exists r :: r in onCommit && r.empty
  }

  /** The cache after the registered changes, up to the first one that panics. */
  function Committed(cache: NextIndexes, onCommit: seq<Registered>): NextIndexes {
    if onCommit == [] then cache
    else
      var before, last := Committed(cache, onCommit[..|onCommit| - 1]), onCommit[|onCommit| - 1];
      if Panics(onCommit) then before else before.With(last.internal, last.next)
  }

  /** The first k of what is registered is carried out: none of it panics, and the next does,
      if there is one. */
  predicate CarriedOut(onCommit: seq<Registered>, k: nat) {
    && k <= |onCommit| && (forall j :: 0 <= j < k ==> !onCommit[j].empty)
    && (k < |onCommit| ==> onCommit[k].empty)
  }

  predicate LastFor(onCommit: seq<Registered>, k: nat, c: bool, i: nat) {
    i < k <= |onCommit| && onCommit[i].internal == c && forall j :: i < j < k ==> onCommit[j].internal != c
  }

  /** A commit leaves a branch with the next index of the last allocation on it that is
      carried out, or as it was if there is none. */
  lemma {:induction false} CommittedExactly(cache: NextIndexes, onCommit: seq<Registered>, k: nat, c: bool)
    returns (last: Option<nat>)
    requires CarriedOut(onCommit, k)
    ensures last.None? ==> forall j :: 0 <= j < k ==> onCommit[j].internal != c
    ensures last.Some? ==> LastFor(onCommit, k, c, last.value)
    ensures Committed(cache, onCommit).Next(c) == if last.Some? then onCommit[last.value].next else cache.Next(c)
  {
    last := None;
    if onCommit != [] {
      var n := |onCommit| - 1;
      assert onCommit[n] in onCommit && (Panics(onCommit) <==> k <= n);
      last := CommittedExactly(cache, onCommit[..n], if k <= n then k else n, c);
      if k > n && onCommit[n].internal == c {
        last := Some(n);
      }
    }
  }

  lemma {:induction false} PanicsStay(now: NextIndexes, cache: NextIndexes, onCommit: seq<Registered>, k: nat)
    requires 0 < k <= |onCommit| && onCommit[k - 1].empty && now == Committed(cache, onCommit[..k - 1])
    ensures Panics(onCommit) && now == Committed(cache, onCommit)
    decreases |onCommit|
  {
    var n := |onCommit| - 1;
    if k <= n {
      assert onCommit[..n][..k - 1] == onCommit[..k - 1];
      PanicsStay(now, cache, onCommit[..n], k);
    }
  }

  /** If the next child fails, the way to the count-th one is blocked. */
  lemma {:induction false} SomeFails(derive: Derive, internal: bool, from: nat, nextIndex: nat, count: nat)
    requires GoodDerive(derive) && from <= nextIndex && CountValid(Stops(derive, internal), from, nextIndex) < count
    requires derive(internal, NextValid(Stops(derive, internal), nextIndex)).Fails?
    ensures !NoneFails(derive, internal, from, After(Stops(derive, internal), from, count))
  {
    StillBefore(Stops(derive, internal), from, nextIndex, NextValid(Stops(derive, internal), nextIndex), count);
  }

  lemma NoneFailsStep(derive: Derive, internal: bool, from: nat, nextIndex: nat, v: nat)
    requires GoodDerive(derive) && NoneFails(derive, internal, from, nextIndex)
    requires v == NextValid(Stops(derive, internal), nextIndex) && !derive(internal, v).Fails?
    ensures NoneFails(derive, internal, from, v + 1)
  {
    forall i | from <= i < v + 1
      ensures !derive(internal, i).Fails?
    {
      if nextIndex <= i < v {
        assert !Stops(derive, internal)(i);
      }
    }
  }

  /** The first valid index at or above one that lies before the last is reached last. */
  lemma ReachesLast(valid: nat -> bool, nextIndex: nat, v: nat, last: nat)
    requires NeverEnding(valid) && nextIndex <= last && v == NextValid(valid, nextIndex)
    ensures v <= NextValid(valid, last)
    ensures v >= last ==> v == NextValid(valid, last)
  {
  }

  /** The next valid index after fewer than `count` of them lies before the point reached
      after `count`. */
  lemma {:induction false} StillBefore(valid: nat -> bool, from: nat, nextIndex: nat, v: nat, count: nat)
    requires NeverEnding(valid) && from <= nextIndex && CountValid(valid, from, nextIndex) < count
    requires v == NextValid(valid, nextIndex)
    ensures from <= v < After(valid, from, count)
  {
    NoneValid(valid, nextIndex, v);
    CountSplit(valid, from, nextIndex, v);
    BeforeAfter(valid, from, count, v);
  }

  /** The next `count` addresses can be issued: the limit allows it, and every child on the
      way can be derived or is invalid. */
  ghost predicate CanTake(derive: Derive, from: nat, internal: bool, count: nat)
    requires GoodDerive(derive)
  {
    && !TooMany(from, count)
    && NoneFails(derive, internal, from, After(Stops(derive, internal), from, count))
  }

  /** An account has 2^31 addresses on each branch: as long as its next index and the number
      of them asked for stay below that together, only a child that fails refuses an
      allocation; and so it is with an extension up to an index below that. */
  lemma {:induction false} LimitsExactly(derive: Derive, from: nat, internal: bool, count: nat, last: nat)
    requires GoodDerive(derive)
    ensures from + count < 0x8000_0000 ==>
              (CanTake(derive, from, internal, count) <==>
                 NoneFails(derive, internal, from, After(Stops(derive, internal), from, count)))
    ensures 0x8000_0000 <= from + count < 0x1_0000_0000 || count >= 0x8000_0000 ==> !CanTake(derive, from, internal, count)
    ensures from <= last < 0x8000_0000 ==>
              (CanExtend(derive, from, internal, last) <==>
                 NoneFails(derive, internal, from, NextValid(Stops(derive, internal), last) + 1))
    ensures last < from || 0x8000_0000 <= last ==> !CanExtend(derive, from, internal, last)
  {
  }

  predicate NoneFails(derive: Derive, internal: bool, from: nat, end: nat) {
    forall i :: from <= i < end ==> !derive(internal, i).Fails?
  }

  lemma RowFits(row: seq<Byte>)
    requires FetchedAccount(row).Ok?
    ensures FitsInfo(FetchedAccount(row).value) && !FetchedAccount(row).value.OtherAccount?
  {
    var outer := DecAccount(row).value;
    AccountExactly(row, outer.0, outer.1);
    var data := outer.0.rawData;
    if outer.0.acctType == 0 {
      DefaultExactly(data, DecDefault(data).value.0, DecDefault(data).value.1);
    } else {
      WatchOnlyExactly(data, DecWatchOnly(data).value.0, DecWatchOnly(data).value.1);
    }
  }
}
