/** The look-ahead of one derivation branch during recovery (wallet/recovery.go, and the
    derivation loop of wallet/wallet.go). */
module Recovery {
  import opened ChainData
  import opened Lookahead

  /** What deriving a child key gives: the key, hdkeychain.ErrInvalidChild itself, or some
      other error. */
  datatype Derivation = Key(addr: Address) | InvalidChild | OtherError

  datatype Branch = Branch(
    window: nat, horizon: nat, nextUnfound: nat, addresses: map<nat, Address>, invalidChildren: set<nat>)

  function Fresh(window: nat): Branch {
    Branch(window, 0, 0, map[], {})
  }

  /** The recorded invalid children between the last found index and the horizon. */
  function InvalidAhead(b: Branch): set<nat> {
    set i | i in b.invalidChildren && b.nextUnfound <= i < b.horizon
  }

  /** The horizon needed to keep `window` valid children ahead of the last found one. */
  function MinValidHorizon(b: Branch): nat {
    b.nextUnfound + b.window + |InvalidAhead(b)|
  }

  /** How many valid children must still be derived to get there. */
  function Missing(b: Branch): nat {
    if b.horizon >= MinValidHorizon(b) then 0 else MinValidHorizon(b) - b.horizon
  }

  function From(s: set<nat>, lo: nat): set<nat> {
    set i | i in s && i >= lo
  }

  /** A found index moves the branch forward; older invalid children are forgotten. */
  function Reported(b: Branch, index: nat): Branch {
    if index < b.nextUnfound then b
    else b.(nextUnfound := index + 1, invalidChildren := From(b.invalidChildren, index))
  }

  /** The addresses of the valid children from lo up to, not including, hi. */
  function Derived(valid: nat -> bool, addr: nat -> Address, lo: nat, hi: nat): map<nat, Address> {
    map i: nat | lo <= i < hi && valid(i) :: addr(i)
  }

  lemma DerivedStep(valid: nat -> bool, addr: nat -> Address, lo: nat, hi: nat)
    requires lo <= hi
    ensures Derived(valid, addr, lo, hi + 1) ==
              if valid(hi) then Derived(valid, addr, lo, hi)[hi := addr(hi)] else Derived(valid, addr, lo, hi)
  {
  }

  /** The branch with the children from the old horizon on derived until the missing
      number of valid ones has been passed. */
  ghost function Expanded(b: Branch, valid: nat -> bool, addr: nat -> Address): Branch
    requires NeverEnding(valid)
  {
    var h := After(valid, b.horizon, Missing(b));
    b.(horizon := h,
       addresses := b.addresses + Derived(valid, addr, b.horizon, h),
       invalidChildren := b.invalidChildren + InvalidIn(valid, b.horizon, h))
  }

  /** A new branch with the first `count` children restored from a wallet that has handed
      them out. Only the invalid ones among them move the horizon. */
  function Resurrected(window: nat, valid: nat -> bool, addr: nat -> Address, count: nat): Branch {
    var invalid := InvalidIn(valid, 0, count);
    var b := Branch(window, |invalid|, 0, Derived(valid, addr, 0, count), invalid);
    if count > 0 then Reported(b, count - 1) else b
  }

  class BranchRecoveryState {
    var recoveryWindow: nat
    var horizon: nat
    var nextUnfound: nat
    var addresses: map<nat, Address>
    var invalidChildren: set<nat>

    constructor (recoveryWindow: nat)
      ensures State() == Fresh(recoveryWindow)
    {
      this.recoveryWindow, horizon, nextUnfound := recoveryWindow, 0, 0;
      addresses, invalidChildren := map[], {};
    }

    function State(): Branch reads this {
      Branch(recoveryWindow, horizon, nextUnfound, addresses, invalidChildren)
    }

    method NumInvalidInHorizon() returns (nInvalid: nat)
      ensures nInvalid == |InvalidAhead(State())|
    {
      nInvalid := 0;
      var rest := invalidChildren;
      ghost var counted: set<nat> := {};
      while rest != {}
        invariant rest <= invalidChildren
        invariant counted == set i | i in invalidChildren - rest && nextUnfound <= i < horizon
        invariant nInvalid == |counted|
        decreases rest
      {
        var childIndex :| childIndex in rest;
        if nextUnfound <= childIndex < horizon {
          nInvalid := nInvalid + 1;
          counted := counted + {childIndex};
        }
        rest := rest - {childIndex};
      }
      assert counted == InvalidAhead(State());
    }

    /** Moves the horizon to where it has to be, if every child were valid from here on. */
    method ExtendHorizon() returns (curHorizon: nat, delta: nat)
      modifies this`horizon
      ensures curHorizon == old(horizon) && delta == Missing(old(State()))
      ensures State() == old(State()).(horizon := curHorizon + delta)
    {
      curHorizon := horizon;
      var nInvalid := NumInvalidInHorizon();
      var minValidHorizon := nextUnfound + recoveryWindow + nInvalid;
      if curHorizon >= minValidHorizon {
        return curHorizon, 0;
      }
      delta := minValidHorizon - curHorizon;
      horizon := minValidHorizon;
    }

    method AddAddr(index: nat, addr: Address)
      modifies this`addresses
      ensures State() == old(State()).(addresses := old(addresses)[index := addr])
    {
      addresses := addresses[index := addr];
    }

    method ReportFound(index: nat)
      modifies this`nextUnfound, this`invalidChildren
      ensures State() == Reported(old(State()), index)
      ensures nextUnfound == if index < old(nextUnfound) then old(nextUnfound) else index + 1
      ensures forall i :: i in invalidChildren <==> i in old(invalidChildren) && (index < old(nextUnfound) || i >= index)
    {
      if index >= nextUnfound {
        nextUnfound := index + 1;
        var rest := invalidChildren;
        while rest != {}
          invariant rest <= old(invalidChildren) && nextUnfound == index + 1
          invariant invalidChildren == set i | i in old(invalidChildren) && (i in rest || i >= index)
          decreases rest
        {
          var childIndex :| childIndex in rest;
          if childIndex < index {
            invalidChildren := invalidChildren - {childIndex};
          }
          rest := rest - {childIndex};
        }
        assert invalidChildren == Reported(old(State()), index).invalidChildren;
      }
    }

    method MarkInvalidChild(index: nat)
      modifies this`horizon, this`invalidChildren
      ensures State() == old(State()).(horizon := old(horizon) + 1, invalidChildren := old(invalidChildren) + {index})
    {
      invalidChildren := invalidChildren + {index};
      horizon := horizon + 1;
    }
  }

  /** Half-way through an extension: children up to r derived, the horizon moved for all
      the missing ones and for each invalid one met so far. */
  function Deriving(b: Branch, valid: nat -> bool, addr: nat -> Address, r: nat): Branch {
    b.(horizon := b.horizon + Missing(b) + |InvalidIn(valid, b.horizon, r)|,
       addresses := b.addresses + Derived(valid, addr, b.horizon, r),
       invalidChildren := b.invalidChildren + InvalidIn(valid, b.horizon, r))
  }

  lemma UpdateLast(m: map<nat, Address>, n: map<nat, Address>, k: nat, a: Address)
    ensures m + n[k := a] == (m + n)[k := a]
  {
  }

  lemma InsertLast(s: set<nat>, t: set<nat>, k: nat)
    ensures s + (t + {k}) == s + t + {k}
  {
  }

  lemma DerivingStep(b: Branch, valid: nat -> bool, addr: nat -> Address, r: nat)
    requires b.horizon <= r
    ensures
      var d, d' := Deriving(b, valid, addr, r), Deriving(b, valid, addr, r + 1);
      if valid(r) then d' == d.(addresses := d.addresses[r := addr(r)])
      else d' == d.(horizon := d.horizon + 1, invalidChildren := d.invalidChildren + {r})
  {
    InvalidStep(valid, b.horizon, r);
    DerivedStep(valid, addr, b.horizon, r);
    UpdateLast(b.addresses, Derived(valid, addr, b.horizon, r), r, addr(r));
    InsertLast(b.invalidChildren, InvalidIn(valid, b.horizon, r), r);
  }

  lemma DerivingNothing(b: Branch, valid: nat -> bool, addr: nat -> Address)
    ensures Deriving(b, valid, addr, b.horizon) == b.(horizon := b.horizon + Missing(b))
  {
    assert InvalidIn(valid, b.horizon, b.horizon) == {};
  }

  lemma {:induction false} DerivingDone(b: Branch, valid: nat -> bool, addr: nat -> Address, r: nat)
    requires NeverEnding(valid) && b.horizon <= r && CountValid(valid, b.horizon, r) == Missing(b)
    requires r == b.horizon || valid(r - 1)
    ensures Deriving(b, valid, addr, r) == Expanded(b, valid, addr)
  {
    StopAtLast(valid, b.horizon, Missing(b), r);
    ValidAndInvalid(valid, b.horizon, r);
  }

  /** What the derivations give: children that are valid give their key, those that are not
      are reported as such, unless a derivation is broken. */
  predicate GivesAt(
    derive: nat -> Derivation, valid: nat -> bool, addr: nat -> Address, broken: nat -> bool, i: nat)
  {
    derive(i) == if broken(i) then OtherError else if valid(i) then Key(addr(i)) else InvalidChild
  }

  ghost predicate Gives(derive: nat -> Derivation, valid: nat -> bool, addr: nat -> Address, broken: nat -> bool) {
    forall i: nat :: GivesAt(derive, valid, addr, broken, i)
  }

  /** No derivation from lo up to, not including, hi is broken. */
  predicate NoneBroken(broken: nat -> bool, lo: nat, hi: nat) {
    forall i :: lo <= i < hi ==> !broken(i)
  }

  datatype Fact = Place | Count | Result | Unbroken

  ghost predicate DerivingFact(
    fact: Fact, b: Branch, now: Branch, valid: nat -> bool, addr: nat -> Address, broken: nat -> bool,
    childIndex: nat, count: nat)
    requires NeverEnding(valid)
  {
    match fact
    case Place =>
      && b.horizon <= childIndex <= After(valid, b.horizon, Missing(b))
      && (childIndex == b.horizon || count < Missing(b) || valid(childIndex - 1))
    case Count => count == CountValid(valid, b.horizon, childIndex) <= Missing(b)
    case Result => now == Deriving(b, valid, addr, childIndex)
    case Unbroken => NoneBroken(broken, b.horizon, childIndex)
  }

  /** Where the derivation loop stands: the children before childIndex are derived, and
      count of them are valid. */
  ghost predicate DerivingTo(
    b: Branch, now: Branch, valid: nat -> bool, addr: nat -> Address, broken: nat -> bool, childIndex: nat, count: nat)
    requires NeverEnding(valid)
  {
    forall fact :: DerivingFact(fact, b, now, valid, addr, broken, childIndex, count)
  }

  lemma DerivingStarts(b: Branch, valid: nat -> bool, addr: nat -> Address, broken: nat -> bool)
    requires NeverEnding(valid)
    ensures DerivingTo(b, b.(horizon := b.horizon + Missing(b)), valid, addr, broken, b.horizon, 0)
  {
    DerivingNothing(b, valid, addr);
  }

  lemma {:induction false} DerivingMore(b: Branch, valid: nat -> bool, childIndex: nat)
    requires NeverEnding(valid) && b.horizon <= childIndex && CountValid(valid, b.horizon, childIndex) < Missing(b)
    ensures childIndex < After(valid, b.horizon, Missing(b))
  {
    BeforeAfter(valid, b.horizon, Missing(b), childIndex);
  }

  /** The state after one more child: it is registered, or marked as invalid. */
  function OneMore(now: Branch, child: Derivation, childIndex: nat): Branch {
    if child.Key? then now.(addresses := now.addresses[childIndex := child.addr])
    else now.(horizon := now.horizon + 1, invalidChildren := now.invalidChildren + {childIndex})
  }

  lemma {:induction false} DerivedOneMore(
    b: Branch, now: Branch, valid: nat -> bool, addr: nat -> Address, broken: nat -> bool, childIndex: nat, count: nat,
    child: Derivation)
    requires NeverEnding(valid) && DerivingTo(b, now, valid, addr, broken, childIndex, count) && count < Missing(b)
    requires !broken(childIndex) && child == if valid(childIndex) then Key(addr(childIndex)) else InvalidChild
    ensures DerivingTo(b, OneMore(now, child, childIndex), valid, addr, broken,
                       childIndex + 1, if child.Key? then count + 1 else count)
    ensures childIndex < After(valid, b.horizon, Missing(b))
  {
    assert DerivingFact(Place, b, now, valid, addr, broken, childIndex, count);
    assert DerivingFact(Count, b, now, valid, addr, broken, childIndex, count);
    DerivingMore(b, valid, childIndex);
    var now', next, count' := OneMore(now, child, childIndex), childIndex + 1, if child.Key? then count + 1 else count;
    forall fact
      ensures DerivingFact(fact, b, now', valid, addr, broken, next, count')
    {
      assert DerivingFact(fact, b, now, valid, addr, broken, childIndex, count);
      if fact == Result {
        DerivingStep(b, valid, addr, childIndex);
      }
    }
  }

  lemma {:induction false} DerivedAll(
    b: Branch, now: Branch, valid: nat -> bool, addr: nat -> Address, broken: nat -> bool, childIndex: nat, count: nat)
    requires NeverEnding(valid) && DerivingTo(b, now, valid, addr, broken, childIndex, count) && count >= Missing(b)
    ensures now == Expanded(b, valid, addr) && NoneBroken(broken, b.horizon, Expanded(b, valid, addr).horizon)
  {
    assert DerivingFact(Place, b, now, valid, addr, broken, childIndex, count);
    assert DerivingFact(Count, b, now, valid, addr, broken, childIndex, count);
    assert DerivingFact(Result, b, now, valid, addr, broken, childIndex, count);
    assert DerivingFact(Unbroken, b, now, valid, addr, broken, childIndex, count);
    DerivingDone(b, valid, addr, childIndex);
    StopAtLast(valid, b.horizon, Missing(b), childIndex);
  }

  lemma {:induction false} DerivedSome(
    b: Branch, now: Branch, valid: nat -> bool, addr: nat -> Address, broken: nat -> bool, childIndex: nat, count: nat)
    requires NeverEnding(valid) && DerivingTo(b, now, valid, addr, broken, childIndex, count) && count < Missing(b)
    ensures now == Deriving(b, valid, addr, childIndex) && NoneBroken(broken, b.horizon, childIndex)
    ensures b.horizon <= childIndex < Expanded(b, valid, addr).horizon
  {
    assert DerivingFact(Unbroken, b, now, valid, addr, broken, childIndex, count);
    assert DerivingFact(Place, b, now, valid, addr, broken, childIndex, count);
    assert DerivingFact(Count, b, now, valid, addr, broken, childIndex, count);
    assert DerivingFact(Result, b, now, valid, addr, broken, childIndex, count);
    DerivingMore(b, valid, childIndex);
  }

  /** One turn of the derivation loop: the child is registered, or marked as invalid. */
  method TakeChild(brs: BranchRecoveryState, child: Derivation, childIndex: nat, count: nat) returns (newCount: nat)
    requires !child.OtherError?
    modifies brs
    ensures brs.State() == OneMore(old(brs.State()), child, childIndex)
    ensures newCount == if child.Key? then count + 1 else count
  {
    newCount := count;
    match child
    case InvalidChild =>
      brs.MarkInvalidChild(childIndex);
    case Key(address) =>
      brs.AddAddr(childIndex, address);
      newCount := count + 1;
  }

  /** The derivation loop: it ends when enough valid children are registered, or when a
      derivation fails. */
  method DeriveChildren(
    brs: BranchRecoveryState, derive: nat -> Derivation, cur: nat, delta: nat,
    ghost valid: nat -> bool, ghost addr: nat -> Address, ghost broken: nat -> bool, ghost b: Branch)
    returns (ok: bool, childIndex: nat, ghost count: nat)
    requires NeverEnding(valid) && DerivingTo(b, brs.State(), valid, addr, broken, cur, 0) && delta == Missing(b)
    requires Gives(derive, valid, addr, broken)
    modifies brs
    ensures DerivingTo(b, brs.State(), valid, addr, broken, childIndex, count)
    ensures if ok then count == delta else count < delta && broken(childIndex)
  {
    var found: nat := 0;
    ghost var end := After(valid, b.horizon, Missing(b));
    childIndex := cur;
    while found < delta
      invariant found <= delta && DerivingTo(b, brs.State(), valid, addr, broken, childIndex, found)
      decreases end - childIndex
    {
      assert GivesAt(derive, valid, addr, broken, childIndex);
      var child := derive(childIndex);
      if child.OtherError? {
        return false, childIndex, found;
      }
      DerivedOneMore(b, brs.State(), valid, addr, broken, childIndex, found, child);
      found := TakeChild(brs, child, childIndex, found);
      childIndex := childIndex + 1;
    }
    ok, count := true, found;
  }

  /** One branch of expandScopeHorizons, whatever its derivations give: derives children from
      the old horizon on until the requested number of valid ones is registered, or a
      derivation gives another error than that the child is invalid. */
  method ExpandBranch(
    brs: BranchRecoveryState, derive: nat -> Derivation,
    ghost valid: nat -> bool, ghost addr: nat -> Address, ghost broken: nat -> bool)
    returns (ok: bool)
    requires NeverEnding(valid) && Gives(derive, valid, addr, broken)
    modifies brs
    ensures ok <==> NoneBroken(broken, old(brs.horizon), Expanded(old(brs.State()), valid, addr).horizon)
    ensures ok ==> brs.State() == Expanded(old(brs.State()), valid, addr)
    ensures !ok ==> exists r :: old(brs.horizon) <= r && broken(r) && NoneBroken(broken, old(brs.horizon), r) &&
                                brs.State() == Deriving(old(brs.State()), valid, addr, r)
  {
    ghost var b := brs.State();
    var cur, delta := brs.ExtendHorizon();
    DerivingStarts(b, valid, addr, broken);
    ghost var count;
    var childIndex;
    ok, childIndex, count := DeriveChildren(brs, derive, cur, delta, valid, addr, broken, b);
    if ok {
      DerivedAll(b, brs.State(), valid, addr, broken, childIndex, count);
    } else {
      DerivedSome(b, brs.State(), valid, addr, broken, childIndex, count);
    }
  }

  /** One branch of Resurrect, whatever its derivations give: restores the children a wallet
      has already handed out. */
  method ResurrectBranch(
    brs: BranchRecoveryState, derive: nat -> Derivation, keyCount: nat,
    ghost valid: nat -> bool, ghost addr: nat -> Address, ghost broken: nat -> bool)
    returns (ok: bool)
    requires brs.State() == Fresh(brs.recoveryWindow) && Gives(derive, valid, addr, broken)
    modifies brs
    ensures ok <==> NoneBroken(broken, 0, keyCount)
    ensures ok ==> brs.State() == Resurrected(old(brs.recoveryWindow), valid, addr, keyCount)
  {
    for i := 0 to keyCount
      invariant brs.State() == Branch(old(brs.recoveryWindow), |InvalidIn(valid, 0, i)|, 0,
                                      Derived(valid, addr, 0, i), InvalidIn(valid, 0, i))
      invariant NoneBroken(broken, 0, i)
    {
      InvalidStep(valid, 0, i);
      DerivedStep(valid, addr, 0, i);
      assert GivesAt(derive, valid, addr, broken, i);
      match derive(i)
      case InvalidChild =>
        brs.MarkInvalidChild(i);
      case OtherError =>
        return false;
      case Key(address) =>
        brs.AddAddr(i, address);
    }
    if keyCount > 0 {
      brs.ReportFound(keyCount - 1);
    }
    ok := true;
  }

  /** What a restored branch holds: it goes on behind the children handed out, watches the
      valid ones among them, and its horizon is the number of the others, of which only the
      last child may still be recorded. */
  lemma {:induction false} ResurrectedExactly(window: nat, valid: nat -> bool, addr: nat -> Address, keyCount: nat)
    ensures
      var r := Resurrected(window, valid, addr, keyCount);
      && r.window == window && r.nextUnfound == keyCount && r.horizon == keyCount - CountValid(valid, 0, keyCount)
      && (forall i: nat :: i in r.addresses <==> i < keyCount && valid(i))
      && (forall i: nat :: i in r.addresses ==> r.addresses[i] == addr(i))
      && (forall i: nat :: i in r.invalidChildren <==> i + 1 == keyCount && !valid(i))
  {
    ValidAndInvalid(valid, 0, keyCount);
  }

  /** What a branch knows is right, and complete below its horizon: every valid child
      there is watched, and every invalid one from the last found index on is recorded. */
  ghost predicate Watching(b: Branch, valid: nat -> bool, addr: nat -> Address) {
    && (forall i :: 0 <= i < b.horizon && valid(i) ==> i in b.addresses)
    && (forall i :: i in b.addresses ==> valid(i) && b.addresses[i] == addr(i))
    && (forall i :: i in b.invalidChildren ==> !valid(i))
    && (forall i :: b.nextUnfound <= i < b.horizon && !valid(i) ==> i in b.invalidChildren)
  }

  /** The look-ahead is long enough, and the invalid children in it are counted exactly. */
  ghost predicate LooksAhead(b: Branch, valid: nat -> bool) {
    && b.nextUnfound <= b.horizon
    && b.window <= CountValid(valid, b.nextUnfound, b.horizon)
    && InvalidAhead(b) == InvalidIn(valid, b.nextUnfound, b.horizon)
  }

  lemma ReportedKeepsWatching(b: Branch, valid: nat -> bool, addr: nat -> Address, index: nat)
    requires Watching(b, valid, addr)
    ensures Watching(Reported(b, index), valid, addr)
  {
  }

  lemma ResurrectedIsWatching(window: nat, valid: nat -> bool, addr: nat -> Address, count: nat)
    ensures Watching(Resurrected(window, valid, addr, count), valid, addr)
    ensures Resurrected(window, valid, addr, count).nextUnfound == count
    ensures forall i: nat :: i < count && valid(i) ==> i in Resurrected(window, valid, addr, count).addresses
  {
    ValidAndInvalid(valid, 0, count);
  }

  /** After every extension, whatever indexes were reported before and whichever children
      are invalid, at least `window` valid children are watched beyond the last found one. */
  lemma ExpandedLooksAhead(b: Branch, valid: nat -> bool, addr: nat -> Address)
    requires NeverEnding(valid) && Watching(b, valid, addr)
    ensures Watching(Expanded(b, valid, addr), valid, addr)
    ensures LooksAhead(Expanded(b, valid, addr), valid)
  {
    var h, h', n := b.horizon, Expanded(b, valid, addr).horizon, b.nextUnfound;
    CountAfter(valid, h, Missing(b));
    if n <= h {
      assert InvalidAhead(b) == InvalidIn(valid, n, h);
      ValidAndInvalid(valid, n, h);
      CountSplit(valid, n, h, h');
    } else {
      assert InvalidAhead(b) == {};
      CountSplit(valid, h, n, h');
    }
    assert InvalidAhead(Expanded(b, valid, addr)) == InvalidIn(valid, n, h');
  }

  /** As long as only watched indexes are reported, the look-ahead holds no more than
      `window` valid children either, so no key is derived too early. */
  lemma ExpandedExactly(b: Branch, valid: nat -> bool, addr: nat -> Address)
    requires NeverEnding(valid) && Watching(b, valid, addr)
    requires b.nextUnfound <= b.horizon && CountValid(valid, b.nextUnfound, b.horizon) <= b.window
    ensures CountValid(valid, b.nextUnfound, Expanded(b, valid, addr).horizon) == b.window
  {
    var h, h', n := b.horizon, Expanded(b, valid, addr).horizon, b.nextUnfound;
    CountAfter(valid, h, Missing(b));
    assert InvalidAhead(b) == InvalidIn(valid, n, h);
    ValidAndInvalid(valid, n, h);
    CountSplit(valid, n, h, h');
  }

  lemma ReportedWatchedNeverWidens(b: Branch, valid: nat -> bool, index: nat)
    requires b.nextUnfound <= b.horizon && index < b.horizon
    ensures Reported(b, index).nextUnfound <= b.horizon
    ensures CountValid(valid, Reported(b, index).nextUnfound, b.horizon) <= CountValid(valid, b.nextUnfound, b.horizon)
  {
    CountSplit(valid, b.nextUnfound, Reported(b, index).nextUnfound, b.horizon);
  }

  datatype Op = Report(index: nat) | Expand

  ghost function RunOps(b: Branch, valid: nat -> bool, addr: nat -> Address, ops: seq<Op>): Branch
    requires NeverEnding(valid)
  {
    if ops == [] then b
    else
      var before := RunOps(b, valid, addr, ops[..|ops| - 1]);
      match ops[|ops| - 1]
      case Report(index) => Reported(before, index)
      case Expand => Expanded(before, valid, addr)
  }

  /** The look-ahead holds after every extension in any run of reports and extensions,
      from a new branch or from one restored out of a wallet. */
  lemma {:induction false} AlwaysLooksAhead(
    window: nat, restored: nat, valid: nat -> bool, addr: nat -> Address, ops: seq<Op>)
    requires NeverEnding(valid)
    ensures
      var b := RunOps(Resurrected(window, valid, addr, restored), valid, addr, ops);
      && Watching(b, valid, addr) && b.window == window
      && (ops != [] && ops[|ops| - 1].Expand? ==> LooksAhead(b, valid))
  {
    if ops == [] {
      ResurrectedIsWatching(window, valid, addr, restored);
    } else {
      var before := RunOps(Resurrected(window, valid, addr, restored), valid, addr, ops[..|ops| - 1]);
      AlwaysLooksAhead(window, restored, valid, addr, ops[..|ops| - 1]);
      match ops[|ops| - 1]
      case Report(index) => ReportedKeepsWatching(before, valid, addr, index);
      case Expand => ExpandedLooksAhead(before, valid, addr);
    }
  }

  /** Every index reported lies below the horizon of its moment, as it does in a scan, which
      can only find what is watched. */
  ghost predicate WithinHorizon(b: Branch, valid: nat -> bool, addr: nat -> Address, ops: seq<Op>)
    requires NeverEnding(valid)
  {
    ops == [] ||
    var before, last := ops[..|ops| - 1], ops[|ops| - 1];
    && WithinHorizon(b, valid, addr, before)
    && (last.Report? ==> last.index < RunOps(b, valid, addr, before).horizon)
  }

  /** The look-ahead is no wider than asked for. */
  predicate NoWider(b: Branch, valid: nat -> bool) {
    b.nextUnfound <= b.horizon && CountValid(valid, b.nextUnfound, b.horizon) <= b.window
  }

  /** A branch whose look-ahead is no wider than `window` keeps it so in any run of reports
      within the horizon, and has exactly `window` valid children there after every
      extension. */
  lemma {:induction false} RunLooksAheadExactly(b: Branch, valid: nat -> bool, addr: nat -> Address, ops: seq<Op>)
    requires NeverEnding(valid) && Watching(b, valid, addr) && NoWider(b, valid)
    requires WithinHorizon(b, valid, addr, ops)
    ensures
      var r := RunOps(b, valid, addr, ops);
      && Watching(r, valid, addr) && r.window == b.window && NoWider(r, valid)
      && (ops != [] && ops[|ops| - 1].Expand? ==> CountValid(valid, r.nextUnfound, r.horizon) == b.window)
  {
    if ops != [] {
      var before := RunOps(b, valid, addr, ops[..|ops| - 1]);
      RunLooksAheadExactly(b, valid, addr, ops[..|ops| - 1]);
      match ops[|ops| - 1] {
        case Report(index) =>
          ReportedKeepsWatching(before, valid, addr, index);
          ReportedWatchedNeverWidens(before, valid, index);
        case Expand =>
          ExpandedLooksAhead(before, valid, addr);
          ExpandedExactly(before, valid, addr);
      }
    }
  }

  /** From a new branch, every extension leaves exactly `window` valid children ahead. */
  lemma {:induction false} FreshLooksAheadExactly(window: nat, valid: nat -> bool, addr: nat -> Address, ops: seq<Op>)
    requires NeverEnding(valid) && WithinHorizon(Fresh(window), valid, addr, ops)
    requires ops != [] && ops[|ops| - 1].Expand?
    ensures
      var r := RunOps(Fresh(window), valid, addr, ops);
      CountValid(valid, r.nextUnfound, r.horizon) == window
  {
    RunLooksAheadExactly(Fresh(window), valid, addr, ops);
  }

  /** Restoring valid children only leaves the horizon at the beginning. */
  lemma {:induction false} RestoredState(window: nat, restored: nat, valid: nat -> bool, addr: nat -> Address)
    requires forall i: nat :: i < restored ==> valid(i)
    ensures Resurrected(window, valid, addr, restored) == Branch(window, 0, restored, Derived(valid, addr, 0, restored), {})
  {
    assert InvalidIn(valid, 0, restored) == {};
  }

  /** When all restored children are valid, the first extension of a restored branch leaves
      exactly `window` valid children ahead, and so, by RunLooksAheadExactly, does every later
      one. */
  lemma {:induction false} RestoredLooksAheadExactly(window: nat, restored: nat, valid: nat -> bool, addr: nat -> Address)
    requires NeverEnding(valid) && forall i: nat :: i < restored ==> valid(i)
    ensures
      var r := Expanded(Resurrected(window, valid, addr, restored), valid, addr);
      && Watching(r, valid, addr) && NoWider(r, valid)
      && r.nextUnfound == restored && CountValid(valid, r.nextUnfound, r.horizon) == window
  {
    var b := Branch(window, 0, restored, Derived(valid, addr, 0, restored), {});
    RestoredState(window, restored, valid, addr);
    ExpandedLooksAhead(b, valid, addr);
    BehindExactly(b, valid, addr);
  }

  /** An extension from a horizon behind the next unfound index, over valid children only, is
      exact. */
  lemma {:induction false} BehindExactly(b: Branch, valid: nat -> bool, addr: nat -> Address)
    requires NeverEnding(valid) && b.horizon <= b.nextUnfound && b.invalidChildren == {}
    requires forall i: nat :: b.horizon <= i < b.nextUnfound ==> valid(i)
    ensures b.nextUnfound <= Expanded(b, valid, addr).horizon
    ensures CountValid(valid, b.nextUnfound, Expanded(b, valid, addr).horizon) == b.window
  {
    var h, n, h' := b.horizon, b.nextUnfound, Expanded(b, valid, addr).horizon;
    assert InvalidAhead(b) == {} == InvalidIn(valid, h, n);
    ValidAndInvalid(valid, h, n);
    CountAfter(valid, h, Missing(b));
    CountSplit(valid, h, n, h');
  }

  /** The branch with the missing number of children derived, all of them valid. */
  function ExpandedSolid(b: Branch, addr: nat -> Address): Branch {
    var h := b.horizon + Missing(b);
    b.(horizon := h, addresses := b.addresses + map i: nat | b.horizon <= i < h :: addr(i))
  }

  /** If every child that an extension derives is valid, it derives no more than are missing,
      and it does not matter what would have become of the others. */
  lemma {:induction false} ExpandedOverValid(b: Branch, valid: nat -> bool, addr: nat -> Address)
    requires NeverEnding(valid) && forall i: nat :: b.horizon <= i < b.horizon + Missing(b) ==> valid(i)
    ensures Expanded(b, valid, addr) == ExpandedSolid(b, addr)
  {
    var h, h' := b.horizon, b.horizon + Missing(b);
    AfterValid(valid, h, Missing(b));
    assert Derived(valid, addr, h, h') == map i: nat | h <= i < h' :: addr(i);
    assert InvalidIn(valid, h, h') == {};
  }

  lemma DerivedAlike(valid: nat -> bool, other: nat -> bool, addr: nat -> Address, lo: nat, hi: nat)
    requires forall i: nat :: lo <= i < hi ==> valid(i) && other(i)
    ensures Derived(valid, addr, lo, hi) == Derived(other, addr, lo, hi)
  {
  }

  lemma {:induction false} AfterValid(valid: nat -> bool, from: nat, count: nat)
    requires NeverEnding(valid) && forall i: nat :: from <= i < from + count ==> valid(i)
    ensures After(valid, from, count) == from + count
  {
    if count > 0 {
      AfterValid(valid, from, count - 1);
    }
  }
}
