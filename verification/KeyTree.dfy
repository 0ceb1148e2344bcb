/** The key tree that recovery derives from, and how its errors reach the recovery code
    (DeriveFromKeyPath and deriveKey in waddrmgr/scoped_manager.go). */
module KeyTree {
  import opened ChainData
  import opened Lookahead
  import opened Recovery

  /** The external or the internal branch of a key scope's default account. */
  datatype BranchId = BranchId(scope: KeyScope, internal: bool)

  /** The key tree: which children are valid and their addresses, which derivations fail for
      another reason, and up to which index the manager's extension of a branch succeeds. */
  datatype Keys = Keys(
    valid: BranchId -> nat -> bool, addr: BranchId -> nat -> Address,
    broken: BranchId -> nat -> bool, grants: BranchId -> nat -> bool)

  ghost predicate GoodKeys(keys: Keys) {
    && (forall id :: NeverEnding(keys.valid(id)))
    && (forall id, i, id', i' :: keys.addr(id)(i) == keys.addr(id')(i') ==> id == id' && i == i')
  }

  /** The child is valid and nothing else keeps it from being derived. */
  predicate Derivable(keys: Keys, id: BranchId, i: nat) {
    keys.valid(id)(i) && !keys.broken(id)(i)
  }

  /** Deriving a child of the tree, by itself. */
  function Derive(keys: Keys, id: BranchId, i: nat): Derivation {
    if keys.broken(id)(i) then OtherError
    else if keys.valid(id)(i) then Key(keys.addr(id)(i))
    else InvalidChild
  }

  /** deriveKey turns every error into a ManagerError, so that an invalid child is no longer
      hdkeychain.ErrInvalidChild to the caller. */
  function Wrapped(d: Derivation): Derivation {
    if d.Key? then d else OtherError
  }

  function DeriveFromKeyPath(keys: Keys, id: BranchId): nat -> Derivation {
    (i: nat) => Wrapped(Derive(keys, id, i))
  }

  function AnyValid(): nat -> bool {
    (i: nat) => true
  }

  function Underivable(keys: Keys, id: BranchId): nat -> bool {
    (i: nat) => !Derivable(keys, id, i)
  }

  /** No child is ever reported as invalid: it gives its key or another error. */
  lemma NeverInvalid(keys: Keys, id: BranchId)
    ensures Gives(DeriveFromKeyPath(keys, id), AnyValid(), keys.addr(id), Underivable(keys, id))
    ensures NeverEnding(AnyValid())
  {
    forall i: nat
      ensures SomeValidFrom(AnyValid(), i)
    {
      assert AnyValid()(i);
    }
  }

  /** The children from lo up to, not including, hi can all be derived. */
  predicate AllDerivable(keys: Keys, id: BranchId, lo: nat, hi: nat) {
    forall i: nat :: lo <= i < hi ==> Derivable(keys, id, i)
  }

  lemma NoneUnderivable(keys: Keys, id: BranchId, lo: nat, hi: nat)
    ensures NoneBroken(Underivable(keys, id), lo, hi) <==> AllDerivable(keys, id, lo, hi)
    ensures AllDerivable(keys, id, lo, hi) ==> forall i: nat :: lo <= i < hi ==> keys.valid(id)(i)
  {
    forall i: nat
      ensures Underivable(keys, id)(i) == !Derivable(keys, id, i)
    {
    }
    if NoneBroken(Underivable(keys, id), lo, hi) {
      forall i: nat | lo <= i < hi
        ensures Derivable(keys, id, i)
      {
        assert !Underivable(keys, id)(i);
      }
    }
    if AllDerivable(keys, id, lo, hi) {
      forall i: nat | lo <= i < hi
        ensures keys.valid(id)(i)
      {
        assert Derivable(keys, id, i);
      }
    }
  }

  /** The children that an extension of the branch derives can all be derived. */
  predicate CanExpand(keys: Keys, id: BranchId, br: Branch) {
    AllDerivable(keys, id, br.horizon, br.horizon + Missing(br))
  }

  ghost function ExpandedOn(keys: Keys, id: BranchId, br: Branch): Branch
    requires GoodKeys(keys)
  {
    Expanded(br, keys.valid(id), keys.addr(id))
  }

  lemma {:induction false} ExpandedFromKeys(keys: Keys, id: BranchId, br: Branch)
    requires GoodKeys(keys) && NeverEnding(AnyValid())
    ensures Expanded(br, AnyValid(), keys.addr(id)).horizon == br.horizon + Missing(br)
    ensures NoneBroken(Underivable(keys, id), br.horizon, br.horizon + Missing(br)) <==> CanExpand(keys, id, br)
    ensures CanExpand(keys, id, br) ==> Expanded(br, AnyValid(), keys.addr(id)) == ExpandedOn(keys, id, br)
  {
    NoneUnderivable(keys, id, br.horizon, br.horizon + Missing(br));
    ExpandedOverValid(br, AnyValid(), keys.addr(id));
    if CanExpand(keys, id, br) {
      ExpandedOverValid(br, keys.valid(id), keys.addr(id));
    }
  }

  /** One branch of expandScopeHorizons with the manager's derivations. Invalid children are
      not passed over: it fails exactly if one of the missing children is invalid or cannot
      be derived, and otherwise registers them all. */
  method ExpandFromKeys(brs: BranchRecoveryState, keys: Keys, id: BranchId) returns (ok: bool)
    requires GoodKeys(keys)
    modifies brs
    ensures ok == CanExpand(keys, id, old(brs.State()))
    ensures ok ==> brs.State() == ExpandedOn(keys, id, old(brs.State()))
  {
    NeverInvalid(keys, id);
    ExpandedFromKeys(keys, id, brs.State());
    ok := ExpandBranch(brs, DeriveFromKeyPath(keys, id), AnyValid(), keys.addr(id), Underivable(keys, id));
  }

  /** The children below the key count can all be derived. */
  predicate CanResurrect(keys: Keys, id: BranchId, keyCount: nat) {
    AllDerivable(keys, id, 0, keyCount)
  }

  /** One branch of Resurrect with the manager's derivations: it fails exactly if a child
      below the key count is invalid or cannot be derived. */
  method ResurrectFromKeys(brs: BranchRecoveryState, keys: Keys, id: BranchId, keyCount: nat) returns (ok: bool)
    requires brs.State() == Fresh(brs.recoveryWindow)
    modifies brs
    ensures ok == CanResurrect(keys, id, keyCount)
    ensures ok ==> brs.State() == Resurrected(old(brs.recoveryWindow), keys.valid(id), keys.addr(id), keyCount)
  {
    NeverInvalid(keys, id);
    ResurrectedFromKeys(brs.recoveryWindow, keys, id, keyCount);
    ok := ResurrectBranch(brs, DeriveFromKeyPath(keys, id), keyCount, AnyValid(), keys.addr(id), Underivable(keys, id));
  }

  lemma {:induction false} ResurrectedFromKeys(window: nat, keys: Keys, id: BranchId, keyCount: nat)
    ensures NoneBroken(Underivable(keys, id), 0, keyCount) <==> CanResurrect(keys, id, keyCount)
    ensures CanResurrect(keys, id, keyCount) ==>
              Resurrected(window, AnyValid(), keys.addr(id), keyCount)
                == Resurrected(window, keys.valid(id), keys.addr(id), keyCount)
  {
    NoneUnderivable(keys, id, 0, keyCount);
    if CanResurrect(keys, id, keyCount) {
      RestoredState(window, keyCount, AnyValid(), keys.addr(id));
      RestoredState(window, keyCount, keys.valid(id), keys.addr(id));
      DerivedAlike(AnyValid(), keys.valid(id), keys.addr(id), 0, keyCount);
    }
  }
}
