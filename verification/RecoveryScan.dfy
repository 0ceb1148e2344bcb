/** The recovery driver of wallet/wallet.go: extend every branch's look-ahead, find the first
    block that pays to a watched address, report what it uses, go on after it. */
module RecoveryScan {
  import opened ChainData
  import opened Optional
  import opened Lookahead
  import opened Recovery
  import opened KeyTree
  import opened BlockFilter
  import opened BlockRelevance
  import opened FilterBlocks

  type Branches = map<BranchId, Branch>

  predicate PaysTo(extract: Extract, txs: seq<Tx>, a: Address) {
    exists tx, o :: tx in txs && 0 <= o < |tx.outs| && extract(tx.outs[o]).Some? && a in extract(tx.outs[o]).value
  }

  /** An output of the transactions pays to this child's address. */
  predicate UsedBy(b: Backend, keys: Keys, txs: seq<Tx>, id: BranchId, i: nat) {
    keys.valid(id)(i) && PaysTo(b.extract, txs, keys.addr(id)(i))
  }

  /** The block uses this child of this branch. */
  predicate Uses(b: Backend, keys: Keys, h: nat, id: BranchId, i: nat) {
    b.fetch(h).Some? && UsedBy(b, keys, b.fetch(h).value.txs, id, i)
  }

  /** n is the successor of the highest index that the blocks use, or of what was known to
      be used before them. */
  ghost predicate IsNext(b: Backend, keys: Keys, id: BranchId, blocks: seq<nat>, n0: nat, n: nat) {
    && n0 <= n
    && (forall h: nat, i: nat :: h in blocks && Uses(b, keys, h, id, i) ==> i < n)
    && (n == n0 || exists h :: h in blocks && Uses(b, keys, h, id, n - 1))
  }

  /** Every index the j-th block uses was used before it, or is among the first `window`
      valid children from the next unfound one on, as the earlier blocks leave it. */
  ghost predicate GapWithin(b: Backend, keys: Keys, id: BranchId, blocks: seq<nat>, j: nat, n0: nat, window: nat)
    requires j < |blocks|
  {
    forall i: nat, n: nat :: Uses(b, keys, blocks[j], id, i) && IsNext(b, keys, id, blocks[..j], n0, n) ==>
      i < n || CountValid(keys.valid(id), n, i) < window
  }

  /** The branch watches everything that a block within the gap can use. */
  lemma UsedIsWatched(b: Backend, keys: Keys, id: BranchId, br: Branch, blocks: seq<nat>, j: nat, n0: nat, i: nat)
    requires GoodKeys(keys) && j < |blocks|
    requires Watching(br, keys.valid(id), keys.addr(id)) && LooksAhead(br, keys.valid(id))
    requires IsNext(b, keys, id, blocks[..j], n0, br.nextUnfound) && GapWithin(b, keys, id, blocks, j, n0, br.window)
    requires Uses(b, keys, blocks[j], id, i)
    ensures i in br.addresses && br.addresses[i] == keys.addr(id)(i)
  {
    if br.horizon <= i {
      CountMonotone(keys.valid(id), br.nextUnfound, br.horizon, i);
    }
  }

  function AddrsOf(branches: Branches, internal: bool): map<ScopedIndex, Address> {
    map id, i | id in branches && id.internal == internal && i in branches[id].addresses ::
      ScopedIndex(id.scope, i) := branches[id].addresses[i]
  }

  function RequestOf(branches: Branches, outPoints: map<OutPoint, Address>, blocks: seq<nat>): Request {
    Request(blocks, AddrsOf(branches, false), AddrsOf(branches, true), outPoints)
  }

  ghost predicate AllWatching(keys: Keys, branches: Branches) {
    forall id :: id in branches ==> Watching(branches[id], keys.valid(id), keys.addr(id))
  }

  /** An address of a request is that of a valid child of its branch. */
  lemma AddrIsOfChild(keys: Keys, branches: Branches, internal: bool, si: ScopedIndex)
    requires AllWatching(keys, branches) && si in AddrsOf(branches, internal)
    ensures
      var id := BranchId(si.scope, internal);
      id in branches && keys.valid(id)(si.index) && AddrsOf(branches, internal)[si] == keys.addr(id)(si.index)
  {
    var id := BranchId(si.scope, internal);
    assert Watching(branches[id], keys.valid(id), keys.addr(id));
  }

  lemma AddrsAreDistinct(keys: Keys, branches: Branches, internal: bool, x: ScopedIndex, y: ScopedIndex)
    requires GoodKeys(keys) && AllWatching(keys, branches)
    requires x in AddrsOf(branches, internal) && y in AddrsOf(branches, internal)
    requires AddrsOf(branches, internal)[x] == AddrsOf(branches, internal)[y]
    ensures x == y
  {
    AddrIsOfChild(keys, branches, internal, x);
    AddrIsOfChild(keys, branches, internal, y);
    assert keys.addr(BranchId(x.scope, internal))(x.index) == keys.addr(BranchId(y.scope, internal))(y.index);
  }

  lemma RequestIsDistinct(keys: Keys, branches: Branches, outPoints: map<OutPoint, Address>, blocks: seq<nat>)
    requires GoodKeys(keys) && AllWatching(keys, branches)
    ensures DistinctAddrs(RequestOf(branches, outPoints, blocks))
  {
    forall internal: bool
      ensures Injective(AddrsOf(branches, internal))
    {
      var m := AddrsOf(branches, internal);
      forall x, y | x in m && y in m && m[x] == m[y]
        ensures x == y
      {
        AddrsAreDistinct(keys, branches, internal, x, y);
      }
    }
  }

  /** The found indexes of one branch. */
  function FoundOf(external: FoundIndexes, internal: FoundIndexes, id: BranchId): set<nat> {
    var found := if id.internal then internal else external;
    if id.scope in found then found[id.scope] else {}
  }

  /** The reverse index of a request leads from a watched child's address back to it. */
  lemma ReverseLeadsBack(
    keys: Keys, branches: Branches, outPoints: map<OutPoint, Address>, blocks: seq<nat>, id: BranchId, i: nat)
    requires GoodKeys(keys) && AllWatching(keys, branches) && id in branches
    ensures
      var rev := Reverse(AddrsOf(branches, id.internal));
      forall a :: a in rev && rev[a] == ScopedIndex(id.scope, i) <==> i in branches[id].addresses && a == keys.addr(id)(i)
  {
    RequestIsDistinct(keys, branches, outPoints, blocks);
    var m, si := AddrsOf(branches, id.internal), ScopedIndex(id.scope, i);
    assert si in m <==> i in branches[id].addresses;
    assert si in m ==> m[si] == keys.addr(id)(i);
  }

  /** If one address alone leads to a child, or none does, the child is found just when that
      address is watched and paid to. */
  lemma {:induction false} OwnerFound(w: Watch, txs: seq<Tx>, internal: bool, si: ScopedIndex, a: Address, watched: bool)
    requires
      var rev := if internal then w.inReverse else w.exReverse;
      forall x :: x in rev && rev[x] == si <==> watched && x == a
    ensures
      var f := BlockFound(w, NothingFound, txs);
      InFound(if internal then f.internal else f.external, si) <==> watched && PaysTo(w.extract, txs, a)
  {
    FoundIndexesExactly(w, txs, si);
    PaidIsPaysTo(w, txs, a);
  }

  /** What the filter finds in a block for a branch is what the block uses of the branch's
      watched children. */
  lemma {:induction false} FoundIsUsed(
    b: Backend, keys: Keys, branches: Branches, outPoints: map<OutPoint, Address>, blocks: seq<nat>,
    txs: seq<Tx>, id: BranchId, i: nat)
    requires GoodKeys(keys) && AllWatching(keys, branches) && id in branches
    ensures
      var f := BlockFound(WatchOf(b, RequestOf(branches, outPoints, blocks)), NothingFound, txs);
      i in FoundOf(f.external, f.internal, id) <==> i in branches[id].addresses && UsedBy(b, keys, txs, id, i)
  {
    var w := WatchOf(b, RequestOf(branches, outPoints, blocks));
    ReverseLeadsBack(keys, branches, outPoints, blocks, id, i);
    OwnerFound(w, txs, id.internal, ScopedIndex(id.scope, i), keys.addr(id)(i), i in branches[id].addresses);
  }

  lemma PaidIsPaysTo(w: Watch, txs: seq<Tx>, a: Address)
    ensures PaidIn(w, txs, a) <==> PaysTo(w.extract, txs, a)
  {
  }

  datatype Effect = Untouched | Forward | BeyondFound | Forgotten

  ghost predicate HasEffect(effect: Effect, br: Branch, found: set<nat>, br': Branch) {
    match effect
    case Untouched => br' == br.(nextUnfound := br'.nextUnfound, invalidChildren := br'.invalidChildren)
    case Forward => br.nextUnfound <= br'.nextUnfound
    case BeyondFound =>
      && (forall i :: i in found ==> i < br'.nextUnfound)
      && (br'.nextUnfound > br.nextUnfound ==> br'.nextUnfound - 1 in found)
    case Forgotten =>
      if br'.nextUnfound > br.nextUnfound then br'.invalidChildren == From(br.invalidChildren, br'.nextUnfound - 1)
      else br'.invalidChildren == br.invalidChildren
  }

  /** The branch after reporting a set of found indexes, in any order. */
  ghost predicate AllReported(br: Branch, found: set<nat>, br': Branch) {
    forall effect :: HasEffect(effect, br, found, br')
  }

  lemma ReportedMeans(br: Branch, found: set<nat>, br': Branch)
    requires AllReported(br, found, br')
    ensures forall effect :: HasEffect(effect, br, found, br')
    ensures br'.window == br.window && br'.horizon == br.horizon && br'.addresses == br.addresses
    ensures br.nextUnfound <= br'.nextUnfound && forall i :: i in found ==> i < br'.nextUnfound
    ensures br'.nextUnfound > br.nextUnfound ==> br'.nextUnfound - 1 in found
    ensures br'.invalidChildren <= br.invalidChildren
    ensures forall i :: i in br.invalidChildren && i >= br'.nextUnfound ==> i in br'.invalidChildren
  {
    assert HasEffect(Untouched, br, found, br') && HasEffect(Forward, br, found, br');
    assert HasEffect(BeyondFound, br, found, br') && HasEffect(Forgotten, br, found, br');
  }

  /** One more index reported. */
  lemma ReportedOneMore(br: Branch, found: set<nat>, index: nat, br': Branch)
    requires AllReported(br, found, br')
    ensures AllReported(br, found + {index}, Reported(br', index))
  {
    assert HasEffect(Untouched, br, found, br') && HasEffect(Forward, br, found, br');
    assert HasEffect(BeyondFound, br, found, br') && HasEffect(Forgotten, br, found, br');
    if index >= br'.nextUnfound {
      assert From(br'.invalidChildren, index) == From(br.invalidChildren, index);
    }
  }

  lemma AllReportedKeepsWatching(br: Branch, found: set<nat>, br': Branch, valid: nat -> bool, addr: nat -> Address)
    requires AllReported(br, found, br') && Watching(br, valid, addr)
    ensures Watching(br', valid, addr)
  {
    ReportedMeans(br, found, br');
  }

  lemma NextAfterReported(
    b: Backend, keys: Keys, id: BranchId, blocks: seq<nat>, j: nat, n0: nat, br: Branch, found: set<nat>, br': Branch)
    requires j < |blocks| && IsNext(b, keys, id, blocks[..j], n0, br.nextUnfound)
    requires forall i: nat :: i in found <==> Uses(b, keys, blocks[j], id, i)
    requires AllReported(br, found, br')
    ensures br'.window == br.window && IsNext(b, keys, id, blocks[..j + 1], n0, br'.nextUnfound)
  {
    ReportedMeans(br, found, br');
    assert forall h :: h in blocks[..j + 1] <==> h in blocks[..j] || h == blocks[j];
    if br'.nextUnfound != br.nextUnfound {
      assert Uses(b, keys, blocks[j], id, br'.nextUnfound - 1);
    }
  }

  method ReportAll(brs: BranchRecoveryState, found: set<nat>)
    modifies brs
    ensures AllReported(old(brs.State()), found, brs.State())
  {
    var rest := found;
    while rest != {}
      invariant rest <= found
      invariant AllReported(old(brs.State()), found - rest, brs.State())
      decreases rest
    {
      var index :| index in rest;
      ReportedOneMore(old(brs.State()), found - rest, index, brs.State());
      brs.ReportFound(index);
      assert found - (rest - {index}) == (found - rest) + {index};
      rest := rest - {index};
    }
    assert found - rest == found;
  }
}
