/** Every block header the backing node can be asked for, as a tree.

    The tree is a map from block hash to header, so one hash names one header: this is
    all that is assumed of the hash function. A node may hold any number of branches. */
module BlockTree {

  type Hash = nat

  /** The previous-block hash of a first block; it names no block. */
  const ZeroHash: Hash := 0

  datatype Header = Header(prev: Hash, time: int)

  /** A full block as a client receives it. */
  datatype MsgBlock = MsgBlock(hash: Hash, header: Header)

  datatype Entry = Entry(header: Header, height: nat)

  /** A block hash with its height and time stamp (waddrmgr.BlockStamp). */
  datatype BlockStamp = BlockStamp(hash: Hash, height: int, time: int)

  /** A first block has no previous block; any other block sits one above its own. */
  predicate Linked(t: map<Hash, Entry>, h: Hash)
    requires h in t
  {
    var prev := t[h].header.prev;
    if t[h].height == 0 then prev == ZeroHash
    else prev in t && t[prev].height == t[h].height - 1
  }

  predicate IsTree(t: map<Hash, Entry>) {
    && ZeroHash !in t
    && forall h {:trigger Linked(t, h)} :: h in t ==> Linked(t, h)
  }

  type Tree = t: map<Hash, Entry> | IsTree(t) witness map[]

  function BlockOf(t: Tree, x: Hash): MsgBlock
    requires x in t
  {
    MsgBlock(x, t[x].header)
  }

  /** The true stamp of a block of the tree. */
  function Stamp(t: Tree, x: Hash): BlockStamp
    requires x in t
  {
    BlockStamp(x, t[x].height, t[x].header.time)
  }

  /** The ancestor of x at height k; below the first block there is only the zero hash. */
  function Ancestor(t: Tree, x: Hash, k: int): (y: Hash)
    requires x in t && -1 <= k <= t[x].height
    ensures k >= 0 ==> y in t && t[y].height == k
    ensures k == -1 ==> y == ZeroHash
    decreases t[x].height
  {
    assert Linked(t, x);
    if k == t[x].height then x
    else if t[x].height == 0 then t[x].header.prev
    else Ancestor(t, t[x].header.prev, k)
  }

  /** One step further back is the previous-block hash of the header. */
  lemma {:induction false} AncestorStep(t: Tree, x: Hash, k: int)
    requires x in t && 0 <= k <= t[x].height
    ensures t[Ancestor(t, x, k)].header.prev == Ancestor(t, x, k - 1)
    decreases t[x].height
  {
    assert Linked(t, x);
    if k < t[x].height {
      AncestorStep(t, t[x].header.prev, k);
    }
  }

  lemma {:induction false} AncestorOfAncestor(t: Tree, x: Hash, m: int, k: int)
    requires x in t && -1 <= k <= m <= t[x].height && 0 <= m
    ensures Ancestor(t, Ancestor(t, x, m), k) == Ancestor(t, x, k)
    decreases t[x].height
  {
    assert Linked(t, x);
    if m < t[x].height {
      AncestorOfAncestor(t, t[x].header.prev, m, k);
    }
  }

  /** Two branches that agree at one height agree at every height below it. */
  lemma {:induction false} AgreeBelow(t: Tree, x: Hash, y: Hash, m: int, k: int)
    requires x in t && y in t && -1 <= k <= m <= t[x].height && m <= t[y].height
    requires Ancestor(t, x, m) == Ancestor(t, y, m)
    ensures Ancestor(t, x, k) == Ancestor(t, y, k)
  {
    if m >= 0 {
      AncestorOfAncestor(t, x, m, k);
      AncestorOfAncestor(t, y, m, k);
    }
  }

  /** The greatest height up to j at which the branches of x and y agree. */
  function AgreementUpTo(t: Tree, x: Hash, y: Hash, j: int): (a: int)
    requires x in t && y in t && -1 <= j <= t[x].height && j <= t[y].height
    ensures -1 <= a <= j
    ensures Ancestor(t, x, a) == Ancestor(t, y, a)
    ensures forall k :: a < k <= j ==> Ancestor(t, x, k) != Ancestor(t, y, k)
    decreases j + 1
  {
    if Ancestor(t, x, j) == Ancestor(t, y, j) then j else AgreementUpTo(t, x, y, j - 1)
  }

  /** The fork height of a reorganisation from tip x to block y: the greatest height
      strictly below the old tip at which both branches agree. */
  function Fork(t: Tree, x: Hash, y: Hash): (a: int)
    requires x in t && y in t && t[x].height <= t[y].height
    ensures -1 <= a < t[x].height
    ensures Ancestor(t, x, a) == Ancestor(t, y, a)
    ensures forall k :: a < k < t[x].height ==> Ancestor(t, x, k) != Ancestor(t, y, k)
  {
    AgreementUpTo(t, x, y, t[x].height - 1)
  }
}
