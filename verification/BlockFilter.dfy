/** Scanning one block for the wallet's addresses and spends (chain/block_filterer.go). */
module BlockFilter {
  import opened ChainData
  import opened Optional

  /** The addresses a script pays to, or None for a script that cannot be parsed. */
  type Extract = Script -> Option<seq<Address>>

  /** What a filterer looks for. */
  datatype Watch = Watch(
    extract: Extract,
    exReverse: map<Address, ScopedIndex>,
    inReverse: map<Address, ScopedIndex>,
    outPoints: map<OutPoint, Address>)

  type FoundIndexes = map<KeyScope, set<nat>>

  /** What a filterer has found so far. */
  datatype Found = Found(
    external: FoundIndexes, internal: FoundIndexes, outPoints: map<OutPoint, Address>, txs: seq<Tx>)

  const NothingFound: Found := Found(map[], map[], map[], [])

  function AddIndex(found: FoundIndexes, si: ScopedIndex): FoundIndexes {
    found[si.scope := (if si.scope in found then found[si.scope] else {}) + {si.index}]
  }

  predicate InFound(found: FoundIndexes, si: ScopedIndex) {
    si.scope in found && si.index in found[si.scope]
  }

  function Addrs(w: Watch, script: Script): seq<Address> {
    match w.extract(script)
    case Some(addrs) => addrs
    case None => []
  }

  predicate Watched(w: Watch, a: Address) {
    a in w.exReverse || a in w.inReverse
  }

  predicate PaysAt(w: Watch, tx: Tx, i: int) {
    0 <= i < |tx.outs| && exists a :: a in Addrs(w, tx.outs[i]) && Watched(w, a)
  }

  predicate Pays(w: Watch, tx: Tx, n: int)
    requires n <= |tx.outs|
  {
    exists i :: 0 <= i < n && PaysAt(w, tx, i)
  }

  predicate Spends(w: Watch, f: Found, tx: Tx, n: int)
    requires n <= |tx.ins|
  {
    exists i :: 0 <= i < n && (tx.ins[i] in w.outPoints || tx.ins[i] in f.outPoints)
  }

  function AddrFound(w: Watch, f: Found, a: Address): Found {
    f.(external := if a in w.exReverse then AddIndex(f.external, w.exReverse[a]) else f.external,
       internal := if a in w.inReverse then AddIndex(f.internal, w.inReverse[a]) else f.internal)
  }

  function AddrsFound(w: Watch, f: Found, addrs: seq<Address>): Found {
    if addrs == [] then f
    else AddrFound(w, AddrsFound(w, f, addrs[..|addrs| - 1]), addrs[|addrs| - 1])
  }

  /** After the first n outputs of a transaction. */
  function OutputsFound(w: Watch, f: Found, tx: Tx, n: nat): Found
    requires n <= |tx.outs|
  {
    if n == 0 then f
    else
      var before := OutputsFound(w, f, tx, n - 1);
      if PaysAt(w, tx, n - 1) then
        var addrs := Addrs(w, tx.outs[n - 1]);
        var g := AddrsFound(w, before, addrs);
        g.(outPoints := g.outPoints[OutPoint(tx.id, n - 1) := addrs[0]])
      else before
  }

  predicate RelevantNow(w: Watch, f: Found, tx: Tx) {
    Spends(w, f, tx, |tx.ins|) || Pays(w, tx, |tx.outs|)
  }

  /** After the transactions of a block, in order. */
  function BlockFound(w: Watch, f: Found, txs: seq<Tx>): Found {
    if txs == [] then f
    else
      var before, tx := BlockFound(w, f, txs[..|txs| - 1]), txs[|txs| - 1];
      var after := OutputsFound(w, before, tx, |tx.outs|);
      if RelevantNow(w, before, tx) then after.(txs := after.txs + [tx]) else after
  }

  lemma {:induction false} AddrsNotWatched(w: Watch, f: Found, addrs: seq<Address>)
    requires forall a :: a in addrs ==> !Watched(w, a)
    ensures AddrsFound(w, f, addrs) == f
  {
    if addrs != [] {
      AddrsNotWatched(w, f, addrs[..|addrs| - 1]);
      assert !Watched(w, addrs[|addrs| - 1]);
    }
  }

  class BlockFilterer {
    const extract: Extract
    const exReverseFilter: map<Address, ScopedIndex>
    const inReverseFilter: map<Address, ScopedIndex>
    const watchedOutPoints: map<OutPoint, Address>
    var foundExternal: FoundIndexes
    var foundInternal: FoundIndexes
    var foundOutPoints: map<OutPoint, Address>
    var relevantTxns: seq<Tx>

    constructor (w: Watch)
      ensures Looking() == w && State() == NothingFound
    {
      extract, exReverseFilter, inReverseFilter, watchedOutPoints := w.extract, w.exReverse, w.inReverse, w.outPoints;
      foundExternal, foundInternal, foundOutPoints, relevantTxns := map[], map[], map[], [];
    }

    function Looking(): Watch {
      Watch(extract, exReverseFilter, inReverseFilter, watchedOutPoints)
    }

    function State(): Found reads this {
      Found(foundExternal, foundInternal, foundOutPoints, relevantTxns)
    }

    method FilterOutputAddrs(addrs: seq<Address>) returns (isRelevant: bool)
      modifies this`foundExternal, this`foundInternal
      ensures isRelevant <==> exists a :: a in addrs && Watched(Looking(), a)
      ensures State() == AddrsFound(Looking(), old(State()), addrs)
    {
      isRelevant := false;
      for i := 0 to |addrs|
        invariant isRelevant <==> exists a :: a in addrs[..i] && Watched(Looking(), a)
        invariant State() == AddrsFound(Looking(), old(State()), addrs[..i])
      {
        var addr := addrs[i];
        assert addrs[..i + 1] == addrs[..i] + [addr];
        assert addrs[..i + 1][..i] == addrs[..i];
        assert addr in addrs[..i + 1] && forall a :: a in addrs[..i + 1] <==> a in addrs[..i] || a == addr;
        if addr in exReverseFilter {
          foundExternal := AddIndex(foundExternal, exReverseFilter[addr]);
          isRelevant := true;
        }
        if addr in inReverseFilter {
          foundInternal := AddIndex(foundInternal, inReverseFilter[addr]);
          isRelevant := true;
        }
      }
      assert addrs[..|addrs|] == addrs;
    }

    /** Looks at one output; records its outpoint if it pays to a watched address. */
    method FilterOutput(tx: Tx, i: nat) returns (isRelevant: bool)
      requires i < |tx.outs|
      modifies this`foundExternal, this`foundInternal, this`foundOutPoints
      ensures isRelevant == PaysAt(Looking(), tx, i)
      ensures forall f, n :: n == i && old(State()) == OutputsFound(Looking(), f, tx, n) ==>
                State() == OutputsFound(Looking(), f, tx, n + 1)
    {
      var parsed := extract(tx.outs[i]);
      if parsed.None? {
        return false;
      }
      isRelevant := FilterOutputAddrs(parsed.value);
      if !isRelevant {
        AddrsNotWatched(Looking(), old(State()), parsed.value);
        return;
      }
      foundOutPoints := foundOutPoints[OutPoint(tx.id, i) := parsed.value[0]];
    }

    method FilterTx(tx: Tx) returns (isRelevant: bool)
      modifies this`foundExternal, this`foundInternal, this`foundOutPoints
      ensures isRelevant == RelevantNow(Looking(), old(State()), tx)
      ensures State() == OutputsFound(Looking(), old(State()), tx, |tx.outs|)
    {
      isRelevant := false;
      for i := 0 to |tx.ins|
        invariant isRelevant == Spends(Looking(), State(), tx, i)
        invariant State() == old(State())
      {
        if tx.ins[i] in watchedOutPoints {
          isRelevant := true;
        }
        if tx.ins[i] in foundOutPoints {
          isRelevant := true;
        }
      }
      for i := 0 to |tx.outs|
        invariant isRelevant == (Spends(Looking(), old(State()), tx, |tx.ins|) || Pays(Looking(), tx, i))
        invariant State() == OutputsFound(Looking(), old(State()), tx, i)
      {
        var pays := FilterOutput(tx, i);
        if pays {
          isRelevant := true;
        }
      }
    }

    method FilterBlock(block: Block) returns (hasRelevantTxns: bool)
      modifies this`foundExternal, this`foundInternal, this`foundOutPoints, this`relevantTxns
      ensures State() == BlockFound(Looking(), old(State()), block.txs)
      ensures hasRelevantTxns <==> |State().txs| > |old(State()).txs|
    {
      hasRelevantTxns := false;
      var txs := block.txs;
      for i := 0 to |txs|
        invariant State() == BlockFound(Looking(), old(State()), txs[..i])
        invariant |relevantTxns| >= |old(relevantTxns)|
        invariant hasRelevantTxns <==> |relevantTxns| > |old(relevantTxns)|
      {
        assert txs[..i + 1][..i] == txs[..i];
        var relevant := FilterTx(txs[i]);
        if relevant {
          relevantTxns := relevantTxns + [txs[i]];
          hasRelevantTxns := true;
        }
      }
      assert txs[..|txs|] == txs;
    }
  }
}
