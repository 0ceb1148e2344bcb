/** Finding the first block of a batch that concerns the wallet: by fetching every block
    (chain/lokid_client.go), or by asking compact filters first (chain/flcd.go and
    chain/neutrino.go). */
module FilterBlocks {
  import opened ChainData
  import opened Optional
  import opened BlockFilter
  import opened BlockRelevance

  datatype Request = Request(
    blocks: seq<nat>,
    external: map<ScopedIndex, Address>,
    internal: map<ScopedIndex, Address>,
    outPoints: map<OutPoint, Address>)

  datatype Response = Response(
    batchIndex: nat, block: nat,
    foundExternal: FoundIndexes, foundInternal: FoundIndexes,
    foundOutPoints: map<OutPoint, Address>, relevantTxns: seq<Tx>)

  datatype Answer = Failed | NoMatch | Match(response: Response)

  /** What a filter server says about a block. A filter answers whether it matches any of
      a list of scripts, or fails to. */
  datatype FilterAnswer = NoAnswer | EmptyFilter | Filter(matchAny: seq<Script> -> Option<bool>)

  /** A chain backend, whether it scans with compact filters, and the script forms of
      addresses. */
  datatype Backend = Backend(
    extract: Extract,
    payToAddr: Address -> Script,
    fetch: nat -> Option<Block>,
    filter: nat -> FilterAnswer,
    compact: bool)

  /** Distinct child keys have distinct addresses. */
  ghost predicate Injective(m: map<ScopedIndex, Address>) {
    forall x, y :: x in m && y in m && m[x] == m[y] ==> x == y
  }

  ghost function OwnerOf(m: map<ScopedIndex, Address>, a: Address): (si: ScopedIndex)
    requires a in m.Values
    ensures si in m && m[si] == a
  {
    var si :| si in m && m[si] == a;
    si
  }

  /** From each address to the child it was derived for. */
  ghost function Reverse(m: map<ScopedIndex, Address>): (r: map<Address, ScopedIndex>)
    ensures r.Keys == m.Values
    ensures forall a :: a in r ==> r[a] in m && m[r[a]] == a
    ensures Injective(m) ==> forall si :: si in m ==> m[si] in r && r[m[si]] == si
  {
    map a | a in m.Values :: OwnerOf(m, a)
  }

  ghost function WatchOf(b: Backend, req: Request): Watch {
    Watch(b.extract, Reverse(req.external), Reverse(req.internal), req.outPoints)
  }

  ghost predicate DistinctAddrs(req: Request) {
    Injective(req.external) && Injective(req.internal)
  }

  /** A reverse index: it leads from each address to a child it was derived for. */
  predicate Reverses(m: map<ScopedIndex, Address>, r: map<Address, ScopedIndex>) {
    r.Keys == m.Values && forall a :: a in r ==> r[a] in m && m[r[a]] == a
  }

  /** What a filterer made for the request looks for. Which child a shared address leads
      back to is left open, as it is in the code. */
  ghost predicate WatchFor(b: Backend, req: Request, w: Watch) {
    && w.extract == b.extract && w.outPoints == req.outPoints
    && Reverses(req.external, w.exReverse) && Reverses(req.internal, w.inReverse)
  }

  lemma WatchIsUnique(b: Backend, req: Request, w: Watch)
    requires DistinctAddrs(req) && WatchFor(b, req, w)
    ensures w == WatchOf(b, req)
  {
    assert w.exReverse == Reverse(req.external) && w.inReverse == Reverse(req.internal);
  }

  method BuildReverse(m: map<ScopedIndex, Address>) returns (r: map<Address, ScopedIndex>)
    ensures Reverses(m, r)
  {
    r := map[];
    var rest := m.Keys;
    while rest != {}
      invariant rest <= m.Keys
      invariant forall a :: a in r ==> r[a] in m && m[r[a]] == a
      invariant forall si :: si in m && si !in rest ==> m[si] in r
      decreases rest
    {
      var si :| si in rest;
      r := r[m[si] := si];
      rest := rest - {si};
    }
  }

  method NewBlockFilterer(b: Backend, req: Request) returns (bf: BlockFilterer)
    ensures fresh(bf) && WatchFor(b, req, bf.Looking()) && bf.State() == NothingFound
  {
    var exReverse := BuildReverse(req.external);
    var inReverse := BuildReverse(req.internal);
    bf := new BlockFilterer(Watch(b.extract, exReverse, inReverse, req.outPoints));
  }

  function ResponseOf(i: nat, block: nat, f: Found): Response {
    Response(i, block, f.external, f.internal, f.outPoints, f.txs)
  }

  /** The answer of a scan that fetches every block from position i on. */
  function FullScan(b: Backend, w: Watch, blocks: seq<nat>, i: nat): Answer
    requires i <= |blocks|
    decreases |blocks| - i
  {
    if i == |blocks| then NoMatch
    else
      match b.fetch(blocks[i])
      case None => Failed
      case Some(block) =>
        var f := BlockFound(w, NothingFound, block.txs);
        if f.txs == [] then FullScan(b, w, blocks, i + 1) else Match(ResponseOf(i, blocks[i], f))
  }

  /** The answer of a scan that fetches a block only when its filter matches. */
  function CompactScan(b: Backend, w: Watch, watchList: seq<Script>, blocks: seq<nat>, i: nat): Answer
    requires i <= |blocks|
    decreases |blocks| - i
  {
    if i == |blocks| then NoMatch
    else
      match b.filter(blocks[i])
      case NoAnswer => Failed
      case EmptyFilter => CompactScan(b, w, watchList, blocks, i + 1)
      case Filter(matchAny) =>
        match matchAny(watchList)
        case None => Failed
        case Some(false) => CompactScan(b, w, watchList, blocks, i + 1)
        case Some(true) =>
          match b.fetch(blocks[i])
          case None => Failed
          case Some(block) =>
            var f := BlockFound(w, NothingFound, block.txs);
            if f.txs == [] then CompactScan(b, w, watchList, blocks, i + 1) else Match(ResponseOf(i, blocks[i], f))
  }

  /** The filter finds nothing in a block that can be fetched. */
  predicate FindsNothing(b: Backend, w: Watch, h: nat) {
    b.fetch(h).Some? && BlockFound(w, NothingFound, b.fetch(h).value.txs).txs == []
  }

  /** The response is about the block at position k: its position, the block, and what the
      filter finds in it, which is something. */
  predicate RespondsAt(b: Backend, w: Watch, blocks: seq<nat>, k: nat, r: Response) {
    && k < |blocks| && r.batchIndex == k && r.block == blocks[k] && b.fetch(blocks[k]).Some?
    && var f := BlockFound(w, NothingFound, b.fetch(blocks[k]).value.txs);
       f.txs != [] && Found(r.foundExternal, r.foundInternal, r.foundOutPoints, r.relevantTxns) == f
  }

  /** A scan of every block ends at position k: before it, every block was fetched and holds
      nothing. */
  predicate FullEndsAt(b: Backend, w: Watch, blocks: seq<nat>, answer: Answer, k: nat) {
    && k <= |blocks| && (forall j :: 0 <= j < k ==> FindsNothing(b, w, blocks[j]))
    && match answer
       case NoMatch => k == |blocks|
       case Match(r) => RespondsAt(b, w, blocks, k, r)
       case Failed => k < |blocks| && b.fetch(blocks[k]).None?
  }

  ghost predicate FullOutcome(b: Backend, w: Watch, blocks: seq<nat>, answer: Answer) {
    exists k :: FullEndsAt(b, w, blocks, answer, k)
  }

  /** The block's filter is empty, or says that nothing on the list is in the block. */
  predicate Denied(b: Backend, list: seq<Script>, h: nat) {
    b.filter(h).EmptyFilter? || (b.filter(h).Filter? && b.filter(h).matchAny(list) == Some(false))
  }

  predicate Admitted(b: Backend, list: seq<Script>, h: nat) {
    b.filter(h).Filter? && b.filter(h).matchAny(list) == Some(true)
  }

  /** A scan with filters ends at position k: before it, every block was denied by its filter,
      or was fetched and holds nothing. It fails at a block whose filter cannot be had or
      matched, or that its filter admits and that cannot be fetched. */
  predicate CompactEndsAt(b: Backend, w: Watch, list: seq<Script>, blocks: seq<nat>, answer: Answer, k: nat) {
    && k <= |blocks|
    && (forall j :: 0 <= j < k ==>
          Denied(b, list, blocks[j]) || (Admitted(b, list, blocks[j]) && FindsNothing(b, w, blocks[j])))
    && match answer
       case NoMatch => k == |blocks|
       case Match(r) => RespondsAt(b, w, blocks, k, r) && Admitted(b, list, blocks[k])
       case Failed =>
         && k < |blocks| && !Denied(b, list, blocks[k])
         && (Admitted(b, list, blocks[k]) ==> b.fetch(blocks[k]).None?)
  }

  ghost predicate CompactOutcome(b: Backend, w: Watch, list: seq<Script>, blocks: seq<nat>, answer: Answer) {
    exists k :: CompactEndsAt(b, w, list, blocks, answer, k)
  }

  /** Each kind of scan has one answer only. */
  lemma OutcomeIsUnique(b: Backend, w: Watch, list: seq<Script>, blocks: seq<nat>, x: Answer, y: Answer)
    ensures FullOutcome(b, w, blocks, x) && FullOutcome(b, w, blocks, y) ==> x == y
    ensures CompactOutcome(b, w, list, blocks, x) && CompactOutcome(b, w, list, blocks, y) ==> x == y
  {
    if FullOutcome(b, w, blocks, x) && FullOutcome(b, w, blocks, y) {
      var k :| FullEndsAt(b, w, blocks, x, k);
      var k' :| FullEndsAt(b, w, blocks, y, k');
      assert k == k';
    }
    if CompactOutcome(b, w, list, blocks, x) && CompactOutcome(b, w, list, blocks, y) {
      var k :| CompactEndsAt(b, w, list, blocks, x, k);
      var k' :| CompactEndsAt(b, w, list, blocks, y, k');
      assert k == k';
    }
  }

  /** A scan with filters never depends on fetching a block that is denied by its filter. */
  lemma DeniedIsNotFetched(
    b: Backend, b': Backend, w: Watch, list: seq<Script>, blocks: seq<nat>, answer: Answer)
    requires b' == b.(fetch := b'.fetch) && CompactOutcome(b, w, list, blocks, answer)
    requires forall h :: h in blocks && !Denied(b, list, h) ==> b'.fetch(h) == b.fetch(h)
    ensures CompactOutcome(b', w, list, blocks, answer)
  {
    var k :| CompactEndsAt(b, w, list, blocks, answer, k);
    assert CompactEndsAt(b', w, list, blocks, answer, k);
  }

  lemma {:induction false} FullScanEnds(b: Backend, w: Watch, blocks: seq<nat>, i: nat) returns (k: nat)
    requires i <= |blocks| && forall j :: 0 <= j < i ==> FindsNothing(b, w, blocks[j])
    ensures FullEndsAt(b, w, blocks, FullScan(b, w, blocks, i), k)
    decreases |blocks| - i
  {
    if i < |blocks| && FindsNothing(b, w, blocks[i]) {
      k := FullScanEnds(b, w, blocks, i + 1);
    } else {
      k := i;
    }
  }

  lemma {:induction false} CompactScanEnds(b: Backend, w: Watch, list: seq<Script>, blocks: seq<nat>, i: nat)
    returns (k: nat)
    requires i <= |blocks|
    requires forall j :: 0 <= j < i ==>
               Denied(b, list, blocks[j]) || (Admitted(b, list, blocks[j]) && FindsNothing(b, w, blocks[j]))
    ensures CompactEndsAt(b, w, list, blocks, CompactScan(b, w, list, blocks, i), k)
    decreases |blocks| - i
  {
    if i < |blocks| &&
       (Denied(b, list, blocks[i]) || (Admitted(b, list, blocks[i]) && FindsNothing(b, w, blocks[i]))) {
      k := CompactScanEnds(b, w, list, blocks, i + 1);
    } else {
      k := i;
    }
  }

  method FilterAllBlocks(b: Backend, req: Request) returns (answer: Answer)
    ensures exists w ::
      WatchFor(b, req, w) && FullOutcome(b, w, req.blocks, answer) && answer == FullScan(b, w, req.blocks, 0)
  {
    var bf := NewBlockFilterer(b, req);
    ghost var w := bf.Looking();
    ghost var end := FullScanEnds(b, w, req.blocks, 0);
    var i := 0;
    while i < |req.blocks|
      invariant 0 <= i <= |req.blocks|
      invariant bf.State() == NothingFound && bf.Looking() == w && fresh(bf)
      invariant FullScan(b, w, req.blocks, 0) == FullScan(b, w, req.blocks, i)
    {
      var rawBlock := b.fetch(req.blocks[i]);
      if rawBlock.None? {
        return Failed;
      }
      var found := bf.FilterBlock(rawBlock.value);
      NoMatchNoChange(w, NothingFound, rawBlock.value.txs);
      if found {
        return Match(Response(i, req.blocks[i], bf.foundExternal, bf.foundInternal, bf.foundOutPoints, bf.relevantTxns));
      }
      i := i + 1;
    }
    answer := NoMatch;
  }

  method AppendScripts<K(==)>(b: Backend, m: map<K, Address>, list: seq<Script>) returns (r: seq<Script>)
    ensures |r| == |list| + |m|
    ensures forall s :: s in r <==> s in list || exists k :: k in m && b.payToAddr(m[k]) == s
  {
    r := list;
    var rest := m.Keys;
    while rest != {}
      invariant rest <= m.Keys && |r| == |list| + |m| - |rest|
      invariant forall s :: s in r <==> s in list || exists k :: k in m && k !in rest && b.payToAddr(m[k]) == s
      decreases rest
    {
      var k :| k in rest;
      r := r + [b.payToAddr(m[k])];
      rest := rest - {k};
    }
  }

  ghost predicate OnWatchList(b: Backend, req: Request, s: Script) {
    || (exists k :: k in req.external && b.payToAddr(req.external[k]) == s)
    || (exists k :: k in req.internal && b.payToAddr(req.internal[k]) == s)
    || (exists k :: k in req.outPoints && b.payToAddr(req.outPoints[k]) == s)
  }

  ghost predicate IsWatchList(b: Backend, req: Request, list: seq<Script>) {
    && |list| == |req.external| + |req.internal| + |req.outPoints|
    && forall s :: s in list <==> OnWatchList(b, req, s)
  }

  method BuildFilterBlocksWatchList(b: Backend, req: Request) returns (list: seq<Script>)
    ensures IsWatchList(b, req, list)
  {
    list := AppendScripts(b, req.external, []);
    list := AppendScripts(b, req.internal, list);
    list := AppendScripts(b, req.outPoints, list);
  }

  method FilterBlocksCompact(b: Backend, req: Request) returns (answer: Answer)
    ensures exists w, list ::
      && WatchFor(b, req, w) && IsWatchList(b, req, list) && CompactOutcome(b, w, list, req.blocks, answer)
      && answer == CompactScan(b, w, list, req.blocks, 0)
  {
    var bf := NewBlockFilterer(b, req);
    ghost var w := bf.Looking();
    var list := BuildFilterBlocksWatchList(b, req);
    ghost var end := CompactScanEnds(b, w, list, req.blocks, 0);
    for i := 0 to |req.blocks|
      invariant bf.State() == NothingFound && bf.Looking() == w && fresh(bf)
      invariant CompactScan(b, w, list, req.blocks, 0) == CompactScan(b, w, list, req.blocks, i)
    {
      var filter := b.filter(req.blocks[i]);
      if filter.NoAnswer? {
        return Failed;
      }
      if filter.EmptyFilter? {
        continue;
      }
      var matched := filter.matchAny(list);
      if matched.None? {
        return Failed;
      } else if !matched.value {
        continue;
      }
      var rawBlock := b.fetch(req.blocks[i]);
      if rawBlock.None? {
        return Failed;
      }
      var found := bf.FilterBlock(rawBlock.value);
      NoMatchNoChange(w, NothingFound, rawBlock.value.txs);
      if found {
        return Match(Response(i, req.blocks[i], bf.foundExternal, bf.foundInternal, bf.foundOutPoints, bf.relevantTxns));
      }
    }
    answer := NoMatch;
  }

  /** The scripts of the outputs that a block creates and of the outputs it spends. */
  predicate InBlock(block: Block, spent: OutPoint -> Script, s: Script) {
    exists tx :: tx in block.txs && (s in tx.outs || exists op :: op in tx.ins && spent(op) == s)
  }

  /** The filter of a block answers for this list, and does not deny a script that is in the
      block. */
  predicate NoFalseNegatives(filter: FilterAnswer, block: Block, spent: OutPoint -> Script, list: seq<Script>) {
    match filter
    case NoAnswer => false
    case EmptyFilter => forall s :: s in list ==> !InBlock(block, spent, s)
    case Filter(matchAny) =>
      matchAny(list).Some? && (matchAny(list).value || forall s :: s in list ==> !InBlock(block, spent, s))
  }

  /** A basic filter (BIP 158, "Contents") answers for every list, and denies no script of
      the block but those left out of it: OP_RETURN scripts, empty ones, and what the null
      outpoint of a coinbase stands for. */
  ghost predicate BasicFilter(filter: FilterAnswer, block: Block, spent: OutPoint -> Script, leftOut: Script -> bool) {
    match filter
    case NoAnswer => false
    case EmptyFilter => forall s :: InBlock(block, spent, s) ==> leftOut(s)
    case Filter(matchAny) =>
      forall list :: matchAny(list).Some? &&
        (matchAny(list).value || forall s :: s in list && InBlock(block, spent, s) ==> leftOut(s))
  }

  /** So it has no false negatives for a list of scripts that are not left out. */
  lemma BasicFilterIsSound(
    filter: FilterAnswer, block: Block, spent: OutPoint -> Script, leftOut: Script -> bool, list: seq<Script>)
    requires BasicFilter(filter, block, spent, leftOut) && forall s :: s in list ==> !leftOut(s)
    ensures NoFalseNegatives(filter, block, spent, list)
  {
    if filter.Filter? {
      assert filter.matchAny(list).Some?;
    }
  }

  /** Every watched address occurs in the block, and in the watched outpoints, only as the
      script built from it. */
  ghost predicate CanonicalScripts(b: Backend, w: Watch, block: Block, spent: OutPoint -> Script) {
    && (forall tx, i, a :: tx in block.txs && 0 <= i < |tx.outs| && a in Addrs(w, tx.outs[i]) && Watched(w, a) ==>
          tx.outs[i] == b.payToAddr(a))
    && (forall op :: op in w.outPoints ==> spent(op) == b.payToAddr(w.outPoints[op]))
  }

  /** A block with something relevant in it is never skipped by its filter. */
  lemma RelevantBlockIsInFilter(
    b: Backend, req: Request, w: Watch, list: seq<Script>, block: Block, spent: OutPoint -> Script)
    returns (s: Script)
    requires WatchFor(b, req, w) && IsWatchList(b, req, list) && CanonicalScripts(b, w, block, spent)
    requires BlockFound(w, NothingFound, block.txs).txs != []
    ensures s in list && InBlock(block, spent, s)
  {
    MatchExactly(w, block.txs);
    var tx :| tx in block.txs && Relevant(w, [], tx);
    if Pays(w, tx, |tx.outs|) {
      var i :| 0 <= i < |tx.outs| && PaysAt(w, tx, i);
      var a :| a in Addrs(w, tx.outs[i]) && Watched(w, a);
      s := tx.outs[i];
      assert s == b.payToAddr(a);
      assert a in req.external.Values || a in req.internal.Values;
      assert OnWatchList(b, req, s);
    } else {
      var op :| op in tx.ins && op in w.outPoints;
      s := spent(op);
      assert OnWatchList(b, req, s);
    }
  }

  /** The filters of all blocks that can be fetched are sound for the watch list, and what
      they are asked for occurs there only in its canonical form. */
  ghost predicate SoundFilters(b: Backend, w: Watch, list: seq<Script>, blocks: seq<nat>, spent: OutPoint -> Script) {
    forall h :: h in blocks && b.fetch(h).Some? ==>
      && NoFalseNegatives(b.filter(h), b.fetch(h).value, spent, list)
      && CanonicalScripts(b, w, b.fetch(h).value, spent)
  }

  /** Whenever the scan of every block gives an answer, the compact-filter scan gives the
      same one. Nothing is asked of blocks after the first match: they may be missing. */
  lemma {:induction false} CompactIsFull(
    b: Backend, req: Request, w: Watch, list: seq<Script>, spent: OutPoint -> Script, i: nat)
    requires i <= |req.blocks| && WatchFor(b, req, w) && IsWatchList(b, req, list)
    requires SoundFilters(b, w, list, req.blocks, spent)
    ensures !FullScan(b, w, req.blocks, i).Failed? ==>
              CompactScan(b, w, list, req.blocks, i) == FullScan(b, w, req.blocks, i)
    decreases |req.blocks| - i
  {
    if i < |req.blocks| && b.fetch(req.blocks[i]).Some? {
      CompactIsFull(b, req, w, list, spent, i + 1);
      var h := req.blocks[i];
      assert h in req.blocks;
      var block := b.fetch(h).value;
      if BlockFound(w, NothingFound, block.txs).txs != [] {
        var s := RelevantBlockIsInFilter(b, req, w, list, block, spent);
      }
    }
  }

  /** If every block can be fetched, both scans give the same answer. */
  lemma {:induction false} CompactIsFullWhenFetchable(
    b: Backend, req: Request, w: Watch, list: seq<Script>, spent: OutPoint -> Script)
    requires WatchFor(b, req, w) && IsWatchList(b, req, list)
    requires SoundFilters(b, w, list, req.blocks, spent) && forall h :: h in req.blocks ==> b.fetch(h).Some?
    ensures CompactScan(b, w, list, req.blocks, 0) == FullScan(b, w, req.blocks, 0)
  {
    CompactIsFull(b, req, w, list, spent, 0);
    var k := FullScanEnds(b, w, req.blocks, 0);
    assert k < |req.blocks| ==> req.blocks[k] in req.blocks;
  }

  /** The answer of the backend's own kind of scan. */
  ghost predicate AnswerOf(b: Backend, req: Request, w: Watch, answer: Answer) {
    if b.compact then exists list :: IsWatchList(b, req, list) && answer == CompactScan(b, w, list, req.blocks, 0)
    else answer == FullScan(b, w, req.blocks, 0)
  }

  /** The FilterBlocks of the backend. */
  method FilterBlocks(b: Backend, req: Request) returns (answer: Answer)
    ensures exists w :: WatchFor(b, req, w) && AnswerOf(b, req, w, answer)
  {
    if b.compact {
      answer := FilterBlocksCompact(b, req);
    } else {
      answer := FilterAllBlocks(b, req);
    }
  }

  /** All blocks can be fetched, and their filters are sound for the request. */
  ghost predicate Trustworthy(b: Backend, req: Request, w: Watch, spent: OutPoint -> Script) {
    && (forall h :: h in req.blocks ==> b.fetch(h).Some?)
    && forall list :: IsWatchList(b, req, list) ==> SoundFilters(b, w, list, req.blocks, spent)
  }

  /** Whichever way the backend scans, its answer is that of the full scan. */
  lemma {:induction false} AnswerIsFull(b: Backend, req: Request, w: Watch, answer: Answer, spent: OutPoint -> Script)
    requires WatchFor(b, req, w) && AnswerOf(b, req, w, answer)
    requires b.compact ==> Trustworthy(b, req, w, spent)
    ensures answer == FullScan(b, w, req.blocks, 0)
  {
    if b.compact {
      var list :| IsWatchList(b, req, list) && answer == CompactScan(b, w, list, req.blocks, 0);
      CompactIsFullWhenFetchable(b, req, w, list, spent);
    }
  }
}
