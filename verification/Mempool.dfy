/** The local mempool cache (chain/mempool.go): the known transactions with their marks, a
    two-way index between transactions and the outpoints they spend, and the reconciliation
    of both with the node's own mempool. */
module Mempool {
  import opened ChainData
  import opened Optional

  datatype MsgTx = MsgTx(id: TxId, ins: seq<OutPoint>, coinbase: bool)

  /** The two-way index between transactions and the outpoints they spend. */
  class CachedInputs {
    var inputs: map<OutPoint, TxId>
    var txids: map<TxId, set<OutPoint>>

    constructor ()
      ensures Inverse() && inputs == map[] && txids == map[]
    {
      inputs, txids := map[], map[];
    }

    /** Each direction of the index is the inverse of the other. */
    ghost predicate Inverse() reads this {
      forall op, h :: (op in inputs && inputs[op] == h) <==> (h in txids && op in txids[h])
    }

    method AddInput(op: OutPoint, txid: TxId)
      requires Inverse()
      modifies this
      ensures Inverse()
      ensures inputs == old(inputs)[op := txid] && txids.Keys == old(txids.Keys) + {txid}
    {
      if txid !in txids {
        txids := txids[txid := {}];
      }
      txids := txids[txid := txids[txid] + {op}];
      if op in inputs && inputs[op] != txid {
        txids := txids[inputs[op] := txids[inputs[op]] - {op}];
      }
      inputs := inputs[op := txid];
    }

    method RemoveInputsFromTx(txid: TxId)
      requires Inverse()
      modifies this
      ensures Inverse()
      ensures inputs == Without(old(inputs), {txid}) && txids.Keys == old(txids.Keys) - {txid}
    {
      var rest := if txid in txids then txids[txid] else {};
      while rest != {}
        invariant rest <= if txid in txids then txids[txid] else {}
        invariant txids == old(txids)
        invariant inputs == map op | op in old(inputs) && (old(inputs)[op] != txid || op in rest) :: old(inputs)[op]
        decreases rest
      {
        var op :| op in rest;
        inputs := inputs - {op};
        rest := rest - {op};
      }
      txids := txids - {txid};
    }
  }

  /** The spends of all but the given transactions. */
  function Without(spends: map<OutPoint, TxId>, gone: set<TxId>): map<OutPoint, TxId> {
    map op | op in spends && spends[op] !in gone :: spends[op]
  }

  /** The known transactions with their marks, and which of them spends an outpoint.
      `tracks` is false when the node can be asked for spends itself. */
  datatype Pool = Pool(txs: map<TxId, bool>, spends: map<OutPoint, TxId>, tracks: bool)

  /** One step taken under the mempool's lock. */
  datatype Op = Add(tx: MsgTx) | Clean(ids: seq<TxId>) | UnmarkAll | Mark(h: TxId) | DeleteUnmarked

  function SpendAll(spends: map<OutPoint, TxId>, ins: seq<OutPoint>, txid: TxId): map<OutPoint, TxId> {
    map op | op in spends.Keys + (set x | x in ins) :: if op in ins then txid else spends[op]
  }

  function Dropped(s: Pool, gone: set<TxId>): Pool {
    s.(txs := s.txs - gone, spends := Without(s.spends, gone))
  }

  function Step(s: Pool, op: Op): Pool {
    match op
    case Add(tx) =>
      if tx.coinbase then s
      else s.(txs := s.txs[tx.id := true], spends := if s.tracks then SpendAll(s.spends, tx.ins, tx.id) else s.spends)
    case Clean(ids) => Dropped(s, set h | h in ids)
    case UnmarkAll => s.(txs := map h | h in s.txs :: false)
    case Mark(h) => if h in s.txs then s.(txs := s.txs[h := true]) else s
    case DeleteUnmarked => Dropped(s, set h | h in s.txs && !s.txs[h])
  }

  function Run(s: Pool, ops: seq<Op>): Pool {
    if ops == [] then s else Step(Run(s, ops[..|ops| - 1]), ops[|ops| - 1])
  }

  class Mempool {
    var txs: map<TxId, bool>
    const inputs: CachedInputs?

    constructor (hasPrevoutRPC: bool)
      ensures Valid() && State() == Pool(map[], map[], !hasPrevoutRPC)
      ensures fresh(Repr())
    {
      txs := map[];
      if hasPrevoutRPC {
        inputs := null;
      } else {
        inputs := new CachedInputs();
      }
    }

    function Repr(): set<object> {
      if inputs == null then {this} else {this, inputs}
    }

    ghost predicate Valid() reads Repr() {
      inputs != null ==> inputs.Inverse() && inputs.txids.Keys <= txs.Keys
    }

    ghost function State(): Pool reads Repr() {
      Pool(txs, if inputs == null then map[] else inputs.inputs, inputs != null)
    }

    method RemoveInputs(txid: TxId)
      requires inputs != null ==> inputs.Inverse()
      modifies if inputs == null then {} else {inputs}
      ensures inputs != null ==> inputs.Inverse() && inputs.txids.Keys == old(inputs.txids.Keys) - {txid}
      ensures State().spends == Without(old(State()).spends, {txid})
    {
      if inputs == null {
        return;
      }
      inputs.RemoveInputsFromTx(txid);
    }

    method UpdateInputs(tx: MsgTx)
      requires inputs != null ==> inputs.Inverse()
      modifies if inputs == null then {} else {inputs}
      ensures inputs != null ==>
        && inputs.Inverse() && inputs.txids.Keys <= old(inputs.txids.Keys) + {tx.id}
        && inputs.inputs == SpendAll(old(inputs.inputs), tx.ins, tx.id)
    {
      if inputs == null {
        return;
      }
      for i := 0 to |tx.ins|
        invariant inputs.Inverse() && inputs.txids.Keys <= old(inputs.txids.Keys) + {tx.id}
        invariant inputs.inputs == SpendAll(old(inputs.inputs), tx.ins[..i], tx.id)
      {
        inputs.AddInput(tx.ins[i], tx.id);
        assert tx.ins[..i + 1] == tx.ins[..i] + [tx.ins[i]];
      }
      assert tx.ins[..|tx.ins|] == tx.ins;
    }

    method AddTx(tx: MsgTx)
      requires Valid()
      modifies Repr()
      ensures Valid() && State() == Step(old(State()), Add(tx))
    {
      if tx.coinbase {
        return;
      }
      txs := txs[tx.id := true];
      UpdateInputs(tx);
    }

    method CleanTxs(ids: seq<TxId>)
      requires Valid()
      modifies Repr()
      ensures Valid() && State() == Step(old(State()), Clean(ids))
    {
      for i := 0 to |ids|
        invariant Valid() && State() == Step(old(State()), Clean(ids[..i]))
      {
        txs := txs - {ids[i]};
        RemoveInputs(ids[i]);
        assert ids[..i + 1] == ids[..i] + [ids[i]];
      }
      assert ids[..|ids|] == ids;
    }

    method UnmarkAllTxs()
      requires Valid()
      modifies this
      ensures Valid() && State() == Step(old(State()), UnmarkAll)
    {
      var rest := txs.Keys;
      while rest != {}
        invariant rest <= txs.Keys == old(txs.Keys)
        invariant forall h :: h in txs ==> txs[h] == (h in rest && old(txs)[h])
        decreases rest
      {
        var h :| h in rest;
        txs := txs[h := false];
        rest := rest - {h};
      }
    }

    method MarkTx(h: TxId)
      requires Valid()
      modifies this
      ensures Valid() && State() == Step(old(State()), Mark(h))
    {
      if h !in txs {
        return;
      }
      txs := txs[h := true];
    }

    method DeleteUnmarkedTxs()
      requires Valid()
      modifies Repr()
      ensures Valid() && State() == Step(old(State()), DeleteUnmarked)
    {
      var rest := txs.Keys;
      ghost var gone := {};
      while rest != {}
        invariant gone !! rest && gone == set h | h in old(txs) && !old(txs)[h] && h !in rest
        invariant rest <= old(txs).Keys
        invariant Valid() && State() == Dropped(old(State()), gone)
        decreases rest
      {
        var h :| h in rest;
        rest := rest - {h};
        if !txs[h] {
          txs := txs - {h};
          RemoveInputs(h);
          gone := gone + {h};
        }
      }
    }
  }
}
