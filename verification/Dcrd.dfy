/** The connection to the node, and the fetching of previous outputs through an optional cache. */
module Dcrd {
  import opened Prelude
  import opened Wire
  import opened BlockOps
  import opened Coins
  import opened Chain

  /** Any request may fail; failures counts those that did. */
  class Connection {
    const node: Node
    ghost var failures: nat

    constructor (node: Node)
      ensures this.node == node && failures == 0
    {
      this.node := node;
      failures := 0;
    }

    method GetBlock(h: Hash) returns (r: Option<Block>)
      modifies this
      ensures failures >= old(failures)
      ensures r.Some? ==> h in node.blocks && r.value == node.blocks[h] && failures == old(failures)
      ensures r.None? ==> failures > old(failures) || h !in node.blocks
    {
      if * {
        failures := failures + 1;
        return None;
      }
      r := if h in node.blocks then Some(node.blocks[h]) else None;
    }

    method GetRawTx(h: Hash) returns (r: Option<Tx>)
      modifies this
      ensures failures >= old(failures)
      ensures r.Some? ==> h in node.txs && r.value == node.txs[h] && failures == old(failures)
      ensures r.None? ==> failures > old(failures) || h !in node.txs
    {
      if * {
        failures := failures + 1;
        return None;
      }
      r := if h in node.txs then Some(node.txs[h]) else None;
    }
  }

  /** Every cached output is the one the node would return. */
  ghost predicate Agrees(txs: map<Hash, Tx>, entries: map<OutPoint, PrevOutput>) {
    forall o | o in entries :: Lookup(txs, o) == Some(entries[o])
  }

  /** The map used to speed up the sequential processing of many blocks. */
  class UtxoCache {
    var entries: map<OutPoint, PrevOutput>

    constructor ()
      ensures entries == map[]
    {
      entries := map[];
    }

    /** Mirrors the effect of an op on the cache; only real outputs ever get in. */
    method Update(op: Op, ghost txs: map<Hash, Tx>)
      requires RealOp(txs, op) && Agrees(txs, entries)
      modifies this
      ensures Agrees(txs, entries)
      ensures !EffectOf(op).adds ==> entries == old(entries) - {OutPointOf(op)}
      ensures EffectOf(op).adds ==>
                && OutPointOf(op) in entries
                && entries == old(entries)[OutPointOf(op) := entries[OutPointOf(op)]]
    {
      match op.side
      case Debit(input, prevOutput) =>
        if op.IsReversed() {
          entries := entries[input.prevOut := prevOutput.value];
        } else {
          entries := entries - {input.prevOut};
        }
      case Credit(output) =>
        var o := OutPoint(op.ctx.tx.hash, op.ioIndex % TWO_32, op.ctx.tree);
        if op.IsReversed() {
          entries := entries - {o};
        } else {
          assert op.ctx.tx in [op.ctx.tx];
          entries := entries[o := PrevOutput(output.pkScript, output.version, op.amount)];
        }
    }
  }

  lemma FetchFails(index: map<Hash, Tx>, targets: seq<OutPoint>, j: nat)
    requires j < |targets| && Lookup(index, targets[j]).None?
    ensures Fetch(index, targets).None?
  {
    assert targets[j] in targets;
  }

  lemma FetchedAll(index: map<Hash, Tx>, targets: seq<OutPoint>, res: map<OutPoint, PrevOutput>)
    requires Agrees(index, res) && forall j | 0 <= j < |targets| :: targets[j] in res
    requires forall o | o in res :: o in targets
    ensures Fetch(index, targets) == Some(res)
  {
    assert res == map o | o in targets :: Lookup(index, o).value;
  }

  /** Fetches previous outputs from the cache where possible and from the node otherwise. */
  method PrevOutsFetcher(rpc: Connection, cache: UtxoCache?, targets: seq<OutPoint>)
    returns (r: Option<map<OutPoint, PrevOutput>>)
    requires cache != null ==> Agrees(rpc.node.txs, cache.entries)
    modifies rpc
    ensures rpc.failures >= old(rpc.failures)
    ensures r.Some? ==> rpc.failures == old(rpc.failures)
    ensures r.Some? ==> r == Fetch(rpc.node.txs, targets)
    ensures r.None? ==> rpc.failures > old(rpc.failures) || Fetch(rpc.node.txs, targets).None?
  {
    hide Fetch;
    ghost var index := rpc.node.txs;
    var res: map<OutPoint, PrevOutput>, needed: set<Hash> := map[], {};
    for i := 0 to |targets|
      invariant Agrees(index, res)
      invariant forall o | o in res :: o in targets
      invariant forall j | 0 <= j < i :: targets[j] in res || targets[j].hash in needed
      invariant forall h | h in needed :: exists j | 0 <= j < |targets| :: targets[j].hash == h
    {
      var o := targets[i];
      if cache != null && o in cache.entries {
        res := res[o := cache.entries[o]];
      } else {
        needed := needed + {o.hash};
      }
    }
    var txs := FetchTxs(rpc, needed);
    if txs.None? {
      if rpc.failures == old(rpc.failures) {
        var h :| h in needed && h !in index;
        var j: nat :| j < |targets| && targets[j].hash == h;
        FetchFails(index, targets, j);
      }
      return None;
    }
    for i := 0 to |targets|
      invariant Agrees(index, res)
      invariant forall o | o in res :: o in targets
      invariant forall j | 0 <= j < |targets| :: targets[j] in res || targets[j].hash in needed
      invariant forall j | 0 <= j < i :: targets[j] in res
    {
      var o := targets[i];
      if o.hash !in txs.value {
        continue;
      }
      var tx := txs.value[o.hash];
      if |tx.outs| <= o.index {
        FetchFails(index, targets, i);
        return None;
      }
      var out := tx.outs[o.index];
      res := res[o := PrevOutput(out.pkScript, out.version, out.value)];
    }
    FetchedAll(index, targets, res);
    r := Some(res);
  }

  /** The concurrent requests for whole transactions: all of them succeed, or the fetch fails. */
  method FetchTxs(rpc: Connection, hashes: set<Hash>) returns (r: Option<map<Hash, Tx>>)
    modifies rpc
    ensures rpc.failures >= old(rpc.failures)
    ensures r.Some? ==> rpc.failures == old(rpc.failures)
    ensures r.Some? ==> r.value.Keys == hashes <= rpc.node.txs.Keys
    ensures r.Some? ==> forall h | h in hashes :: r.value[h] == rpc.node.txs[h]
    ensures r.None? ==> rpc.failures > old(rpc.failures) || exists h :: h in hashes && h !in rpc.node.txs
  {
    var pending, txs: map<Hash, Tx> := hashes, map[];
    while pending != {}
      invariant pending <= hashes && txs.Keys == hashes - pending
      invariant txs.Keys <= rpc.node.txs.Keys
      invariant forall h | h in txs :: txs[h] == rpc.node.txs[h]
      invariant rpc.failures == old(rpc.failures)
      decreases |pending|
    {
      var h :| h in pending;
      pending := pending - {h};
      var tx := rpc.GetRawTx(h);
      if tx.None? {
        return None;
      }
      txs := txs[h := tx.value];
    }
    r := Some(txs);
  }
}
