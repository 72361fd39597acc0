/** The server that keeps its database in step with the node's main chain, across reorganisations. */
module Sync {
  import opened Prelude
  import opened Wire
  import opened BlockOps
  import opened Coins
  import opened BackendDb
  import opened Chain
  import opened Forks
  import opened Dcrd

  datatype SyncError = ErrRpc | ErrOps(ops: OpError) | ErrDb(db: DbError) | ErrDoesNotExtendTip

  /**
   * A read-write transaction: a working copy that only becomes the database's state when it is committed, with all
   * moves of the run that led to it.
   */
  class WriteTx {
    var state: Db
    ghost var moves: seq<Move>

    constructor (state: Db, ghost moves: seq<Move>)
      ensures this.state == state && this.moves == moves
    {
      this.state, this.moves := state, moves;
    }
  }

  /** The callback that handles the ops of one block, either connecting or rolling back that block. */
  class Applier {
    const connecting: bool
    const height: int
    const tx: WriteTx
    const cache: UtxoCache?
    var newBalances: map<Account, int>
    ghost const base: Db
    ghost const index: map<Hash, Tx>
    ghost var ops: seq<Op>

    constructor (connecting: bool, height: int, tx: WriteTx, cache: UtxoCache?, ghost index: map<Hash, Tx>)
      requires cache != null ==> Agrees(index, cache.entries)
      ensures Valid() && ops == []
      ensures this.connecting == connecting && this.height == height && this.tx == tx && this.cache == cache
      ensures base == tx.state && this.index == index
    {
      this.connecting, this.height, this.tx, this.cache := connecting, height, tx, cache;
      newBalances := map[];
      base, this.index, ops := tx.state, index, [];
    }

    /** What the callback has done so far is a function of the ops it was given. */
    ghost predicate Valid()
      reads this, tx, cache
    {
      && tx.state == base.(utxos := ApplyAll(base.utxos, if connecting then Effects(ops) else Undos(Effects(ops))))
      && (connecting ==> newBalances == Changed(base.balances, height, ops))
      && (cache != null ==> Agrees(index, cache.entries))
    }

    method Apply(op: Op)
      requires Valid() && RealOp(index, op)
      modifies this, tx`state, cache
      ensures Valid() && ops == old(ops) + [op]
    {
      if connecting {
        Connect(op);
      } else {
        Rollback(op);
      }
    }

    /** Adds an op to the balance of its account, starting from the last stored one. */
    method Accumulate(op: Op)
      requires connecting && newBalances == Changed(tx.state.balances, height, ops)
      modifies `newBalances
      ensures newBalances == Changed(tx.state.balances, height, ops + [op])
    {
      assert (ops + [op])[..|ops|] == ops;
      if op.account !in newBalances {
        var lastBal := Balance(tx.state.balances, op.account, height - 1);
        newBalances := newBalances[op.account := lastBal];
      }
      newBalances := newBalances[op.account := newBalances[op.account] + op.amount];
    }

    /** Moves the coin of a connected op. */
    method ConnectCoin(op: Op)
      modifies tx`state
      ensures tx.state == old(tx.state).(utxos := Coins.Apply(old(tx.state).utxos, EffectOf(op)))
    {
      match op.side {
        case Debit(input, _) =>
          if op.IsReversed() {
            tx.state := AddUtxo(tx.state, op.account, input.prevOut, op.amount);
          } else {
            tx.state := DelUtxo(tx.state, op.account, input.prevOut);
          }
        case Credit(_) =>
          var outp := OutPoint(op.ctx.tx.hash, op.ioIndex % TWO_32, op.ctx.tree);
          if op.IsReversed() {
            tx.state := DelUtxo(tx.state, op.account, outp);
          } else {
            tx.state := AddUtxo(tx.state, op.account, outp, op.amount);
          }
      }
    }

    method Connect(op: Op)
      requires Valid() && RealOp(index, op) && connecting
      modifies this, tx`state, cache
      ensures Valid() && ops == old(ops) + [op]
    {
      hide Changed, Effects, EffectOf, ApplyAll, Coins.Apply, RealOp, Agrees, Undos;
      Accumulate(op);
      if cache != null {
        cache.Update(op, index);
      }
      ConnectCoin(op);
      EffectsSnoc(ops, op);
      ApplySnoc(base.utxos, Effects(ops), EffectOf(op));
      ops := ops + [op];
    }

    /** Moves the coin of a rolled back op, with the amounts' signs inverted. */
    method RollbackCoin(op: Op)
      modifies tx`state
      ensures tx.state == old(tx.state).(utxos := Coins.Apply(old(tx.state).utxos, Undo(EffectOf(op))))
    {
      match op.side {
        case Debit(input, _) =>
          if op.IsReversed() {
            tx.state := DelUtxo(tx.state, op.account, input.prevOut);
          } else {
            tx.state := AddUtxo(tx.state, op.account, input.prevOut, -op.amount);
          }
        case Credit(_) =>
          var outp := OutPoint(op.ctx.tx.hash, op.ioIndex % TWO_32, op.ctx.tree);
          if op.IsReversed() {
            tx.state := AddUtxo(tx.state, op.account, outp, -op.amount);
          } else {
            tx.state := DelUtxo(tx.state, op.account, outp);
          }
      }
    }

    method Rollback(op: Op)
      requires Valid() && !connecting
      modifies this, tx`state
      ensures Valid() && ops == old(ops) + [op]
    {
      RollbackCoin(op);
      EffectsSnoc(ops, op);
      UndosSnoc(Effects(ops), EffectOf(op));
      ApplySnoc(base.utxos, Undos(Effects(ops)), Undo(EffectOf(op)));
      ops := ops + [op];
    }
  }

  /** Once a list of transactions fails, its continuations fail. */
  lemma {:induction false} TxsEmissionPrefix(accountOf: AccountOf, txs: map<Hash, Tx>, tree: Int8, status: OpStatus,
                                             list: seq<Tx>, i: nat)
    requires i <= |list|
    ensures var front, all := TxsEmission(accountOf, txs, tree, status, list[..i]),
                              TxsEmission(accountOf, txs, tree, status, list);
            (front.err.Some? ==> all.err.Some?) && (i == |list| ==> all == front)
    decreases |list| - i
  {
    if i == |list| {
      assert list[..i] == list;
    } else {
      assert list[..i + 1][..i] == list[..i];
      TxsEmissionPrefix(accountOf, txs, tree, status, list, i + 1);
    }
  }

  lemma RealOpAt(index: map<Hash, Tx>, ops: seq<Op>, i: nat)
    requires RealOps(index, ops) && i < |ops|
    ensures RealOp(index, ops[i])
  {
  }

  method ApplyOps(applier: Applier, ops: seq<Op>)
    requires applier.Valid() && RealOps(applier.index, ops)
    modifies applier, applier.tx`state, applier.cache
    ensures applier.Valid() && applier.ops == old(applier.ops) + ops
  {
    hide *;
    for i := 0 to |ops|
      invariant applier.Valid() && applier.ops == old(applier.ops) + ops[..i]
    {
      RealOpAt(applier.index, ops, i);
      applier.Apply(ops[i]);
    }
  }

  /** The state of the loop over a list of transactions: ops applied since start, or the reason to stop. */
  ghost predicate Progress(e: Emission, start: seq<Op>, ops: seq<Op>, err: Option<OpError>, failed: bool) {
    if err.None? then e.err.None? && ops == start + e.ops else failed || e.err.Some?
  }

  /** Fetches the previous outputs of one transaction, translates it and applies its ops. */
  method ApplyTx(rpc: Connection, applier: Applier, c: TxContext) returns (err: Option<OpError>)
    requires applier.Valid() && applier.index == rpc.node.txs
    requires Known(rpc.node.txs, [c.tx]) && (c.status.Reversed? ==> c.tree == TREE_REGULAR)
    modifies rpc, applier, applier.tx`state, applier.cache
    ensures applier.Valid()
    ensures rpc.failures >= old(rpc.failures)
    ensures err.None? ==> rpc.failures == old(rpc.failures)
    ensures Progress(TxEmission(rpc.node.accountOf, rpc.node.txs, c), old(applier.ops), applier.ops, err,
        rpc.failures > old(rpc.failures))
  {
    var prevOuts := PrevOutsFetcher(rpc, applier.cache, c.Targets());
    if prevOuts.None? {
      return Some(PrevOutNotFound);
    }
    var e := IterateTx(rpc.node.accountOf, c, prevOuts.value);
    TxOpsReal(rpc.node.accountOf, rpc.node.txs, c);
    ApplyOps(applier, e.ops);
    err := e.err;
  }

  lemma TxsEmissionNext(accountOf: AccountOf, txs: map<Hash, Tx>, tree: Int8, status: OpStatus, list: seq<Tx>, i: nat)
    requires i < |list|
    ensures TxsEmission(accountOf, txs, tree, status, list[..i + 1]) ==
            Then(TxsEmission(accountOf, txs, tree, status, list[..i]),
                 TxEmission(accountOf, txs, TxContext(tree, status, list[i], i)))
  {
    assert list[..i + 1][..i] == list[..i];
  }

  lemma ProgressThen(e: Emission, next: Emission, start: seq<Op>, mid: seq<Op>, ops: seq<Op>, err: Option<OpError>,
                     failed: bool)
    requires Progress(e, start, mid, None, false)
    requires Progress(next, mid, ops, err, failed)
    ensures Progress(Then(e, next), start, ops, err, failed)
  {
    if err.None? {
      assert start + (e.ops + next.ops) == start + e.ops + next.ops;
    }
  }

  /** Applies transaction i of a list whose first i transactions were applied. */
  method ApplyNextTx(rpc: Connection, applier: Applier, tree: Int8, status: OpStatus, list: seq<Tx>, i: nat,
                     ghost start: seq<Op>)
    returns (err: Option<OpError>)
    requires applier.Valid() && applier.index == rpc.node.txs && i < |list|
    requires Known(rpc.node.txs, list) && (status.Reversed? ==> tree == TREE_REGULAR)
    requires Progress(TxsEmission(rpc.node.accountOf, rpc.node.txs, tree, status, list[..i]),
                      start, applier.ops, None, false)
    modifies rpc, applier, applier.tx`state, applier.cache
    ensures applier.Valid()
    ensures rpc.failures >= old(rpc.failures)
    ensures err.None? ==> rpc.failures == old(rpc.failures)
    ensures Progress(TxsEmission(rpc.node.accountOf, rpc.node.txs, tree, status, list[..i + 1]),
                     start, applier.ops, err, rpc.failures > old(rpc.failures))
  {
    hide TxsEmission, TxEmission;
    ghost var mid := applier.ops;
    ghost var done := TxsEmission(rpc.node.accountOf, rpc.node.txs, tree, status, list[..i]);
    ghost var next := TxEmission(rpc.node.accountOf, rpc.node.txs, TxContext(tree, status, list[i], i));
    TxsEmissionNext(rpc.node.accountOf, rpc.node.txs, tree, status, list, i);
    assert list[i] in list;
    err := ApplyTx(rpc, applier, TxContext(tree, status, list[i], i));
    ProgressThen(done, next, start, mid, applier.ops, err, rpc.failures > old(rpc.failures));
  }

  /** Applies a list of transactions one at a time. */
  method ApplyTxs(rpc: Connection, applier: Applier, tree: Int8, status: OpStatus, list: seq<Tx>)
    returns (err: Option<OpError>)
    requires applier.Valid() && applier.index == rpc.node.txs
    requires Known(rpc.node.txs, list) && (status.Reversed? ==> tree == TREE_REGULAR)
    modifies rpc, applier, applier.tx`state, applier.cache
    ensures applier.Valid()
    ensures rpc.failures >= old(rpc.failures)
    ensures err.None? ==> rpc.failures == old(rpc.failures)
    ensures Progress(TxsEmission(rpc.node.accountOf, rpc.node.txs, tree, status, list),
                     old(applier.ops), applier.ops, err, rpc.failures > old(rpc.failures))
  {
    hide *;
    err := None;
    var i := 0;
    ProgressStart(rpc.node, tree, status, list, applier.ops, rpc.failures > old(rpc.failures));
    while i < |list| && err.None?
      invariant 0 <= i <= |list|
      invariant applier.Valid()
      invariant rpc.failures >= old(rpc.failures)
      invariant err.None? ==> rpc.failures == old(rpc.failures)
      invariant Progress(TxsEmission(rpc.node.accountOf, rpc.node.txs, tree, status, list[..i]),
                         old(applier.ops), applier.ops, err, rpc.failures > old(rpc.failures))
    {
      ghost var before, e := rpc.failures, TxsEmission(rpc.node.accountOf, rpc.node.txs, tree, status, list[..i]);
      ProgressAnyway(e, old(applier.ops), applier.ops, None, rpc.failures > old(rpc.failures), false);
      err := ApplyNextTx(rpc, applier, tree, status, list, i, old(applier.ops));
      i := i + 1;
      e := TxsEmission(rpc.node.accountOf, rpc.node.txs, tree, status, list[..i]);
      ProgressAnyway(e, old(applier.ops), applier.ops, err, rpc.failures > before, rpc.failures > old(rpc.failures));
    }
    ProgressEnd(rpc.node, tree, status, list, i, old(applier.ops), applier.ops, err, rpc.failures > old(rpc.failures));
  }

  lemma ProgressAnyway(e: Emission, start: seq<Op>, ops: seq<Op>, err: Option<OpError>, before: bool, failed: bool)
    requires Progress(e, start, ops, err, before) && (err.Some? && before ==> failed)
    ensures Progress(e, start, ops, err, failed)
  {
  }

  lemma ProgressStart(n: Node, tree: Int8, status: OpStatus, list: seq<Tx>, ops: seq<Op>, failed: bool)
    ensures Progress(TxsEmission(n.accountOf, n.txs, tree, status, list[..0]), ops, ops, None, failed)
  {
    assert ops + [] == ops;
  }

  lemma ProgressEnd(n: Node, tree: Int8, status: OpStatus, list: seq<Tx>, i: nat, start: seq<Op>, ops: seq<Op>,
                    err: Option<OpError>, failed: bool)
    requires i <= |list| && (err.None? ==> i == |list|)
    requires Progress(TxsEmission(n.accountOf, n.txs, tree, status, list[..i]), start, ops, err, failed)
    ensures Progress(TxsEmission(n.accountOf, n.txs, tree, status, list), start, ops, err, failed)
  {
    TxsEmissionPrefix(n.accountOf, n.txs, tree, status, list, i);
  }

  /** Calls the applier on every op of a block. */
  method IterateBlockOps(rpc: Connection, b: Block, prev: Option<Block>, applier: Applier)
    returns (err: Option<OpError>)
    requires applier.Valid() && applier.index == rpc.node.txs && applier.ops == []
    requires Known(rpc.node.txs, b.txs) && Known(rpc.node.txs, b.stxs)
    requires prev.Some? ==> Known(rpc.node.txs, prev.value.txs)
    modifies rpc, applier, applier.tx`state, applier.cache
    ensures applier.Valid()
    ensures rpc.failures >= old(rpc.failures)
    ensures err.None? ==> rpc.failures == old(rpc.failures)
    ensures err.None? ==> BlockEmission(rpc.node.accountOf, rpc.node.txs, b, prev) == Emission(applier.ops, None)
    ensures err.Some? ==>
              rpc.failures > old(rpc.failures) || BlockEmission(rpc.node.accountOf, rpc.node.txs, b, prev).err.Some?
  {
    var approves := ApprovesParent(b.voteBits) || b.height == 0;
    if !approves && prev.None? {
      return Some(NeedsPreviousBlock);
    }
    if !approves {
      err := ApplyTxs(rpc, applier, TREE_REGULAR, Reversed, prev.value.txs);
      if err.Some? {
        return;
      }
    }
    ghost var undone := applier.ops;
    err := ApplyTxs(rpc, applier, TREE_REGULAR, Success, b.txs);
    if err.Some? {
      return;
    }
    ghost var regular := applier.ops;
    err := ApplyTxs(rpc, applier, TREE_STAKE, Success, b.stxs);
    if err.None? {
      BlockEmissionParts(rpc.node.accountOf, rpc.node.txs, b, prev, undone, regular, applier.ops);
    }
  }

  lemma BlockEmissionParts(accountOf: AccountOf, txs: map<Hash, Tx>, b: Block, prev: Option<Block>,
                           undone: seq<Op>, regular: seq<Op>, all: seq<Op>)
    requires var e := TxsEmission(accountOf, txs, TREE_REGULAR, Success, b.txs);
             e.err.None? && regular == undone + e.ops
    requires var e := TxsEmission(accountOf, txs, TREE_STAKE, Success, b.stxs);
             e.err.None? && all == regular + e.ops
    requires if ApprovesParent(b.voteBits) || b.height == 0 then undone == [] else
               prev.Some? &&
               var e := TxsEmission(accountOf, txs, TREE_REGULAR, Reversed, prev.value.txs);
               e.err.None? && undone == [] + e.ops
    ensures BlockEmission(accountOf, txs, b, prev) == Emission(all, None)
  {
    var e0 := if ApprovesParent(b.voteBits) || b.height == 0 then NOTHING
              else TxsEmission(accountOf, txs, TREE_REGULAR, Reversed, prev.value.txs);
    ThenParts(e0, TxsEmission(accountOf, txs, TREE_REGULAR, Success, b.txs),
              TxsEmission(accountOf, txs, TREE_STAKE, Success, b.stxs), undone, regular, all);
  }

  lemma ThenParts(e0: Emission, e1: Emission, e2: Emission, undone: seq<Op>, regular: seq<Op>, all: seq<Op>)
    requires e0.err.None? && e1.err.None? && e2.err.None?
    requires undone == [] + e0.ops && regular == undone + e1.ops && all == regular + e2.ops
    ensures Then(Then(e0, e1), e2) == Emission(all, None)
  {
    assert undone == e0.ops;
  }

  /* ----- Rolling back ----- */

  lemma TranslationIgnoresParent(n: Node, h: Hash)
    requires InNode(n, h) && Height(n, h) > 0 && Translation(n, h).err.None?
    ensures var b := n.blocks[h];
            && (ApprovesParent(b.voteBits) ==> BlockEmission(n.accountOf, n.txs, b, None) == Translation(n, h))
            && (!ApprovesParent(b.voteBits) ==>
                  && Height(n, h) > 1
                  && BlockEmission(n.accountOf, n.txs, b, Some(n.blocks[Parent(n, h)])) == Translation(n, h))
  {
  }

  /** The database accepts rolling back the tip of a chain exactly when the chain has more than one block. */
  lemma RollbackTipOnChain(n: Node, db: Db, t: Hash, moves: seq<Move>, utxos: Utxos)
    requires OnChain(n, db, t, moves) && Height(n, t) > 0
    ensures var r := RollbackTip(db.(utxos := utxos), db.tipHash, db.tipHeight);
            && (r.Ok? <==> Height(n, t) > 1)
            && (r.Ok? ==> r.value == Disconnected(n, db, t).(utxos := utxos))
            && (r.Err? ==> r.error == ErrBlockHeightNotFound)
  {
    ProcessedToIs(n, t);
    if Height(n, t) > 1 {
      assert db.processed[db.tipHeight - 1] == Ancestor(n, t, Height(n, t) - 1) == Parent(n, t);
    }
  }

  /** Undoes the coins of the tip block, replaying its ops in forward order. */
  method UndoCoins(rpc: Connection, tx: WriteTx, tipHash: Hash, tipHeight: int)
    returns (err: Option<SyncError>)
    requires InNode(rpc.node, tipHash) && Height(rpc.node, tipHash) > 0
    requires Translation(rpc.node, tipHash).err.None?
    modifies rpc, tx`state
    ensures rpc.failures >= old(rpc.failures)
    ensures err.None? ==> rpc.failures == old(rpc.failures)
    ensures err.None? ==> tx.state ==
                            old(tx.state).(utxos := ApplyAll(old(tx.state).utxos,
                                                             Undos(Effects(Translation(rpc.node, tipHash).ops))))
    ensures err.Some? ==> rpc.failures > old(rpc.failures) && (err.value.ErrRpc? || err.value.ErrOps?)
  {
    TranslationIgnoresParent(rpc.node, tipHash);
    var b := rpc.GetBlock(tipHash);
    if b.None? {
      return Some(ErrRpc);
    }
    var prev: Option<Block> := None;
    if !ApprovesParent(b.value.voteBits) {
      prev := rpc.GetBlock(b.value.prevBlock);
      if prev.None? {
        return Some(ErrRpc);
      }
    }
    var applier := new Applier(false, tipHeight, tx, null, rpc.node.txs);
    var opErr := IterateBlockOps(rpc, b.value, prev, applier);
    err := if opErr.Some? then Some(ErrOps(opErr.value)) else None;
  }

  /** Rolls back the tip t of a transaction's state; only the block right after genesis cannot be rolled back. */
  method RollbackTipBlock(rpc: Connection, tx: WriteTx, tipHash: Hash, tipHeight: int, ghost t: Hash)
    returns (err: Option<SyncError>)
    requires OnChain(rpc.node, tx.state, t,
        tx.moves) && tipHash == tx.state.tipHash && tipHeight == tx.state.tipHeight > 0
    modifies rpc, tx
    ensures rpc.failures >= old(rpc.failures)
    ensures err.None? ==> rpc.failures == old(rpc.failures)
    ensures err.None? ==> Height(rpc.node, t) > 1 && tx.state == Disconnected(rpc.node, old(tx.state), t)
    ensures err.None? ==> tx.moves == old(tx.moves) + [Down(t)]
    ensures err.Some? ==> rpc.failures > old(rpc.failures) || Height(rpc.node, t) == 1
    ensures err.Some? && err.value.ErrDb? ==> err.value.db == ErrBlockHeightNotFound && Height(rpc.node, t) == 1
  {
    hide OnChain, Processable, Translation, RollbackTip;
    ghost var before := tx.state;
    err := UndoCoins(rpc, tx, tipHash, tipHeight);
    if err.Some? {
      return;
    }
    RollbackTipOnChain(rpc.node, before, t, tx.moves, tx.state.utxos);
    var r := RollbackTip(tx.state, tipHash, tipHeight);
    if r.Err? {
      return Some(ErrDb(r.error));
    }
    tx.state, tx.moves := r.value, tx.moves + [Down(t)];
  }

  /** First loop: rolls back a tip that is higher than the target. */
  method RollbackAbove(rpc: Connection, tx: WriteTx, targetHeight: nat, ghost t: Hash)
    returns (err: Option<SyncError>, ghost t': Hash)
    requires OnChain(rpc.node, tx.state, t, tx.moves)
    modifies rpc, tx
    ensures rpc.failures >= old(rpc.failures)
    ensures err.None? ==> rpc.failures == old(rpc.failures)
    ensures err.None? ==>
              && OnChain(rpc.node, tx.state, t', tx.moves)
              && t' == (if Height(rpc.node, t) > targetHeight then Ancestor(rpc.node, t, targetHeight) else t)
              && tx.moves == old(tx.moves) + Dropped(rpc.node, t, Height(rpc.node, t'))
              && (Height(rpc.node, t) > 0 ==> Height(rpc.node, t') > 0)
    ensures err.Some? ==> rpc.failures > old(rpc.failures) || (targetHeight == 0 < Height(rpc.node, t))
  {
    hide OnChain, Processable, Translation, Disconnected, Dropped, Ancestor, ValidNode;
    AncestorSelf(rpc.node, t);
    t' := t;
    NoneDropped(rpc.node, t);
    var tipHash, tipHeight := tx.state.tipHash, tx.state.tipHeight;
    while tipHeight > 0 && tipHeight > targetHeight
      invariant rpc.failures == old(rpc.failures)
      invariant OnChain(rpc.node, tx.state, t',
          tx.moves) && tipHash == tx.state.tipHash && tipHeight == tx.state.tipHeight
      invariant Height(rpc.node, t') <= Height(rpc.node, t) && t' == Ancestor(rpc.node, t, Height(rpc.node, t'))
      invariant tx.moves == old(tx.moves) + Dropped(rpc.node, t, Height(rpc.node, t'))
      invariant Height(rpc.node, t') < Height(rpc.node, t) ==> targetHeight <= tipHeight
      invariant Height(rpc.node, t) > 0 ==> Height(rpc.node, t') > 0
      decreases tipHeight
    {
      DisconnectedOnChainIfHigh(rpc.node, tx.state, t', tx.moves);
      ParentOfAncestor(rpc.node, t, Height(rpc.node, t'));
      DroppedSnoc(rpc.node, t, Height(rpc.node, t'));
      err := RollbackTipBlock(rpc, tx, tipHash, tipHeight, t');
      if err.Some? {
        return;
      }
      t' := Parent(rpc.node, t');
      tipHash, tipHeight := tx.state.tipHash, tx.state.tipHeight;
    }
    err := None;
  }

  lemma DisconnectedOnChainIfHigh(n: Node, db: Db, t: Hash, moves: seq<Move>)
    requires OnChain(n, db, t, moves)
    ensures Height(n, t) > 1 ==> OnChain(n, Disconnected(n, db, t), Parent(n, t), moves + [Down(t)])
  {
    if Height(n, t) > 1 {
      DisconnectedOnChain(n, db, t, moves);
    }
  }

  /** Second loop: follows the target's chain down to the height of the tip, collecting the missing blocks. */
  method WalkTargetDown(rpc: Connection, target: Hash, targetHeight: nat, tipHeight: nat)
    returns (err: Option<SyncError>, low: Hash, missing: seq<Hash>)
    requires ValidNode(rpc.node) && tipHeight <= targetHeight
    requires if target in rpc.node.blocks then Height(rpc.node, target) == targetHeight else tipHeight < targetHeight
    modifies rpc
    ensures rpc.failures >= old(rpc.failures)
    ensures err.None? ==> rpc.failures == old(rpc.failures)
    ensures err.None? ==> target in rpc.node.blocks
    ensures err.None? ==> low == Ancestor(rpc.node, target, tipHeight)
    ensures err.None? ==> missing == PathDown(rpc.node, target, tipHeight)
    ensures err.Some? ==> rpc.failures > old(rpc.failures) || target !in rpc.node.blocks
  {
    hide ValidNode, PathDown, Ancestor;
    low, missing := target, [];
    var lowHeight := targetHeight;
    if target in rpc.node.blocks {
      AncestorSelf(rpc.node, target);
      ForkPointSelf(rpc.node, target);
    }
    while lowHeight > 0 && lowHeight > tipHeight
      invariant rpc.failures == old(rpc.failures)
      invariant tipHeight <= lowHeight <= targetHeight
      invariant lowHeight < targetHeight ==> target in rpc.node.blocks
      invariant target !in rpc.node.blocks ==> low == target
      invariant target in rpc.node.blocks ==>
                  && low == Ancestor(rpc.node, target, lowHeight)
                  && missing == PathDown(rpc.node, target, lowHeight)
    {
      missing := missing + [low];
      var b := rpc.GetBlock(low);
      if b.None? {
        return Some(ErrRpc), low, missing;
      }
      PathDownSnoc(rpc.node, target, lowHeight);
      ParentOfAncestor(rpc.node, target, lowHeight);
      low := b.value.prevBlock;
      lowHeight := lowHeight - 1;
    }
    err := None;
  }

  /** Third loop: rolls back the tip and follows the target's chain down, in step, until they meet. */
  method RollbackToFork(rpc: Connection, tx: WriteTx, target: Hash, ghost t: Hash)
    returns (err: Option<SyncError>, missing: seq<Hash>, ghost t': Hash)
    requires OnChain(rpc.node, tx.state, t, tx.moves)
    requires InNode(rpc.node, target) && Height(rpc.node, target) == Height(rpc.node, t)
    modifies rpc, tx
    ensures rpc.failures >= old(rpc.failures)
    ensures err.None? ==> rpc.failures == old(rpc.failures)
    ensures err.None? ==>
              && t' == ForkPoint(rpc.node, t, target)
              && OnChain(rpc.node, tx.state, t', tx.moves)
              && tx.moves == old(tx.moves) + Dropped(rpc.node, t, Height(rpc.node, t'))
              && missing == PathDown(rpc.node, target, Height(rpc.node, t'))
              && (Height(rpc.node, t) > 0 ==> Height(rpc.node, t') > 0)
    ensures err.Some? ==>
              rpc.failures > old(rpc.failures) || Height(rpc.node, ForkPoint(rpc.node, t,
                  target)) == 0 < Height(rpc.node, t)
  {
    hide OnChain, Processable, PathDown, Translation, Disconnected, Ancestor, ForkPoint, ValidNode, Dropped;
    AncestorSelf(rpc.node, t);
    NoneDropped(rpc.node, t);
    AncestorSelf(rpc.node, target);
    ForkPointSelf(rpc.node, target);
    t', missing := t, [];
    var low := target;
    var tipHash, tipHeight := tx.state.tipHash, tx.state.tipHeight;
    while tipHeight > 0 && low != tipHash
      invariant rpc.failures == old(rpc.failures)
      invariant OnChain(rpc.node, tx.state, t',
          tx.moves) && tipHash == tx.state.tipHash && tipHeight == tx.state.tipHeight
      invariant Height(rpc.node, t') <= Height(rpc.node, target)
      invariant low == Ancestor(rpc.node, target, Height(rpc.node, t'))
      invariant t' == Ancestor(rpc.node, t, Height(rpc.node, t'))
      invariant tx.moves == old(tx.moves) + Dropped(rpc.node, t, Height(rpc.node, t'))
      invariant missing == PathDown(rpc.node, target, Height(rpc.node, t'))
      invariant ForkPoint(rpc.node, t', low) == ForkPoint(rpc.node, t, target)
      invariant Height(rpc.node, t) > 0 ==> Height(rpc.node, t') > 0
      decreases tipHeight
    {
      missing := missing + [low];
      DisconnectedOnChainIfHigh(rpc.node, tx.state, t', tx.moves);
      DroppedSnoc(rpc.node, t, Height(rpc.node, t'));
      ParentOfAncestor(rpc.node, t, Height(rpc.node, t'));
      PathDownSnoc(rpc.node, target, Height(rpc.node, t'));
      ParentOfAncestor(rpc.node, target, Height(rpc.node, t'));
      ForkPointStep(rpc.node, t', low);
      if Height(rpc.node, t') == 1 {
        ForkPointOfGenesis(rpc.node, Parent(rpc.node, t'), Parent(rpc.node, low));
      }
      err := RollbackTipBlock(rpc, tx, tipHash, tipHeight, t');
      if err.Some? {
        return;
      }
      t' := Parent(rpc.node, t');
      tipHash, tipHeight := tx.state.tipHash, tx.state.tipHeight;
      var b := rpc.GetBlock(low);
      if b.None? {
        return Some(ErrRpc), missing, t';
      }
      low := b.value.prevBlock;
    }
    if Height(rpc.node, t) == 0 {
      ForkPointOfGenesis(rpc.node, t, target);
    } else {
      ForkPointSelf(rpc.node, t');
    }
    err := None;
  }

  /**
   * Rolls back to the fork point of the database's chain and the target's chain. On success missing holds the
   * blocks from the target down to just above the fork point, newest first.
   */
  method RollbackDbChain(rpc: Connection, tx: WriteTx, target: Hash, targetHeight: nat, ghost t: Hash)
    returns (err: Option<SyncError>, missing: seq<Hash>, ghost t': Hash)
    requires OnChain(rpc.node, tx.state, t, tx.moves)
    requires if target in rpc.node.blocks then Height(rpc.node, target) == targetHeight
             else tx.state.tipHeight < targetHeight
    modifies rpc, tx
    ensures rpc.failures >= old(rpc.failures)
    ensures err.None? ==> rpc.failures == old(rpc.failures)
    ensures err.None? ==>
              && InNode(rpc.node, target)
              && t' == ForkPoint(rpc.node, t, target)
              && OnChain(rpc.node, tx.state, t', tx.moves)
              && tx.moves == old(tx.moves) + Dropped(rpc.node, t, Height(rpc.node, t'))
              && missing == PathDown(rpc.node, target, Height(rpc.node, t'))
              && (Height(rpc.node, t) > 0 ==> Height(rpc.node, t') > 0)
    ensures err.Some? ==>
              || rpc.failures > old(rpc.failures)
              || target !in rpc.node.blocks
              || Height(rpc.node, ForkPoint(rpc.node, t, target)) == 0 < Height(rpc.node, t)
  {
    hide OnChain, Processable, PathDown, ForkPoint, Translation, Dropped, ValidNode, Ancestor;
    NoneDropped(rpc.node, t);
    t', missing := t, [];
    if targetHeight == tx.state.tipHeight && target == tx.state.tipHash {
      ForkPointSelf(rpc.node, t);
      return None, missing, t';
    }
    err, t' := RollbackAbove(rpc, tx, targetHeight, t);
    if err.Some? {
      if target in rpc.node.blocks && Height(rpc.node, target) == 0 {
        ForkPointOfGenesis(rpc.node, t, target);
      }
      return;
    }
    ghost var t1 := t';
    var low, above;
    err, low, above := WalkTargetDown(rpc, target, targetHeight, tx.state.tipHeight);
    if err.Some? {
      return;
    }
    AncestorSelf(rpc.node, t);
    AncestorSelf(rpc.node, target);
    ForkPointFromBoth(rpc.node, t, target, Height(rpc.node, t1));
    err, missing, t' := RollbackToFork(rpc, tx, low, t1);
    if err.Some? {
      return;
    }
    PathDownSplits(rpc.node, target, Height(rpc.node, t1), Height(rpc.node, t'));
    DroppedSplits(rpc.node, t, Height(rpc.node, t1), Height(rpc.node, t'));
    missing := above + missing;
  }

  lemma ForkPointFromBoth(n: Node, x: Hash, y: Hash, i: nat)
    requires InNode(n, x) && InNode(n, y)
    requires i == if Height(n, x) > Height(n, y) then Height(n, y) else Height(n, x)
    ensures ForkPoint(n, Ancestor(n, x, i), Ancestor(n, y, i)) == ForkPoint(n, x, y)
  {
    if Height(n, x) > Height(n, y) {
      ForkPointFromAncestor(n, x, y, i);
    } else {
      ForkPointFromAncestor(n, y, x, i);
    }
  }

  /* ----- Connecting ----- */

  /** The body of the Update that processes a block on top of tip t. */
  method ConnectBlock(rpc: Connection, tx: WriteTx, bh: Hash, b: Block, prev: Option<Block>, cache: UtxoCache?,
                      ghost t: Hash)
    returns (err: Option<SyncError>)
    requires OnChain(rpc.node, tx.state, t, tx.moves)
    requires bh in rpc.node.blocks && b == rpc.node.blocks[bh] && b.height > 0 && b.prevBlock == t
    requires prev == if tx.state.tipHeight > 0 then Some(rpc.node.blocks[t]) else None
    requires cache != null ==> Agrees(rpc.node.txs, cache.entries)
    modifies tx, rpc, cache
    ensures rpc.failures >= old(rpc.failures)
    ensures err.None? ==> rpc.failures == old(rpc.failures)
    ensures cache != null ==> Agrees(rpc.node.txs, cache.entries)
    ensures err.None? ==> Translation(rpc.node, bh).err.None? && OnChain(rpc.node, tx.state, bh, tx.moves)
    ensures err.None? ==> tx.state == Connected(rpc.node, old(tx.state), bh) && tx.moves == old(tx.moves) + [Up(bh)]
    ensures err.Some? ==>
              err.value.ErrOps? && (rpc.failures > old(rpc.failures) || Translation(rpc.node, bh).err.Some?)
  {
    hide OnChain, Processable, BlockEmission;
    ghost var before := tx.state;
    var applier := new Applier(true, b.height, tx, cache, rpc.node.txs);
    var opErr := IterateBlockOps(rpc, b, prev, applier);
    if opErr.Some? {
      return Some(ErrOps(opErr.value));
    }
    OnChainConsistent(rpc.node, before, t, tx.moves);
    var r := StoreBalances(tx.state, bh, b.height, applier.newBalances);
    ConnectedOnChain(rpc.node, before, bh, tx.moves);
    tx.state, tx.moves := r.value, tx.moves + [Up(bh)];
    err := None;
  }
}
