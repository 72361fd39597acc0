/** The Rosetta view of a block: operations grouped into transactions. */
module Rosetta {
  import opened Prelude
  import opened Wire
  import opened BlockOps

  datatype CoinAction = CoinSpent | CoinCreated

  /** A served coin identifier, "hash:index": the tree of the outpoint is not part of it. */
  datatype CoinId = CoinId(hash: Hash, index: UInt32)

  function IdOf(o: OutPoint): CoinId {
    CoinId(o.hash, o.index)
  }

  datatype CoinChange = CoinChange(action: CoinAction, coin: CoinId)

  datatype ROperation = ROperation(index: nat, debit: bool, status: OpStatus, account: Account, amount: int,
                                   coinChange: Option<CoinChange>)

  /** A transaction identifier is the transaction hash, prefixed by a block hash when it was reversed. */
  datatype RTransaction = RTransaction(blockHash: Option<Hash>, txHash: Hash, operations: seq<ROperation>)

  datatype RBlock = RBlock(hash: Hash, index: int, parentHash: Hash, parentIndex: int, txs: seq<RTransaction>)

  function ROp(op: Op): ROperation {
    var creates := op.side.Credit? == op.ctx.status.Success?;
    ROperation(op.opIndex, op.side.Debit?, op.ctx.status, op.account, op.amount,
               if op.account == TREASURY then None
               else Some(CoinChange(if creates then CoinCreated else CoinSpent, IdOf(OutPointOf(op)))))
  }

  function ROps(ops: seq<Op>): (r: seq<ROperation>)
    ensures |r| == |ops|
    ensures forall i | 0 <= i < |ops| :: r[i] == ROp(ops[i])
  {
    if ops == [] then [] else ROps(ops[..|ops| - 1]) + [ROp(ops[|ops| - 1])]
  }

  function NewTransaction(op: Op, prevHash: Hash): RTransaction {
    RTransaction(if op.ctx.status.Reversed? then Some(prevHash) else None, op.ctx.tx.hash, [])
  }

  /** One callback of the grouping closure: an op numbered 0 starts a new transaction. */
  function Append(txs: seq<RTransaction>, op: Op, prevHash: Hash): seq<RTransaction>
    requires op.opIndex != 0 ==> txs != []
  {
    var started := if op.opIndex == 0 then txs + [NewTransaction(op, prevHash)] else txs;
    var last := started[|started| - 1];
    started[..|started| - 1] + [last.(operations := last.operations + [ROp(op)])]
  }

  /** The Rosetta transactions of one wire transaction: none if it has no ops. */
  function Transactions(c: TxContext, ops: seq<Op>, prevHash: Hash): seq<RTransaction> {
    if ops == [] then []
    else [RTransaction(if c.status.Reversed? then Some(prevHash) else None, c.tx.hash, ROps(ops))]
  }

  /** One Rosetta transaction per wire transaction that has operations, in order. */
  function TxsToRosetta(accountOf: AccountOf, index: map<Hash, Tx>, tree: Int8, status: OpStatus, list: seq<Tx>,
                        prevHash: Hash): seq<RTransaction> {
    if list == [] then [] else
      var n := |list| - 1;
      var ops := TxEmission(accountOf, index, TxContext(tree, status, list[n], n)).ops;
      TxsToRosetta(accountOf, index, tree, status, list[..n], prevHash) +
      Transactions(TxContext(tree, status, list[n], n), ops, prevHash)
  }

  function BlockToRosetta(accountOf: AccountOf, index: map<Hash, Tx>, b: Block, prev: Option<Block>, prevHash: Hash)
    : seq<RTransaction> {
    (if ApprovesParent(b.voteBits) || b.height == 0 || prev.None? then []
     else TxsToRosetta(accountOf, index, TREE_REGULAR, Reversed, prev.value.txs, prevHash)) +
    TxsToRosetta(accountOf, index, TREE_REGULAR, Success, b.txs, prevHash) +
    TxsToRosetta(accountOf, index, TREE_STAKE, Success, b.stxs, prevHash)
  }

  /* ----- Grouping by op index recovers the wire transactions ----- */

  /** Every op not numbered 0 follows another op, so grouping never lacks a transaction. */
  ghost predicate Startable(ops: seq<Op>) {
    ops != [] ==> ops[0].opIndex == 0
  }

  ghost function Group(ops: seq<Op>, prevHash: Hash): (r: seq<RTransaction>)
    requires Startable(ops)
    ensures ops != [] ==> r != []
  {
    if ops == [] then [] else Append(Group(ops[..|ops| - 1], prevHash), ops[|ops| - 1], prevHash)
  }

  /** The ops of one transaction: numbered from 0, all with its context. */
  ghost predicate OneTx(ops: seq<Op>, c: TxContext) {
    forall i | 0 <= i < |ops| :: ops[i].opIndex == i && ops[i].ctx == c
  }

  lemma AppendFirst(g: seq<RTransaction>, op: Op, prevHash: Hash)
    requires op.opIndex == 0
    ensures Append(g, op, prevHash) == g + [NewTransaction(op, prevHash).(operations := [ROp(op)])]
  {
    var t := NewTransaction(op, prevHash);
    assert (g + [t])[..|g|] == g;
    assert t.operations + [ROp(op)] == [ROp(op)];
  }

  lemma AppendNext(g: seq<RTransaction>, t: RTransaction, op: Op, prevHash: Hash)
    requires op.opIndex != 0
    ensures Append(g + [t], op, prevHash) == g + [t.(operations := t.operations + [ROp(op)])]
  {
    assert (g + [t])[..|g|] == g;
  }

  lemma GroupSnoc(x: seq<Op>, op: Op, prevHash: Hash)
    requires Startable(x) && (x == [] ==> op.opIndex == 0)
    ensures Startable(x + [op])
    ensures Group(x + [op], prevHash) == Append(Group(x, prevHash), op, prevHash)
  {
    assert (x + [op])[..|x|] == x;
  }

  lemma TransactionsSnoc(c: TxContext, ops: seq<Op>, op: Op, prevHash: Hash)
    requires ops != []
    ensures var t := Transactions(c, ops, prevHash)[0];
            Transactions(c, ops + [op], prevHash) == [t.(operations := t.operations + [ROp(op)])]
  {
    assert ROps(ops + [op]) == ROps(ops) + [ROp(op)];
  }

  lemma GroupNext(z: seq<Op>, op: Op, prevHash: Hash, g: seq<RTransaction>, t: RTransaction)
    requires Startable(z) && Group(z, prevHash) == g + [t] && op.opIndex != 0
    ensures Startable(z + [op])
    ensures Group(z + [op], prevHash) == g + [t.(operations := t.operations + [ROp(op)])]
  {
    GroupSnoc(z, op, prevHash);
    AppendNext(g, t, op, prevHash);
  }

  lemma {:induction false} GroupOneTx(x: seq<Op>, y: seq<Op>, c: TxContext, prevHash: Hash)
    requires Startable(x) && OneTx(y, c) && y != []
    ensures Startable(x + y)
    ensures Group(x + y, prevHash) == Group(x, prevHash) + Transactions(c, y, prevHash)
    decreases |y|
  {
    var n := |y| - 1;
    var front, op := y[..n], y[n];
    var g := Group(x, prevHash);
    assert x + y == x + front + [op] && y == front + [op];
    if n == 0 {
      assert x + front == x;
      GroupSnoc(x, op, prevHash);
      AppendFirst(g, op, prevHash);
    } else {
      GroupOneTx(x, front, c, prevHash);
      GroupNext(x + front, op, prevHash, g, Transactions(c, front, prevHash)[0]);
      TransactionsSnoc(c, front, op, prevHash);
    }
  }

  lemma {:induction false} AdvanceAllOneTx(c: TxContext, steps: seq<Step>)
    requires forall i | 0 <= i < |steps| && steps[i].Emit? ::
               steps[i].op.ctx == c
    ensures OneTx(AdvanceAll(NOTHING, steps).ops, c)
  {
    if steps != [] {
      var front, s := steps[..|steps| - 1], steps[|steps| - 1];
      AdvanceAllOneTx(c, front);
    }
  }

  lemma NoOpsOneTx(c: TxContext)
    ensures OneTx([], c)
  {
  }

  lemma TxEmissionOneTx(accountOf: AccountOf, index: map<Hash, Tx>, c: TxContext)
    ensures OneTx(TxEmission(accountOf, index, c).ops, c)
  {
    hide OneTx, Fetch, AdvanceAll;
    var fetched := Fetch(index, c.Targets());
    if fetched.None? {
      NoOpsOneTx(c);
    } else {
      AdvanceAllOneTx(c, TxSteps(accountOf, c, fetched.value));
    }
  }

  lemma GroupTx(x: seq<Op>, y: seq<Op>, c: TxContext, prevHash: Hash)
    requires Startable(x) && OneTx(y, c)
    ensures Startable(x + y)
    ensures Group(x + y, prevHash) == Group(x, prevHash) + Transactions(c, y, prevHash)
  {
    if y == [] {
      assert x + y == x;
    } else {
      GroupOneTx(x, y, c, prevHash);
    }
  }

  ghost predicate GroupsInto(x: seq<Op>, ops: seq<Op>, prevHash: Hash, txs: seq<RTransaction>) {
    Startable(x) ==> Startable(x + ops) && Group(x + ops, prevHash) == Group(x, prevHash) + txs
  }

  lemma GroupsIntoThen(x: seq<Op>, y: seq<Op>, z: seq<Op>, prevHash: Hash, ty: seq<RTransaction>, tz: seq<RTransaction>)
    requires GroupsInto(x, y, prevHash, ty)
    requires GroupsInto(x + y, z, prevHash, tz)
    ensures GroupsInto(x, y + z, prevHash, ty + tz)
  {
    assert x + (y + z) == x + y + z;
    if Startable(x) {
      assert Group(x, prevHash) + (ty + tz) == Group(x, prevHash) + ty + tz;
    }
  }

  lemma {:induction false} GroupTxs(accountOf: AccountOf, index: map<Hash, Tx>, tree: Int8, status: OpStatus,
                                    list: seq<Tx>, prevHash: Hash, x: seq<Op>)
    requires TxsEmission(accountOf, index, tree, status, list).err.None?
    ensures GroupsInto(x, TxsEmission(accountOf, index, tree, status, list).ops, prevHash,
                       TxsToRosetta(accountOf, index, tree, status, list, prevHash))
    decreases |list|
  {
    if list == [] {
      assert x + [] == x;
    } else {
      var n := |list| - 1;
      var c := TxContext(tree, status, list[n], n);
      GroupTxs(accountOf, index, tree, status, list[..n], prevHash, x);
      var front := TxsEmission(accountOf, index, tree, status, list[..n]).ops;
      var last := TxEmission(accountOf, index, c).ops;
      TxEmissionOneTx(accountOf, index, c);
      if Startable(x) {
        GroupTx(x + front, last, c, prevHash);
      }
      GroupsIntoThen(x, front, last, prevHash, TxsToRosetta(accountOf, index, tree, status, list[..n], prevHash),
                     Transactions(c, last, prevHash));
    }
  }

  lemma GroupBlock(accountOf: AccountOf, index: map<Hash, Tx>, b: Block, prev: Option<Block>, prevHash: Hash)
    requires BlockEmission(accountOf, index, b, prev).err.None?
    ensures var ops := BlockEmission(accountOf, index, b, prev).ops;
            && Startable(ops)
            && Group(ops, prevHash) == BlockToRosetta(accountOf, index, b, prev, prevHash)
  {
    var approves := ApprovesParent(b.voteBits) || b.height == 0;
    var undone := if approves then [] else TxsEmission(accountOf, index, TREE_REGULAR, Reversed, prev.value.txs).ops;
    var undoneTxs := if approves then [] else TxsToRosetta(accountOf, index, TREE_REGULAR, Reversed, prev.value.txs,
        prevHash);
    var regular := TxsEmission(accountOf, index, TREE_REGULAR, Success, b.txs).ops;
    var regularTxs := TxsToRosetta(accountOf, index, TREE_REGULAR, Success, b.txs, prevHash);
    var stake := TxsEmission(accountOf, index, TREE_STAKE, Success, b.stxs).ops;
    var stakeTxs := TxsToRosetta(accountOf, index, TREE_STAKE, Success, b.stxs, prevHash);
    if !approves {
      GroupTxs(accountOf, index, TREE_REGULAR, Reversed, prev.value.txs, prevHash, []);
    }
    assert [] + undone == undone;
    GroupTxs(accountOf, index, TREE_REGULAR, Success, b.txs, prevHash, undone);
    GroupsIntoThen([], undone, regular, prevHash, undoneTxs, regularTxs);
    assert [] + (undone + regular) == undone + regular;
    GroupTxs(accountOf, index, TREE_STAKE, Success, b.stxs, prevHash, undone + regular);
    GroupsIntoThen([], undone + regular, stake, prevHash, undoneTxs + regularTxs, stakeTxs);
    assert [] + (undone + regular + stake) == undone + regular + stake;
    assert [] + (undoneTxs + regularTxs + stakeTxs) == undoneTxs + regularTxs + stakeTxs;
  }

  /* ----- Amounts and indices ----- */

  function OperationSum(ops: seq<ROperation>, a: Account): int {
    if ops == [] then 0 else
      var op := ops[|ops| - 1];
      OperationSum(ops[..|ops| - 1], a) + if op.account == a then op.amount else 0
  }

  /** What a list of Rosetta transactions moves into an account. */
  function TransactionSum(txs: seq<RTransaction>, a: Account): int {
    if txs == [] then 0
    else TransactionSum(txs[..|txs| - 1], a) + OperationSum(txs[|txs| - 1].operations, a)
  }

  lemma TransactionSumSnoc(txs: seq<RTransaction>, t: RTransaction, a: Account)
    ensures TransactionSum(txs + [t], a) == TransactionSum(txs, a) + OperationSum(t.operations, a)
  {
    assert (txs + [t])[..|txs|] == txs;
  }

  lemma OperationSumSnoc(ops: seq<ROperation>, op: Op, a: Account)
    ensures OperationSum(ops + [ROp(op)], a) == OperationSum(ops, a) + if op.account == a then op.amount else 0
  {
    assert (ops + [ROp(op)])[..|ops|] == ops;
  }

  lemma AppendSum(txs: seq<RTransaction>, op: Op, prevHash: Hash, a: Account)
    requires op.opIndex != 0 ==> txs != []
    ensures TransactionSum(Append(txs, op, prevHash), a) ==
            TransactionSum(txs, a) + if op.account == a then op.amount else 0
  {
    hide ROp;
    var t := NewTransaction(op, prevHash);
    var started := if op.opIndex == 0 then txs + [t] else txs;
    var front, last := started[..|started| - 1], started[|started| - 1];
    assert TransactionSum(txs, a) == TransactionSum(front, a) + OperationSum(last.operations, a) by {
      if op.opIndex == 0 {
        assert front == txs && last.operations == [];
      }
    }
    var grown := last.(operations := last.operations + [ROp(op)]);
    assert Append(txs, op, prevHash) == front + [grown];
    TransactionSumSnoc(front, grown, a);
    OperationSumSnoc(last.operations, op, a);
  }

  lemma {:induction false} GroupSum(ops: seq<Op>, prevHash: Hash, a: Account)
    requires Startable(ops)
    ensures TransactionSum(Group(ops, prevHash), a) == OpSum(ops, a)
  {
    if ops != [] {
      var n := |ops| - 1;
      GroupSum(ops[..n], prevHash, a);
      AppendSum(Group(ops[..n], prevHash), ops[n], prevHash, a);
    }
  }

  /** The operations of every served transaction are numbered 0..n-1, and there is at least one. */
  ghost predicate Numbered(txs: seq<RTransaction>) {
    forall k | 0 <= k < |txs| ::
      && txs[k].operations != []
      && forall i | 0 <= i < |txs[k].operations| :: txs[k].operations[i].index == i
  }

  lemma OneTxNumbered(c: TxContext, ops: seq<Op>, prevHash: Hash)
    requires OneTx(ops, c)
    ensures Numbered(Transactions(c, ops, prevHash))
  {
  }

  lemma NumberedConcat(x: seq<RTransaction>, y: seq<RTransaction>)
    requires Numbered(x) && Numbered(y)
    ensures Numbered(x + y)
  {
    forall k | 0 <= k < |x + y|
      ensures (x + y)[k].operations != []
      ensures forall i | 0 <= i < |(x + y)[k].operations| :: (x + y)[k].operations[i].index == i
    {
      assert (x + y)[k] == if k < |x| then x[k] else y[k - |x|];
    }
  }

  lemma {:induction false} TxsNumbered(accountOf: AccountOf, index: map<Hash, Tx>, tree: Int8, status: OpStatus,
                                       list: seq<Tx>, prevHash: Hash)
    ensures Numbered(TxsToRosetta(accountOf, index, tree, status, list, prevHash))
  {
    if list != [] {
      hide TxEmission, Numbered, OneTx, ROps;
      var n := |list| - 1;
      var c := TxContext(tree, status, list[n], n);
      TxsNumbered(accountOf, index, tree, status, list[..n], prevHash);
      TxEmissionOneTx(accountOf, index, c);
      OneTxNumbered(c, TxEmission(accountOf, index, c).ops, prevHash);
      NumberedConcat(TxsToRosetta(accountOf, index, tree, status, list[..n], prevHash),
                     Transactions(c, TxEmission(accountOf, index, c).ops, prevHash));
    }
  }

  lemma BlockNumbered(accountOf: AccountOf, index: map<Hash, Tx>, b: Block, prev: Option<Block>, prevHash: Hash)
    ensures Numbered(BlockToRosetta(accountOf, index, b, prev, prevHash))
  {
    hide TxsToRosetta, Numbered;
    TxsNumbered(accountOf, index, TREE_REGULAR, Success, b.txs, prevHash);
    TxsNumbered(accountOf, index, TREE_STAKE, Success, b.stxs, prevHash);
    var regular := TxsToRosetta(accountOf, index, TREE_REGULAR, Success, b.txs, prevHash);
    var stake := TxsToRosetta(accountOf, index, TREE_STAKE, Success, b.stxs, prevHash);
    if ApprovesParent(b.voteBits) || b.height == 0 || prev.None? {
      assert [] + regular == regular;
      NumberedConcat(regular, stake);
    } else {
      TxsNumbered(accountOf, index, TREE_REGULAR, Reversed, prev.value.txs, prevHash);
      var undone := TxsToRosetta(accountOf, index, TREE_REGULAR, Reversed, prev.value.txs, prevHash);
      NumberedConcat(undone, regular);
      NumberedConcat(undone + regular, stake);
    }
  }

  /* ----- What is served, op by op and transaction by transaction ----- */

  /** r is operation k of a transaction with the given status: op, as a Rosetta client sees it. */
  ghost predicate ServesOp(r: ROperation, k: nat, status: OpStatus, op: Op) {
    && r.index == k && r.status == status && r.account == op.account && r.amount == op.amount
    && (r.debit <==> op.side.Debit?)
    && (r.coinChange.None? <==> op.account == TREASURY)
    && (r.coinChange.Some? ==>
          && (r.coinChange.value.action.CoinCreated? <==> op.side.Debit? == status.Reversed?)
          && r.coinChange.value.coin ==
               match op.side
               case Debit(input, _) => CoinId(input.prevOut.hash, input.prevOut.index)
               case Credit(_) => CoinId(op.ctx.tx.hash, op.ioIndex % 0x1_0000_0000))
  }

  /** t serves the ops of a wire transaction under its hash, with the parent block's hash exactly if it is reversed. */
  ghost predicate Serves(t: RTransaction, c: TxContext, ops: seq<Op>, prevHash: Hash) {
    && t.txHash == c.tx.hash
    && t.blockHash == (if c.status.Reversed? then Some(prevHash) else None)
    && |t.operations| == |ops|
    && forall k | 0 <= k < |ops| :: ServesOp(t.operations[k], k, c.status, ops[k])
  }

  function ContextsOf(tree: Int8, status: OpStatus, list: seq<Tx>): (r: seq<TxContext>)
    ensures |r| == |list|
  {
    seq(|list|, i requires 0 <= i < |list| => TxContext(tree, status, list[i], i))
  }

  /** The wire transactions a block serves: reversed ones of a disapproved parent, then its regular and stake ones. */
  function WireTransactions(b: Block, prev: Option<Block>): seq<TxContext> {
    (if b.voteBits as bv16 & 1 == 0 && b.height != 0 && prev.Some? then ContextsOf(0, Reversed, prev.value.txs)
     else []) +
    ContextsOf(0, Success, b.txs) +
    ContextsOf(1, Success, b.stxs)
  }

  /** txs serves, in order, the wire transactions cs[at[0]], cs[at[1]], ...: exactly those that have operations. */
  ghost predicate ServedInOrder(accountOf: AccountOf, index: map<Hash, Tx>, txs: seq<RTransaction>, cs: seq<TxContext>,
                                prevHash: Hash, at: seq<nat>)
  {
    && |at| == |txs|
    && (forall k | 0 <= k < |at| :: at[k] < |cs| && ServedBy(accountOf, index, txs[k], cs[at[k]], prevHash))
    && (forall j, k | 0 <= j < k < |at| :: at[j] < at[k])
    && (forall j | 0 <= j < |cs| && TxEmission(accountOf, index, cs[j]).ops != [] ::
          exists k :: 0 <= k < |at| && at[k] == j)
  }

  ghost predicate ServedBy(accountOf: AccountOf, index: map<Hash, Tx>, t: RTransaction, c: TxContext, prevHash: Hash) {
    var ops := TxEmission(accountOf, index, c).ops;
    ops != [] && Serves(t, c, ops, prevHash)
  }

  lemma ServedConcat(accountOf: AccountOf, index: map<Hash, Tx>,
                     x: seq<RTransaction>, cx: seq<TxContext>, atX: seq<nat>,
                     y: seq<RTransaction>, cy: seq<TxContext>, atY: seq<nat>, prevHash: Hash)
    returns (at: seq<nat>)
    requires ServedInOrder(accountOf, index, x, cx, prevHash, atX)
    requires ServedInOrder(accountOf, index, y, cy, prevHash, atY)
    ensures ServedInOrder(accountOf, index, x + y, cx + cy, prevHash, at)
  {
    hide TxEmission, ServedBy;
    var shifted := seq(|atY|, k requires 0 <= k < |atY| => |cx| + atY[k]);
    at := atX + shifted;
    var cs := cx + cy;
    forall k | 0 <= k < |at| ensures at[k] < |cs| && ServedBy(accountOf, index, (x + y)[k], cs[at[k]], prevHash) {
      if k < |atX| {
        assert cs[at[k]] == cx[atX[k]];
      } else {
        assert cs[at[k]] == cy[atY[k - |atX|]];
      }
    }
    forall j | 0 <= j < |cs| && TxEmission(accountOf, index, cs[j]).ops != []
      ensures exists k :: 0 <= k < |at| && at[k] == j
    {
      if j < |cx| {
        var k :| 0 <= k < |atX| && atX[k] == j;
        assert at[k] == j;
      } else {
        var k :| 0 <= k < |atY| && atY[k] == j - |cx|;
        assert at[|atX| + k] == j;
      }
    }
  }

  lemma TxServed(accountOf: AccountOf, index: map<Hash, Tx>, c: TxContext, prevHash: Hash) returns (at: seq<nat>)
    ensures ServedInOrder(accountOf, index, Transactions(c, TxEmission(accountOf, index, c).ops, prevHash), [c],
                          prevHash, at)
  {
    hide TxEmission;
    var ops := TxEmission(accountOf, index, c).ops;
    TxEmissionOneTx(accountOf, index, c);
    at := if ops == [] then [] else [0];
    if ops != [] {
      var t := Transactions(c, ops, prevHash)[0];
      forall k | 0 <= k < |ops| ensures ServesOp(t.operations[k], k, c.status, ops[k]) {
      }
      assert at[0] == 0;
    }
  }

  lemma {:induction false} TxsServed(accountOf: AccountOf, index: map<Hash, Tx>, tree: Int8, status: OpStatus,
                                     list: seq<Tx>, prevHash: Hash)
    returns (at: seq<nat>)
    ensures ServedInOrder(accountOf, index, TxsToRosetta(accountOf, index, tree, status, list, prevHash),
                          ContextsOf(tree, status, list), prevHash, at)
  {
    hide *;
    TxsToRosettaSnoc(accountOf, index, tree, status, list, prevHash);
    if list == [] {
      NothingServed(accountOf, index, prevHash);
      at := [];
    } else {
      var n := |list| - 1;
      var c := TxContext(tree, status, list[n], n);
      var front := TxsServed(accountOf, index, tree, status, list[..n], prevHash);
      var last := TxServed(accountOf, index, c, prevHash);
      at := ServedConcat(accountOf, index, TxsToRosetta(accountOf, index, tree, status, list[..n], prevHash),
                         ContextsOf(tree, status, list[..n]), front,
                         Transactions(c, TxEmission(accountOf, index, c).ops, prevHash), [c], last, prevHash);
    }
  }

  lemma TxsToRosettaSnoc(accountOf: AccountOf, index: map<Hash, Tx>, tree: Int8, status: OpStatus, list: seq<Tx>,
                         prevHash: Hash)
    ensures list == [] ==> TxsToRosetta(accountOf, index, tree, status, list, prevHash) == []
    ensures list == [] ==> ContextsOf(tree, status, list) == []
    ensures list != [] ==>
              var n := |list| - 1;
              var c := TxContext(tree, status, list[n], n);
              && TxsToRosetta(accountOf, index, tree, status, list, prevHash) ==
                   TxsToRosetta(accountOf, index, tree, status, list[..n], prevHash) +
                   Transactions(c, TxEmission(accountOf, index, c).ops, prevHash)
              && ContextsOf(tree, status, list) == ContextsOf(tree, status, list[..n]) + [c]
  {
    hide TxEmission, Transactions;
  }

  /** A served block holds exactly the wire transactions with operations, in order. */
  lemma BlockServed(accountOf: AccountOf, index: map<Hash, Tx>, b: Block, prev: Option<Block>, prevHash: Hash)
    returns (at: seq<nat>)
    ensures ServedInOrder(accountOf, index, BlockToRosetta(accountOf, index, b, prev, prevHash),
                          WireTransactions(b, prev), prevHash, at)
  {
    hide ServedInOrder, TxsToRosetta;
    BitZero(b.voteBits);
    var regular := TxsServed(accountOf, index, TREE_REGULAR, Success, b.txs, prevHash);
    var stake := TxsServed(accountOf, index, TREE_STAKE, Success, b.stxs, prevHash);
    var disapproves := !ApprovesParent(b.voteBits) && b.height != 0 && prev.Some?;
    var undone := [];
    var undoneTxs, undoneContexts := [], [];
    if disapproves {
      undone := TxsServed(accountOf, index, TREE_REGULAR, Reversed, prev.value.txs, prevHash);
      undoneTxs := TxsToRosetta(accountOf, index, TREE_REGULAR, Reversed, prev.value.txs, prevHash);
      undoneContexts := ContextsOf(TREE_REGULAR, Reversed, prev.value.txs);
    } else {
      NothingServed(accountOf, index, prevHash);
    }
    var regularTxs := TxsToRosetta(accountOf, index, TREE_REGULAR, Success, b.txs, prevHash);
    var stakeTxs := TxsToRosetta(accountOf, index, TREE_STAKE, Success, b.stxs, prevHash);
    at := ServedConcat(accountOf, index, undoneTxs, undoneContexts, undone,
                       regularTxs, ContextsOf(TREE_REGULAR, Success, b.txs), regular, prevHash);
    at := ServedConcat(accountOf, index, undoneTxs + regularTxs,
                       undoneContexts + ContextsOf(TREE_REGULAR, Success, b.txs), at,
                       stakeTxs, ContextsOf(TREE_STAKE, Success, b.stxs), stake, prevHash);
  }

  lemma NothingServed(accountOf: AccountOf, index: map<Hash, Tx>, prevHash: Hash)
    ensures ServedInOrder(accountOf, index, [], [], prevHash, [])
  {
  }

  /** The closure of WireBlockToRosetta, called on every op in turn. */
  method GroupOps(ops: seq<Op>, prevHash: Hash) returns (txs: seq<RTransaction>)
    requires Startable(ops)
    ensures txs == Group(ops, prevHash)
  {
    hide *;
    txs := [];
    GroupStart(ops, prevHash);
    for i := 0 to |ops|
      invariant Startable(ops[..i]) && txs == Group(ops[..i], prevHash)
    {
      GroupStep(ops, i, prevHash);
      txs := Append(txs, ops[i], prevHash);
    }
    assert ops[..|ops|] == ops;
  }

  lemma GroupStart(ops: seq<Op>, prevHash: Hash)
    ensures Startable(ops[..0]) && Group(ops[..0], prevHash) == []
  {
  }

  lemma GroupStep(ops: seq<Op>, i: nat, prevHash: Hash)
    requires Startable(ops) && i < |ops|
    ensures Startable(ops[..i]) && Startable(ops[..i + 1])
    ensures ops[i].opIndex != 0 ==> Group(ops[..i], prevHash) != []
    ensures Group(ops[..i + 1], prevHash) == Append(Group(ops[..i], prevHash), ops[i], prevHash)
  {
    hide Append;
    GroupSnoc(ops[..i], ops[i], prevHash);
    assert ops[..i + 1] == ops[..i] + [ops[i]];
  }

  /** Converts a block, failing exactly when the iteration over its operations fails. */
  method WireBlockToRosetta(accountOf: AccountOf, index: map<Hash, Tx>, hash: Hash, b: Block, prev: Option<Block>,
                            prevHash: Hash) returns (r: Result<RBlock, OpError>)
    ensures r.Ok? <==> BlockEmission(accountOf, index, b, prev).err.None?
    ensures r.Ok? ==> r.value.txs == BlockToRosetta(accountOf, index, b, prev, prevHash)
    ensures r.Ok? ==> Numbered(r.value.txs)
    ensures r.Ok? ==> exists at: seq<nat> ::
                        ServedInOrder(accountOf, index, r.value.txs, WireTransactions(b, prev), prevHash, at)
    ensures r == Err(NeedsPreviousBlock) <==> b.voteBits as bv16 & 1 == 0 && b.height != 0 && prev.None?
    ensures r.Ok? ==> forall a ::
                TransactionSum(r.value.txs, a) == OpSum(BlockEmission(accountOf, index, b, prev).ops, a)
    ensures r.Ok? ==> r.value.hash == hash && r.value.index == b.height
    ensures r.Ok? && b.height > 0 ==> r.value.parentHash == b.prevBlock && r.value.parentIndex == b.height - 1
    ensures r.Ok? && b.height == 0 ==> r.value.parentHash == hash && r.value.parentIndex == 0
  {
    var e := BlockEmission(accountOf, index, b, prev);
    BlockTranslatesIff(accountOf, index, b, prev);
    hide BlockEmission, ServedInOrder, BlockToRosetta, TxsEmission, Numbered, WireTransactions, Translates;
    if e.err.Some? {
      return Err(e.err.value);
    }
    GroupBlock(accountOf, index, b, prev, prevHash);
    var txs := GroupOps(e.ops, prevHash);
    BlockNumbered(accountOf, index, b, prev, prevHash);
    ghost var at := BlockServed(accountOf, index, b, prev, prevHash);
    forall a {
      GroupSum(e.ops, prevHash, a);
    }
    var parentHash, parentIndex := b.prevBlock, b.height - 1;
    if b.height == 0 {
      parentHash, parentIndex := hash, 0;
    }
    r := Ok(RBlock(hash, b.height, parentHash, parentIndex, txs));
  }
}
