/** The coin changes of served blocks, replayed as a Rosetta client would, against the stored unspent outputs. */
module RosettaCoins {
  import opened Prelude
  import opened Wire
  import opened BlockOps
  import opened Rosetta
  import opened Coins
  import opened BackendDb
  import opened Chain

  /** A coin as a client knows it: by account and identifier, without a tree. */
  datatype ClientCoin = ClientCoin(account: Account, id: CoinId)

  type Wallet = map<ClientCoin, int>

  datatype ClientEffect = ClientEffect(coin: ClientCoin, adds: bool, amount: int)

  function Seen(c: Coin): ClientCoin {
    ClientCoin(c.account, IdOf(c.outpoint))
  }

  function SeenEffect(e: Effect): ClientEffect {
    ClientEffect(Seen(e.coin), e.adds, e.amount)
  }

  function SeenEffects(es: seq<Effect>): (r: seq<ClientEffect>)
    ensures |r| == |es|
  {
    if es == [] then [] else SeenEffects(es[..|es| - 1]) + [SeenEffect(es[|es| - 1])]
  }

  function Track(w: Wallet, e: ClientEffect): Wallet {
    if e.adds then w[e.coin := e.amount] else w - {e.coin}
  }

  function TrackAll(w: Wallet, es: seq<ClientEffect>): Wallet {
    if es == [] then w else Track(TrackAll(w, es[..|es| - 1]), es[|es| - 1])
  }

  /** What a client does with one served operation: track the coin it names, with the operation's amount. */
  function Change(op: ROperation): seq<ClientEffect> {
    match op.coinChange
    case None => []
    case Some(CoinChange(action, coin)) =>
      [ClientEffect(ClientCoin(op.account, coin), action.CoinCreated?,
                    if action.CoinCreated? then op.amount else -op.amount)]
  }

  function OperationChanges(ops: seq<ROperation>): seq<ClientEffect> {
    if ops == [] then [] else OperationChanges(ops[..|ops| - 1]) + Change(ops[|ops| - 1])
  }

  function Changes(txs: seq<RTransaction>): seq<ClientEffect> {
    if txs == [] then [] else Changes(txs[..|txs| - 1]) + OperationChanges(txs[|txs| - 1].operations)
  }

  /** The coins a client holds after replaying the served blocks 1 to h. */
  ghost function ReplayTo(n: Node, h: Hash): Wallet
    requires InNode(n, h)
    decreases Height(n, h)
  {
    if Height(n, h) == 0 then map[]
    else TrackAll(ReplayTo(n, Parent(n, h)), ServedChanges(n, h))
  }

  ghost function ServedChanges(n: Node, h: Hash): seq<ClientEffect>
    requires InNode(n, h) && Height(n, h) > 0
  {
    Changes(BlockToRosetta(n.accountOf, n.txs, n.blocks[h], Some(n.blocks[Parent(n, h)]), Parent(n, h)))
  }

  /* ----- Served changes are the effects ----- */

  lemma SeenSnoc(es: seq<Effect>, e: Effect)
    ensures SeenEffects(es + [e]) == SeenEffects(es) + [SeenEffect(e)]
  {
    assert (es + [e])[..|es|] == es;
  }

  lemma ChangeIsEffect(op: Op)
    ensures Change(ROp(op)) == if op.account == TREASURY then [] else [SeenEffect(EffectOf(op))]
  {
  }

  lemma AppendChanges(txs: seq<RTransaction>, op: Op, prevHash: Hash)
    requires op.opIndex != 0 ==> txs != []
    ensures Changes(Append(txs, op, prevHash)) == Changes(txs) + Change(ROp(op))
  {
    hide Change, ROp;
    var started := if op.opIndex == 0 then txs + [NewTransaction(op, prevHash)] else txs;
    var front, last := started[..|started| - 1], started[|started| - 1];
    var r := Append(txs, op, prevHash);
    assert op.opIndex == 0 ==> front == txs;
    assert r[..|r| - 1] == front;
    assert (last.operations + [ROp(op)])[..|last.operations|] == last.operations;
    assert Changes(txs) == Changes(front) + OperationChanges(last.operations);
  }

  lemma {:induction false} GroupChanges(ops: seq<Op>, prevHash: Hash)
    requires Startable(ops)
    ensures Changes(Group(ops, prevHash)) == SeenEffects(OrdinaryEffects(ops))
  {
    if ops != [] {
      hide Change, ROp, EffectOf, SeenEffect;
      var n := |ops| - 1;
      GroupChanges(ops[..n], prevHash);
      AppendChanges(Group(ops[..n], prevHash), ops[n], prevHash);
      ChangeIsEffect(ops[n]);
      SeenSnoc(OrdinaryEffects(ops[..n]), EffectOf(ops[n]));
    }
  }

  lemma ServedIsSeen(n: Node, h: Hash)
    requires InNode(n, h) && Height(n, h) > 0 && Translation(n, h).err.None?
    ensures ServedChanges(n, h) == SeenEffects(BlockEffects(n, h))
  {
    hide BlockEmission, BlockToRosetta, Group, Changes, OrdinaryEffects, ValidNode, Startable;
    var p := Parent(n, h);
    var prev := Some(n.blocks[p]);
    ServedIsTranslation(n, h, prev);
    GroupBlock(n.accountOf, n.txs, n.blocks[h], prev, p);
    GroupChanges(Translation(n, h).ops, p);
  }

  /* ----- Trees are determined ----- */

  /** The tree a transaction belongs to, by its type. */
  function TreeOf(tx: Tx): Int8 {
    if tx.txType.Regular? then TREE_REGULAR else TREE_STAKE
  }

  /** Consensus: blocks hold transactions in the tree of their type, and inputs name the tree of what they spend. */
  ghost predicate TreesMatch(n: Node) {
    && (forall h, i | h in n.blocks && 0 <= i < |n.blocks[h].txs| :: TreeOf(n.blocks[h].txs[i]) == TREE_REGULAR)
    && (forall h, i | h in n.blocks && 0 <= i < |n.blocks[h].stxs| :: TreeOf(n.blocks[h].stxs[i]) == TREE_STAKE)
    && (forall h, i | h in n.txs && 0 <= i < |n.txs[h].ins| ::
          var o := n.txs[h].ins[i].prevOut; o.hash in n.txs ==> o.tree == TreeOf(n.txs[o.hash]))
  }

  ghost predicate RightTree(txs: map<Hash, Tx>, o: OutPoint) {
    o.hash in txs && o.tree == TreeOf(txs[o.hash])
  }

  /** Every op belongs to a transaction of the index, in the tree of its type. */
  ghost predicate InTree(txs: map<Hash, Tx>, ops: seq<Op>) {
    forall i | 0 <= i < |ops| :: Known(txs, [ops[i].ctx.tx]) && ops[i].ctx.tree == TreeOf(ops[i].ctx.tx)
  }

  lemma {:induction false} TxsInTree(accountOf: AccountOf, txs: map<Hash, Tx>, tree: Int8, status: OpStatus,
      list: seq<Tx>)
    requires Known(txs, list) && forall i | 0 <= i < |list| :: TreeOf(list[i]) == tree
    ensures InTree(txs, TxsEmission(accountOf, txs, tree, status, list).ops)
  {
    if list != [] {
      var n := |list| - 1;
      TxsInTree(accountOf, txs, tree, status, list[..n]);
      assert list[n] in list && Known(txs, [list[n]]);
      hide TxEmission, Known;
      TxEmissionOneTx(accountOf, txs, TxContext(tree, status, list[n], n));
    }
  }

  lemma ThenInTree(txs: map<Hash, Tx>, x: Emission, y: Emission)
    requires InTree(txs, x.ops) && InTree(txs, y.ops)
    ensures InTree(txs, Then(x, y).ops)
  {
  }

  lemma BlockInTree(n: Node, h: Hash)
    requires InNode(n, h) && Height(n, h) > 0 && TreesMatch(n)
    ensures InTree(n.txs, Translation(n, h).ops)
  {
    hide TxsEmission, InTree;
    var b := n.blocks[h];
    var regular := TxsEmission(n.accountOf, n.txs, TREE_REGULAR, Success, b.txs);
    var stake := TxsEmission(n.accountOf, n.txs, TREE_STAKE, Success, b.stxs);
    var prev := n.blocks[Parent(n, h)];
    var undone := TxsEmission(n.accountOf, n.txs, TREE_REGULAR, Reversed, prev.txs);
    TxsInTree(n.accountOf, n.txs, TREE_REGULAR, Success, b.txs);
    TxsInTree(n.accountOf, n.txs, TREE_STAKE, Success, b.stxs);
    TxsInTree(n.accountOf, n.txs, TREE_REGULAR, Reversed, prev.txs);
    NothingInTree(n.txs);
    ThenInTree(n.txs, undone, regular);
    ThenInTree(n.txs, NOTHING, regular);
    ThenInTree(n.txs, Then(undone, regular), stake);
    ThenInTree(n.txs, Then(NOTHING, regular), stake);
  }

  lemma NothingInTree(txs: map<Hash, Tx>)
    ensures InTree(txs, [])
  {
  }

  ghost predicate EffectsRight(txs: map<Hash, Tx>, es: seq<Effect>) {
    forall i | 0 <= i < |es| :: RightTree(txs, es[i].coin.outpoint)
  }

  lemma OpRight(n: Node, op: Op)
    requires TreesMatch(n) && RealOp(n.txs, op) && Known(n.txs, [op.ctx.tx]) && op.ctx.tree == TreeOf(op.ctx.tx)
    requires op.account != TREASURY
    ensures RightTree(n.txs, OutPointOf(op))
  {
    assert op.ctx.tx in [op.ctx.tx];
  }

  lemma {:induction false} OpsRight(n: Node, ops: seq<Op>)
    requires TreesMatch(n) && RealOps(n.txs, ops) && InTree(n.txs, ops)
    ensures EffectsRight(n.txs, OrdinaryEffects(ops))
  {
    if ops != [] {
      hide RealOp, TreesMatch, RightTree, Known;
      var m := |ops| - 1;
      OpsRight(n, ops[..m]);
      if ops[m].account != TREASURY {
        OpRight(n, ops[m]);
      }
    }
  }

  /** All ordinary effects of a block name their coins with the right tree. */
  lemma BlockRight(n: Node, h: Hash)
    requires InNode(n, h) && Height(n, h) > 0 && TreesMatch(n)
    ensures EffectsRight(n.txs, BlockEffects(n, h))
  {
    var prev := if Height(n, h) > 1 then Some(n.blocks[Parent(n, h)]) else None;
    BlockOpsReal(n.accountOf, n.txs, n.blocks[h], prev);
    BlockInTree(n, h);
    hide BlockEmission, RealOps, InTree, OrdinaryEffects, EffectsRight, TreesMatch, Known, ValidNode;
    OpsRight(n, Translation(n, h).ops);
  }

  /* ----- The client's wallet ----- */

  /** The wallet holds exactly the coins of u, seen without their trees, and no two of them look alike. */
  ghost predicate Tracks(w: Wallet, u: Utxos, txs: map<Hash, Tx>) {
    && (forall c | c in u :: RightTree(txs, c.outpoint) && Seen(c) in w && w[Seen(c)] == u[c])
    && (forall k | k in w :: exists c :: c in u && Seen(c) == k)
  }

  lemma SeenOnce(c: Coin, d: Coin, txs: map<Hash, Tx>)
    requires RightTree(txs, c.outpoint) && RightTree(txs, d.outpoint) && Seen(c) == Seen(d)
    ensures c == d
  {
  }

  lemma TrackKeeps(w: Wallet, u: Utxos, txs: map<Hash, Tx>, e: Effect)
    requires Tracks(w, u, txs) && RightTree(txs, e.coin.outpoint)
    ensures Tracks(Track(w, SeenEffect(e)), Apply(u, e), txs)
  {
    hide RightTree;
    var w', u' := Track(w, SeenEffect(e)), Apply(u, e);
    forall c | c in u' ensures RightTree(txs, c.outpoint) && Seen(c) in w' && w'[Seen(c)] == u'[c] {
      if c != e.coin {
        assert c in u;
        if Seen(c) == Seen(e.coin) {
          SeenOnce(c, e.coin, txs);
        }
      }
    }
    forall k | k in w' ensures exists c :: c in u' && Seen(c) == k {
      if e.adds && k == Seen(e.coin) {
        assert e.coin in u';
      } else {
        var c :| c in u && Seen(c) == k;
        assert c in u';
      }
    }
  }

  lemma {:induction false} TrackAllKeeps(w: Wallet, u: Utxos, txs: map<Hash, Tx>, es: seq<Effect>)
    requires Tracks(w, u, txs) && EffectsRight(txs, es)
    ensures Tracks(TrackAll(w, SeenEffects(es)), ApplyAll(u, es), txs)
  {
    if es != [] {
      hide Tracks, RightTree, SeenEffect, Track, Apply;
      var n := |es| - 1;
      TrackAllKeeps(w, u, txs, es[..n]);
      TrackKeeps(TrackAll(w, SeenEffects(es[..n])), ApplyAll(u, es[..n]), txs, es[n]);
      assert SeenEffects(es)[..n] == SeenEffects(es[..n]);
    }
  }

  /** Replaying served blocks tracks the coins of the chain. */
  lemma {:induction false} ReplayTracks(n: Node, h: Hash)
    requires InNode(n, h) && Processable(n, h) && TreesMatch(n)
    ensures Tracks(ReplayTo(n, h), UtxosTo(n, h), n.txs)
    decreases Height(n, h)
  {
    if Height(n, h) > 0 {
      hide Translation, BlockEffects, Tracks, TreesMatch, ValidNode, TrackAll, ApplyAll, ServedChanges;
      ReplayTracks(n, Parent(n, h));
      ServedIsSeen(n, h);
      BlockRight(n, h);
      TrackAllKeeps(ReplayTo(n, Parent(n, h)), UtxosTo(n, Parent(n, h)), n.txs, BlockEffects(n, h));
    }
  }

  /** The wallet's coins of an account correspond one to one, with equal amounts, to a listing of its outputs. */
  ghost predicate Corresponds(w: Wallet, list: map<OutPoint, int>, a: Account) {
    && (forall o | o in list :: ClientCoin(a, IdOf(o)) in w && w[ClientCoin(a, IdOf(o))] == list[o])
    && (forall k | k in w && k.account == a :: exists o :: o in list && IdOf(o) == k.id)
    && (forall o, p | o in list && p in list && IdOf(o) == IdOf(p) :: o == p)
  }

  lemma TracksCorresponds(w: Wallet, u: Utxos, txs: map<Hash, Tx>, a: Account)
    requires Tracks(w, u, txs)
    ensures Corresponds(w, ListUtxos(u, a), a)
  {
    hide RightTree;
    var list := ListUtxos(u, a);
    assert forall o :: o in list <==> Coin(a, o) in u;
    forall o | o in list ensures ClientCoin(a, IdOf(o)) in w && w[ClientCoin(a, IdOf(o))] == list[o] {
      assert Seen(Coin(a, o)) == ClientCoin(a, IdOf(o));
    }
    forall k | k in w && k.account == a ensures exists o :: o in list && IdOf(o) == k.id {
      var c :| c in u && Seen(c) == k;
      assert c == Coin(a, c.outpoint) && c.outpoint in list;
    }
    forall o, p | o in list && p in list && IdOf(o) == IdOf(p) ensures o == p {
      SeenOnce(Coin(a, o), Coin(a, p), txs);
    }
  }

  /**
   * Coin reconciliation: if the blocks rolled back so far rewind, the stored outputs of an account correspond one to
   * one
   * to the coins a client tracks from the served blocks, although identifiers lack the tree.
   */
  lemma ServedCoinsReconcile(n: Node, db: Db, t: Hash, moves: seq<Move>, a: Account)
    requires OnChain(n, db, t, moves) && AllRewind(n, moves) && TreesMatch(n) && a != TREASURY
    ensures Corresponds(ReplayTo(n, t), ListUtxos(db.utxos, a), a)
  {
    hide ListUtxos, AllRewind, Tracks, Corresponds, TreesMatch, Moved;
    ReplayTracks(n, t);
    TracksCorresponds(ReplayTo(n, t), UtxosTo(n, t), n.txs, a);
    OrdinaryTotal(db.utxos, a);
  }
}
