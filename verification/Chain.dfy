/** The block tree a node serves, and the database state that belongs to each of its blocks. */
module Chain {
  import opened Prelude
  import opened Wire
  import opened BlockOps
  import opened Coins
  import opened BackendDb
  import Rosetta

  /** What the node knows: blocks by hash, transactions by hash, its genesis block and its address format. */
  datatype Node = Node(blocks: map<Hash, Block>, txs: map<Hash, Tx>, genesis: Hash, accountOf: AccountOf)

  /**
   * Every block but genesis extends another one by one height; heights fit 32 bits; every transaction is indexed, and
   * none spends its own output, since a hash commits to the inputs.
   */
  ghost predicate ValidNode(n: Node) {
    && n.genesis in n.blocks
    && n.blocks[n.genesis].height == 0
    && n.blocks[n.genesis].prevBlock !in n.blocks
    && ZERO_HASH !in n.blocks
    && (forall h | h in n.blocks && h != n.genesis ::
          && n.blocks[h].prevBlock in n.blocks
          && n.blocks[h].height == n.blocks[n.blocks[h].prevBlock].height + 1)
    && (forall h | h in n.blocks :: n.blocks[h].height < TWO_32 - 1)
    && (forall h | h in n.blocks :: Known(n.txs, n.blocks[h].txs) && Known(n.txs, n.blocks[h].stxs))
    && (forall h, i | h in n.txs && 0 <= i < |n.txs[h].ins| :: n.txs[h].ins[i].prevOut.hash != h)
  }

  ghost predicate InNode(n: Node, h: Hash) {
    ValidNode(n) && h in n.blocks
  }

  ghost function Height(n: Node, h: Hash): (r: nat)
    requires InNode(n, h)
    ensures r == 0 <==> h == n.genesis
  {
    n.blocks[h].height
  }

  ghost function Parent(n: Node, h: Hash): (r: Hash)
    requires InNode(n, h) && Height(n, h) > 0
    ensures InNode(n, r) && Height(n, r) == Height(n, h) - 1
  {
    n.blocks[h].prevBlock
  }

  /** The block of h's chain at a given height. */
  ghost function Ancestor(n: Node, h: Hash, i: nat): (r: Hash)
    requires InNode(n, h) && i <= Height(n, h)
    ensures InNode(n, r) && Height(n, r) == i
    decreases Height(n, h)
  {
    if i == Height(n, h) then h else Ancestor(n, Parent(n, h), i)
  }

  /** The operations of block h; the first block after genesis has no parent to reverse. */
  ghost function Translation(n: Node, h: Hash): Emission
    requires InNode(n, h)
  {
    BlockEmission(n.accountOf, n.txs, n.blocks[h],
                  if Height(n, h) > 1 then Some(n.blocks[Parent(n, h)]) else None)
  }

  /** All blocks from height 1 to h can be translated into operations. */
  ghost predicate Processable(n: Node, h: Hash)
    requires InNode(n, h)
    decreases Height(n, h)
  {
    Height(n, h) == 0 || (Translation(n, h).err.None? && Processable(n, Parent(n, h)))
  }

  /** The sum of all operations on an account from height 1 to h. */
  ghost function TotalTo(n: Node, h: Hash, a: Account): int
    requires InNode(n, h)
    decreases Height(n, h)
  {
    if Height(n, h) == 0 then 0 else TotalTo(n, Parent(n, h), a) + OpSum(Translation(n, h).ops, a)
  }

  /** The balances a block changes, accumulated op by op from the balances before it. */
  function Changed(balances: Balances, height: int, ops: seq<Op>): map<Account, int> {
    if ops == [] then map[] else
      var changed, op := Changed(balances, height, ops[..|ops| - 1]), ops[|ops| - 1];
      var last := if op.account in changed then changed[op.account] else Balance(balances, op.account, height - 1);
      changed[op.account := last + op.amount]
  }

  ghost function BalancesTo(n: Node, h: Hash): Balances
    requires InNode(n, h)
    decreases Height(n, h)
  {
    if Height(n, h) == 0 then map[] else
      var before := BalancesTo(n, Parent(n, h));
      before + NewEntries(Changed(before, Height(n, h), Translation(n, h).ops), Height(n, h))
  }

  ghost function ProcessedTo(n: Node, h: Hash): map<int, Hash>
    requires InNode(n, h)
    decreases Height(n, h)
  {
    if Height(n, h) == 0 then map[] else ProcessedTo(n, Parent(n, h))[Height(n, h) := h]
  }

  /** The unspent outputs of the ordinary accounts. */
  ghost function UtxosTo(n: Node, h: Hash): Utxos
    requires InNode(n, h)
    decreases Height(n, h)
  {
    if Height(n, h) == 0 then map[]
    else ApplyAll(UtxosTo(n, Parent(n, h)), BlockEffects(n, h))
  }

  /** The effects of block h on the coins of ordinary accounts. */
  ghost function BlockEffects(n: Node, h: Hash): seq<Effect>
    requires InNode(n, h)
  {
    OrdinaryEffects(Translation(n, h).ops)
  }

  /** Rolling back block h right after connecting it would restore the coins its parent left. */
  ghost predicate Rewinds(n: Node, h: Hash)
    requires InNode(n, h) && Height(n, h) > 0
  {
    var u, es := UtxosTo(n, Parent(n, h)), BlockEffects(n, h);
    ApplyAll(ApplyAll(u, es), Undos(es)) == u
  }

  /** One step of a run: a block that was connected, or rolled back. */
  datatype Move = Up(block: Hash) | Down(block: Hash)

  ghost predicate MovesIn(n: Node, moves: seq<Move>) {
    forall i | 0 <= i < |moves| :: InNode(n, moves[i].block)
  }

  /** The coins of all accounts after a run, played and undone op by op. */
  ghost function Moved(n: Node, moves: seq<Move>): Utxos
    requires MovesIn(n, moves)
  {
    if moves == [] then map[] else
      var m := moves[|moves| - 1];
      var es := Effects(Translation(n, m.block).ops);
      ApplyAll(Moved(n, moves[..|moves| - 1]), if m.Up? then es else Undos(es))
  }

  lemma MovedSnoc(n: Node, moves: seq<Move>, m: Move)
    requires MovesIn(n, moves) && InNode(n, m.block)
    ensures MovesIn(n, moves + [m])
    ensures var es := Effects(Translation(n, m.block).ops);
            Moved(n, moves + [m]) == ApplyAll(Moved(n, moves), if m.Up? then es else Undos(es))
  {
    hide Translation, ValidNode, ApplyAll, Effects, Undos;
    assert (moves + [m])[..|moves|] == moves;
  }

  /** A run that never rolls back. */
  ghost predicate Forward(moves: seq<Move>) {
    forall i | 0 <= i < |moves| :: moves[i].Up?
  }

  /** Every block that the run rolled back rewinds. */
  ghost predicate AllRewind(n: Node, moves: seq<Move>) {
    forall i | 0 <= i < |moves| && moves[i].Down? ::
      InNode(n, moves[i].block) && Height(n, moves[i].block) > 0 && Rewinds(n, moves[i].block)
  }

  lemma AllRewindSnoc(n: Node, moves: seq<Move>, m: Move)
    ensures AllRewind(n, moves + [m]) <==>
            AllRewind(n, moves) && (m.Down? ==> InNode(n, m.block) && Height(n, m.block) > 0 && Rewinds(n, m.block))
  {
    hide ValidNode, Rewinds;
    var l := moves + [m];
    assert l[|moves|] == m && forall i | 0 <= i < |moves| :: l[i] == moves[i];
  }

  /**
   * db is the outcome of processing the chain that ends in t, and nothing else. Only its coins remember a history:
   * they are those of all moves of the run, and the chain's own coins if every block that was rolled back rewinds.
   */
  ghost predicate OnChain(n: Node, db: Db, t: Hash, moves: seq<Move>): (r: bool)
    ensures r ==> InNode(n, t) && Processable(n, t) && db.tipHeight == Height(n, t)
    ensures r ==> db.tipHash == if Height(n, t) == 0 then ZERO_HASH else t
    ensures r && Height(n, t) > 0 ==> Translation(n, t).err.None?
  {
    && InNode(n, t)
    && Processable(n, t)
    && db.tipHeight == Height(n, t)
    && db.tipHash == (if Height(n, t) == 0 then ZERO_HASH else t)
    && db.processed == ProcessedTo(n, t)
    && db.balances == BalancesTo(n, t)
    && MovesIn(n, moves)
    && db.utxos == Moved(n, moves)
    && (AllRewind(n, moves) ==> Ordinary(db.utxos) == UtxosTo(n, t))
  }

  /* ----- What the fold means ----- */

  lemma {:induction false} ChangedIsFold(balances: Balances, height: int, ops: seq<Op>, a: Account)
    ensures a in Changed(balances, height, ops) ==>
              Changed(balances, height, ops)[a] == Balance(balances, a, height - 1) + OpSum(ops, a)
    ensures a !in Changed(balances, height, ops) ==> OpSum(ops, a) == 0
  {
    if ops != [] {
      ChangedIsFold(balances, height, ops[..|ops| - 1], a);
    }
  }

  lemma {:induction false} ProcessedToIs(n: Node, h: Hash)
    requires InNode(n, h)
    ensures forall i :: i in ProcessedTo(n, h) <==> 1 <= i <= Height(n, h)
    ensures forall i | 1 <= i <= Height(n, h) :: ProcessedTo(n, h)[i] == Ancestor(n, h, i)
    decreases Height(n, h)
  {
    if Height(n, h) > 0 {
      ProcessedToIs(n, Parent(n, h));
    }
  }

  lemma {:induction false} BalancesToHeights(n: Node, h: Hash)
    requires InNode(n, h)
    ensures forall e | e in BalancesTo(n, h) :: 1 <= e.height <= Height(n, h)
    decreases Height(n, h)
  {
    if Height(n, h) > 0 {
      BalancesToHeights(n, Parent(n, h));
    }
  }

  /** At the tip's height a balance is the sum of all operations so far. */
  lemma {:induction false} BalanceAtTip(n: Node, h: Hash, a: Account)
    requires InNode(n, h)
    ensures Balance(BalancesTo(n, h), a, Height(n, h)) == TotalTo(n, h, a)
    decreases Height(n, h)
  {
    hide BlockEmission;
    var height := Height(n, h);
    if height == 0 {
      BalanceIsZero(BalancesTo(n, h), a, 0);
    } else {
      var p := Parent(n, h);
      var before, ops := BalancesTo(n, p), Translation(n, h).ops;
      BalanceAtTip(n, p, a);
      ChangedIsFold(before, height, ops, a);
      BalancesToHeights(n, p);
      BalanceStored(before, Changed(before, height, ops), height, a);
    }
  }

  /** At every height, the balance is the sum of all operations up to that height of the chain. */
  lemma {:induction false} BalanceAtHeight(n: Node, h: Hash, a: Account, x: nat)
    requires InNode(n, h)
    ensures Balance(BalancesTo(n, h), a, x) ==
            TotalTo(n, if x <= Height(n, h) then Ancestor(n, h, x) else h, a)
    decreases Height(n, h)
  {
    hide BlockEmission;
    var height := Height(n, h);
    BalancesToHeights(n, h);
    BalanceAtTip(n, h, a);
    if x >= height {
      BalanceSettles(BalancesTo(n, h), a, height, x);
    } else {
      var p := Parent(n, h);
      BalanceAtHeight(n, p, a, x);
      BalancesToHeights(n, p);
      BalanceAgrees(BalancesTo(n, h), BalancesTo(n, p), a, x);
    }
  }

  lemma {:induction false} AncestorAncestor(n: Node, h: Hash, i: nat, j: nat)
    requires InNode(n, h) && j <= i <= Height(n, h)
    ensures Ancestor(n, Ancestor(n, h, i), j) == Ancestor(n, h, j)
    decreases Height(n, h)
  {
    if i < Height(n, h) {
      AncestorAncestor(n, Parent(n, h), i, j);
    }
  }

  lemma {:induction false} AncestorProcessable(n: Node, h: Hash, i: nat)
    requires InNode(n, h) && i <= Height(n, h) && Processable(n, h)
    ensures Processable(n, Ancestor(n, h, i))
    decreases Height(n, h)
  {
    if i < Height(n, h) {
      AncestorProcessable(n, Parent(n, h), i);
    }
  }

  /** Everything the server can be asked about is determined by the tip alone, not by how it was reached. */
  lemma HistoryIndependence(n: Node, x: Db, y: Db, t: Hash, movesX: seq<Move>, movesY: seq<Move>)
    requires OnChain(n, x, t, movesX) && OnChain(n, y, t, movesY)
    ensures x.tipHash == y.tipHash && x.tipHeight == y.tipHeight
    ensures x.processed == y.processed && x.balances == y.balances
    ensures AllRewind(n, movesX) && AllRewind(n, movesY) ==> Ordinary(x.utxos) == Ordinary(y.utxos)
    ensures forall i :: i in x.processed <==> 1 <= i <= Height(n, t)
    ensures forall i | 1 <= i <= Height(n, t) :: x.processed[i] == Ancestor(n, t, i)
    ensures forall a, i: nat | i <= Height(n, t) :: Balance(x.balances, a, i) == TotalTo(n, Ancestor(n, t, i), a)
    ensures forall a, i: nat | i > Height(n, t) :: Balance(x.balances, a, i) == TotalTo(n, t, a)
  {
    hide BlockEmission;
    ProcessedToIs(n, t);
    forall a, i: nat {
      BalanceAtHeight(n, t, a, i);
    }
  }

  lemma OnChainConsistent(n: Node, db: Db, t: Hash, moves: seq<Move>)
    requires OnChain(n, db, t, moves)
    ensures Consistent(db)
  {
    ProcessedToIs(n, t);
    BalancesToHeights(n, t);
  }

  /** Between consecutive heights a balance moves by the operations of the block in between. */
  lemma BalanceMoves(n: Node, db: Db, t: Hash, moves: seq<Move>, a: Account, i: nat)
    requires OnChain(n, db, t, moves) && 1 <= i <= Height(n, t)
    ensures var moved := Translation(n, Ancestor(n, t, i));
            && moved.err.None?
            && Balance(db.balances, a, i) - Balance(db.balances, a, i - 1) == OpSum(moved.ops, a)
  {
    hide BlockEmission, Translation, Balance, OpSum, BalancesTo, ProcessedTo, UtxosTo, AllRewind;
    BalanceAtHeight(n, t, a, i);
    BalanceAtHeight(n, t, a, i - 1);
    AncestorAncestor(n, t, i, i - 1);
    AncestorProcessable(n, t, i);
  }

  /** Reconciliation: served blocks explain exactly the balance changes between consecutive heights. */
  lemma RosettaReconciles(n: Node, db: Db, t: Hash, moves: seq<Move>, a: Account, i: nat, prev: Option<Block>,
                          prevHash: Hash)
    requires OnChain(n, db, t, moves) && 1 <= i <= Height(n, t) && ServedWith(n, Ancestor(n, t, i), prev)
    ensures var h := Ancestor(n, t, i);
            && BlockEmission(n.accountOf, n.txs, n.blocks[h], prev).err.None?
            && Balance(db.balances, a, i) - Balance(db.balances, a, i - 1) ==
                 Rosetta.TransactionSum(Rosetta.BlockToRosetta(n.accountOf, n.txs, n.blocks[h], prev, prevHash), a)
  {
    hide BlockEmission, OnChain, Balance, OpSum, Ancestor, Rosetta.Group, Rosetta.BlockToRosetta, ServedWith;
    var h := Ancestor(n, t, i);
    BalanceMoves(n, db, t, moves, a, i);
    ServedIsTranslation(n, h, prev);
    Rosetta.GroupBlock(n.accountOf, n.txs, n.blocks[h], prev, prevHash);
    Rosetta.GroupSum(Translation(n, h).ops, prevHash, a);
  }

  /** A block is served together with its parent if it disapproves it; otherwise the parent does not matter. */
  ghost predicate ServedWith(n: Node, h: Hash, prev: Option<Block>)
    requires InNode(n, h) && Height(n, h) > 0
  {
    ApprovesParent(n.blocks[h].voteBits) || prev == Some(n.blocks[Parent(n, h)])
  }

  /** Served blocks and stored balances come from the same operations. */
  lemma ServedIsTranslation(n: Node, h: Hash, prev: Option<Block>)
    requires InNode(n, h) && Height(n, h) > 0 && ServedWith(n, h, prev) && Translation(n, h).err.None?
    ensures BlockEmission(n.accountOf, n.txs, n.blocks[h], prev) == Translation(n, h)
  {
    hide TxsEmission;
  }

  /* ----- Coins along a chain ----- */

  lemma EffectsPriced(n: Node, h: Hash)
    requires InNode(n, h)
    ensures PricedEffects(BlockEffects(n, h), PriceOf(n.txs))
  {
    BlockOpsReal(n.accountOf, n.txs, n.blocks[h],
                 if Height(n, h) > 1 then Some(n.blocks[Parent(n, h)]) else None);
    RealOpsPriced(n.txs, Translation(n, h).ops);
  }

  lemma {:induction false} UtxosToPriced(n: Node, h: Hash)
    requires InNode(n, h)
    ensures PricedUtxos(UtxosTo(n, h), PriceOf(n.txs))
    decreases Height(n, h)
  {
    if Height(n, h) > 0 {
      hide Translation, ValidNode;
      UtxosToPriced(n, Parent(n, h));
      EffectsPriced(n, h);
      ApplyAllPriced(UtxosTo(n, Parent(n, h)), BlockEffects(n, h), PriceOf(n.txs));
    }
  }

  /** A playable block rewinds exactly when no coin is touched a positive, even number of times. */
  lemma BlockUndoRestores(n: Node, h: Hash)
    requires InNode(n, h) && Height(n, h) > 0 && Playable(UtxosTo(n, Parent(n, h)), BlockEffects(n, h))
    ensures Rewinds(n, h) <==> UndoSafe(BlockEffects(n, h))
  {
    hide ValidNode;
    UtxosToPriced(n, Parent(n, h));
    EffectsPriced(n, h);
    UndoRestores(UtxosTo(n, Parent(n, h)), BlockEffects(n, h), PriceOf(n.txs));
  }

  /** The ops of every block up to h, reversals included, spend what is unspent and create what is new. */
  ghost predicate PlayableTo(n: Node, h: Hash)
    requires InNode(n, h)
    decreases Height(n, h)
  {
    Height(n, h) > 0 ==>
      && PlayableTo(n, Parent(n, h))
      && Playable(UtxosTo(n, Parent(n, h)), BlockEffects(n, h))
  }

  lemma {:induction false} UtxosConserve(n: Node, h: Hash, a: Account)
    requires InNode(n, h) && PlayableTo(n, h) && a != TREASURY
    ensures Total(UtxosTo(n, h), a) == TotalTo(n, h, a)
    decreases Height(n, h)
  {
    if Height(n, h) == 0 {
      assert ListUtxos(UtxosTo(n, h), a) == map[];
    } else {
      UtxosConserve(n, Parent(n, h), a);
      PlayableConserves(UtxosTo(n, Parent(n, h)), Translation(n, h).ops, a);
    }
  }

  /** Conservation: an ordinary account's balance at the tip is the sum of its listed unspent outputs. */
  lemma TipConservation(n: Node, db: Db, t: Hash, moves: seq<Move>, a: Account)
    requires OnChain(n, db, t, moves) && AllRewind(n, moves) && PlayableTo(n, t) && a != TREASURY
    ensures Balance(db.balances, a, db.tipHeight) == Sum(ListUtxos(db.utxos, a))
  {
    BalanceAtTip(n, t, a);
    UtxosConserve(n, t, a);
    OrdinaryTotal(db.utxos, a);
  }

  /* ----- One block forward, one block back ----- */

  lemma EmptyOnChain(n: Node)
    requires ValidNode(n)
    ensures OnChain(n, EMPTY, n.genesis, [])
  {
    assert Ordinary(map[]) == map[];
  }

  /** What processing block h does to a database. */
  ghost function Connected(n: Node, db: Db, h: Hash): Db
    requires InNode(n, h) && Height(n, h) > 0
  {
    var ops, height := Translation(n, h).ops, Height(n, h);
    Db(h, height, db.processed[height := h], db.balances + NewEntries(Changed(db.balances, height, ops), height),
       ApplyAll(db.utxos, Effects(ops)))
  }

  lemma ConnectedOnChain(n: Node, db: Db, h: Hash, moves: seq<Move>)
    requires InNode(n, h) && Height(n, h) > 0 && OnChain(n, db, Parent(n, h), moves) && Translation(n, h).err.None?
    ensures OnChain(n, Connected(n, db, h), h, moves + [Up(h)])
  {
    hide BlockEmission, Translation, Changed, NewEntries, ApplyAll, Effects, Ordinary, AllRewind, Moved;
    MovedSnoc(n, moves, Up(h));
    AllRewindSnoc(n, moves, Up(h));
    OrdinaryEvolves(db.utxos, Translation(n, h).ops);
  }

  /** Every chain that can be translated is reached by connecting its blocks. */
  lemma {:induction false} Reach(n: Node, h: Hash) returns (db: Db, moves: seq<Move>)
    requires InNode(n, h) && Processable(n, h)
    ensures OnChain(n, db, h, moves) && Forward(moves)
    decreases Height(n, h)
  {
    hide OnChain, Translation, ValidNode;
    if Height(n, h) == 0 {
      EmptyOnChain(n);
      db, moves := EMPTY, [];
    } else {
      var below, path := Reach(n, Parent(n, h));
      ConnectedOnChain(n, below, h, path);
      db, moves := Connected(n, below, h), path + [Up(h)];
    }
  }

  /** What rolling back block t, the tip, does to a database. */
  ghost function Disconnected(n: Node, db: Db, t: Hash): Db
    requires InNode(n, t) && Height(n, t) > 1
  {
    Db(Parent(n, t), db.tipHeight - 1, db.processed - {db.tipHeight}, WithoutHeight(db.balances, db.tipHeight),
       ApplyAll(db.utxos, Undos(Effects(Translation(n, t).ops))))
  }

  lemma DisconnectedCoins(n: Node, db: Db, t: Hash, moves: seq<Move>)
    requires OnChain(n, db, t, moves) && Height(n, t) > 1 && AllRewind(n, moves) && Rewinds(n, t)
    ensures Ordinary(Disconnected(n, db, t).utxos) == UtxosTo(n, Parent(n, t))
  {
    hide Translation, AllRewind, ApplyAll, Undos, Effects;
    OrdinaryUndoes(db.utxos, Translation(n, t).ops);
  }

  lemma ProcessedUndone(n: Node, t: Hash)
    requires InNode(n, t) && Height(n, t) > 0
    ensures ProcessedTo(n, t) - {Height(n, t)} == ProcessedTo(n, Parent(n, t))
  {
    ProcessedToIs(n, Parent(n, t));
  }

  lemma BalancesUndone(n: Node, t: Hash)
    requires InNode(n, t) && Height(n, t) > 0
    ensures WithoutHeight(BalancesTo(n, t), Height(n, t)) == BalancesTo(n, Parent(n, t))
  {
    var before, height := BalancesTo(n, Parent(n, t)), Height(n, t);
    BalancesToHeights(n, Parent(n, t));
    NewEntriesRemoved(before, Changed(before, height, Translation(n, t).ops), height);
  }

  lemma DisconnectedOnChain(n: Node, db: Db, t: Hash, moves: seq<Move>)
    requires OnChain(n, db, t, moves) && Height(n, t) > 1
    ensures OnChain(n, Disconnected(n, db, t), Parent(n, t), moves + [Down(t)])
  {
    hide BlockEmission, Translation, Rewinds, AllRewind, Moved, ApplyAll, Effects, Undos, ValidNode;
    ProcessedUndone(n, t);
    BalancesUndone(n, t);
    MovedSnoc(n, moves, Down(t));
    AllRewindSnoc(n, moves, Down(t));
    if AllRewind(n, moves + [Down(t)]) {
      DisconnectedCoins(n, db, t, moves);
    }
  }
}
