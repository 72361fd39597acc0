/**
 * The coins that consensus rules give every block, defined without regard to the order in which operations are
 * emitted, and exactly when the server's lists agree with them.
 */
module Consensus {
  import opened Prelude
  import opened Wire
  import opened BlockOps
  import opened Coins
  import opened BackendDb
  import opened Chain
  import opened Reversal

  /** Block h takes back its parent's regular transactions. */
  ghost predicate Disapproves(n: Node, h: Hash)
    requires InNode(n, h)
  {
    Height(n, h) > 1 && !ApprovesParent(n.blocks[h].voteBits)
  }

  /** The ops with which block h reverses its parent's regular transactions. */
  ghost function ReversedPart(n: Node, h: Hash): seq<Op>
    requires InNode(n, h)
  {
    if Disapproves(n, h) then
      TxsEmission(n.accountOf, n.txs, TREE_REGULAR, Reversed, n.blocks[Parent(n, h)].txs).ops
    else []
  }

  ghost function RegularPart(n: Node, h: Hash): seq<Op>
    requires InNode(n, h)
  {
    TxsEmission(n.accountOf, n.txs, TREE_REGULAR, Success, n.blocks[h].txs).ops
  }

  ghost function StakePart(n: Node, h: Hash): seq<Op>
    requires InNode(n, h)
  {
    TxsEmission(n.accountOf, n.txs, TREE_STAKE, Success, n.blocks[h].stxs).ops
  }

  ghost function ReversedEffects(n: Node, h: Hash): seq<Effect>
    requires InNode(n, h)
  {
    OrdinaryEffects(ReversedPart(n, h))
  }

  ghost function RegularEffects(n: Node, h: Hash): seq<Effect>
    requires InNode(n, h)
  {
    OrdinaryEffects(RegularPart(n, h))
  }

  ghost function StakeEffects(n: Node, h: Hash): seq<Effect>
    requires InNode(n, h)
  {
    OrdinaryEffects(StakePart(n, h))
  }

  /** The effects of block h's own transactions. */
  ghost function OwnEffects(n: Node, h: Hash): seq<Effect>
    requires InNode(n, h)
  {
    RegularEffects(n, h) + StakeEffects(n, h)
  }

  /* ----- The ledger of consensus ----- */

  /** The coins block h builds on: disapproved regular transactions never happened. */
  ghost function BaseOf(n: Node, h: Hash): Utxos
    requires InNode(n, h) && Height(n, h) > 0
    decreases Height(n, h), 0
  {
    var p := Parent(n, h);
    if Disapproves(n, h) then ApplyAll(BaseOf(n, p), StakeEffects(n, p)) else LedgerTo(n, p)
  }

  /** The coins after block h. */
  ghost function LedgerTo(n: Node, h: Hash): Utxos
    requires InNode(n, h)
    decreases Height(n, h), 1
  {
    if Height(n, h) == 0 then map[] else ApplyAll(BaseOf(n, h), OwnEffects(n, h))
  }

  lemma LedgerStep(n: Node, h: Hash)
    requires InNode(n, h)
    ensures Height(n, h) == 0 ==> LedgerTo(n, h) == map[]
    ensures Height(n, h) > 0 ==> LedgerTo(n, h) == ApplyAll(BaseOf(n, h), OwnEffects(n, h))
    ensures Height(n, h) > 0 && !Disapproves(n, h) ==> BaseOf(n, h) == LedgerTo(n, Parent(n, h))
    ensures Disapproves(n, h) ==> BaseOf(n, h) == ApplyAll(BaseOf(n, Parent(n, h)), StakeEffects(n, Parent(n, h)))
  {
  }

  /**
   * Consensus: every block's own transactions spend only unspent outputs and create only new ones, and its stake
   * transactions, which a disapproval leaves alone, share no coin with its regular ones.
   */
  ghost predicate ConsensusValid(n: Node)
    requires ValidNode(n)
  {
    forall h | h in n.blocks && Height(n, h) > 0 && Processable(n, h) ::
      Playable(BaseOf(n, h), OwnEffects(n, h)) && Apart(RegularEffects(n, h), StakeEffects(n, h))
  }

  /* ----- The conditions, on the touches of one block's op list ----- */

  /** Block h touches again every coin that its parent's regular transactions touch a positive, even number of times. */
  ghost predicate Harmless(n: Node, h: Hash)
    requires InNode(n, h)
  {
    Disapproves(n, h) ==> Mends(RegularEffects(n, Parent(n, h)), OwnEffects(n, h))
  }

  ghost predicate HarmlessTo(n: Node, h: Hash)
    requires InNode(n, h)
    decreases Height(n, h)
  {
    Height(n, h) > 0 ==> HarmlessTo(n, Parent(n, h)) && Harmless(n, h)
  }

  /** Block h touches every coin of its own transactions an odd number of times, reversals of its parent included. */
  ghost predicate RollsBack(n: Node, h: Hash)
    requires InNode(n, h)
  {
    OddInAll(ReversedEffects(n, h), OwnEffects(n, h))
  }

  /** The server's coins are those of consensus at every block up to h. */
  ghost predicate AgreesTo(n: Node, h: Hash)
    requires InNode(n, h)
    decreases Height(n, h)
  {
    UtxosTo(n, h) == LedgerTo(n, h) && (Height(n, h) > 0 ==> AgreesTo(n, Parent(n, h)))
  }

  /* ----- Parts of a block ----- */

  /** A block's ops are those that reverse its parent followed by its own. */
  lemma TranslationParts(n: Node, h: Hash)
    requires InNode(n, h) && Height(n, h) > 0 && Translation(n, h).err.None?
    ensures Translation(n, h).ops == ReversedPart(n, h) + (RegularPart(n, h) + StakePart(n, h))
    ensures TxsEmission(n.accountOf, n.txs, TREE_REGULAR, Success, n.blocks[h].txs).err.None?
  {
    hide TxsEmission;
    var undone, regular, stake := ReversedPart(n, h), RegularPart(n, h), StakePart(n, h);
    assert undone + regular + stake == undone + (regular + stake);
  }

  lemma EffectParts(n: Node, h: Hash)
    requires InNode(n, h) && Height(n, h) > 0 && Translation(n, h).err.None?
    ensures BlockEffects(n, h) == ReversedEffects(n, h) + OwnEffects(n, h)
  {
    hide TxsEmission, Translation, ValidNode, OrdinaryEffects;
    TranslationParts(n, h);
    OrdinaryEffectsConcat(ReversedPart(n, h), RegularPart(n, h) + StakePart(n, h));
    OrdinaryEffectsConcat(RegularPart(n, h), StakePart(n, h));
  }

  lemma PartsPriced(n: Node, h: Hash)
    requires InNode(n, h)
    ensures PricedEffects(RegularEffects(n, h), PriceOf(n.txs)) && PricedEffects(StakeEffects(n, h), PriceOf(n.txs))
    ensures PricedEffects(ReversedEffects(n, h), PriceOf(n.txs)) && PricedEffects(OwnEffects(n, h), PriceOf(n.txs))
  {
    hide TxsEmission;
    TxsOpsReal(n.accountOf, n.txs, TREE_REGULAR, Success, n.blocks[h].txs);
    TxsOpsReal(n.accountOf, n.txs, TREE_STAKE, Success, n.blocks[h].stxs);
    RealOpsPriced(n.txs, RegularPart(n, h));
    RealOpsPriced(n.txs, StakePart(n, h));
    PricedConcat(RegularEffects(n, h), StakeEffects(n, h), PriceOf(n.txs));
    if Disapproves(n, h) {
      TxsOpsReal(n.accountOf, n.txs, TREE_REGULAR, Reversed, n.blocks[Parent(n, h)].txs);
      RealOpsPriced(n.txs, ReversedPart(n, h));
    }
  }

  lemma {:induction false} LedgerPriced(n: Node, h: Hash)
    requires InNode(n, h)
    ensures PricedUtxos(LedgerTo(n, h), PriceOf(n.txs))
    ensures Height(n, h) > 0 ==> PricedUtxos(BaseOf(n, h), PriceOf(n.txs))
    decreases Height(n, h)
  {
    if Height(n, h) > 0 {
      hide TxsEmission, ValidNode, OrdinaryEffects, OwnEffects, StakeEffects;
      var p := Parent(n, h);
      LedgerPriced(n, p);
      PartsPriced(n, p);
      PartsPriced(n, h);
      if Disapproves(n, h) {
        ApplyAllPriced(BaseOf(n, p), StakeEffects(n, p), PriceOf(n.txs));
      }
      ApplyAllPriced(BaseOf(n, h), OwnEffects(n, h), PriceOf(n.txs));
    }
  }

  /* ----- Reversing a parent ----- */

  lemma ReversalFlips(n: Node, h: Hash)
    requires InNode(n, h) && Disapproves(n, h) && Translation(n, Parent(n, h)).err.None?
    ensures Flips(RegularEffects(n, Parent(n, h)), ReversedEffects(n, h))
  {
    hide TxsEmission, History, OrdinaryEffects;
    var p := Parent(n, h);
    TranslationParts(n, p);
    forall i | 0 <= i < |n.blocks[p].txs| ensures SpendsOthers(n.blocks[p].txs[i]) {
      assert n.blocks[p].txs[i] in n.blocks[p].txs;
    }
    forall c ensures History(ReversedEffects(n, h), c) == Flipped(History(RegularEffects(n, p), c)) {
      ReversedHistory(n.accountOf, n.txs, n.blocks[p].txs, c);
    }
  }

  /**
   * The reversal is playable on the coins the parent left iff each coin it touches is touched by the parent an odd
   * number of times.
   */
  lemma ReversalFits(n: Node, h: Hash)
    requires InNode(n, h) && Disapproves(n, h) && Processable(n, h) && ConsensusValid(n)
    ensures var p := Parent(n, h);
            Playable(LedgerTo(n, p), ReversedEffects(n, h)) <==>
            forall c :: Touches(RegularEffects(n, p), c) > 0 ==>
                (Touches(RegularEffects(n, p), c) + Touches(StakeEffects(n, p), c)) % 2 == 1
  {
    hide ValidNode, Translation, RegularEffects, StakeEffects, ReversedEffects, Playable, TxsEmission, BaseOf;
    var p := Parent(n, h);
    LedgerPriced(n, p);
    PartsPriced(n, p);
    PartsPriced(n, h);
    ReversalFlips(n, h);
    ReversalPlayable(BaseOf(n, p), RegularEffects(n, p), StakeEffects(n, p), ReversedEffects(n, h), PriceOf(n.txs));
  }

  lemma Approximated(n: Node, h: Hash)
    requires InNode(n, h) && Height(n, h) > 0 && Processable(n, h) && ConsensusValid(n)
    ensures Approximates(LedgerTo(n, Parent(n, h)), ReversedEffects(n, h), BaseOf(n, h))
  {
    hide ValidNode, Translation, RegularEffects, StakeEffects, Playable, Apart, TxsEmission, Approximates;
    var p := Parent(n, h);
    if Disapproves(n, h) {
      LedgerPriced(n, p);
      PartsPriced(n, p);
      ReversalFlips(n, h);
      ReversalApproximates(BaseOf(n, p), RegularEffects(n, p), StakeEffects(n, p), ReversedEffects(n, h),
          PriceOf(n.txs));
    } else {
      NothingReversed(LedgerTo(n, p));
    }
  }

  /* ----- When the server's coins are those of consensus ----- */

  /** On coins that were right, block h leaves the right coins iff it is harmless. */
  lemma AgreesAt(n: Node, h: Hash)
    requires InNode(n, h) && Height(n, h) > 0 && Processable(n, h) && ConsensusValid(n)
    requires UtxosTo(n, Parent(n, h)) == LedgerTo(n, Parent(n, h))
    ensures UtxosTo(n, h) == LedgerTo(n, h) <==> Harmless(n, h)
  {
    hide ValidNode, Translation, ReversedEffects, RegularEffects, OwnEffects, BlockEffects, ApplyAll, BaseOf, Mends,
      ConsensusValid;
    var p := Parent(n, h);
    EffectParts(n, h);
    Approximated(n, h);
    LedgerPriced(n, p);
    LedgerPriced(n, h);
    PartsPriced(n, h);
    ReachesIff(LedgerTo(n, p), ReversedEffects(n, h), BaseOf(n, h), OwnEffects(n, h), PriceOf(n.txs));
    if Disapproves(n, h) {
      ReversalFlips(n, h);
      FlipsMends(RegularEffects(n, p), ReversedEffects(n, h), OwnEffects(n, h));
    } else {
      NothingToMend(n, h);
    }
  }

  lemma NothingToMend(n: Node, h: Hash)
    requires InNode(n, h) && !Disapproves(n, h)
    ensures Mends(ReversedEffects(n, h), OwnEffects(n, h))
  {
  }

  /** Along a chain, the server's coins are those of consensus at every block iff every block is harmless. */
  lemma {:induction false} CoinsAgree(n: Node, h: Hash)
    requires InNode(n, h) && Processable(n, h) && ConsensusValid(n)
    ensures AgreesTo(n, h) <==> HarmlessTo(n, h)
    decreases Height(n, h)
  {
    if Height(n, h) > 0 {
      hide ValidNode, Translation, Harmless, ConsensusValid;
      CoinsAgree(n, Parent(n, h));
      if AgreesTo(n, Parent(n, h)) {
        AgreesAt(n, h);
      }
    }
  }

  /**
   * On coins that were right, all of block h's ops fit, reversals included, iff its reversal touches no coin evenly.
   */
  lemma PlaysAt(n: Node, h: Hash)
    requires InNode(n, h) && Height(n, h) > 0 && Processable(n, h) && ConsensusValid(n)
    requires UtxosTo(n, Parent(n, h)) == LedgerTo(n, Parent(n, h))
    ensures Playable(UtxosTo(n, Parent(n, h)), BlockEffects(n, h)) <==> UndoSafe(ReversedEffects(n, h))
  {
    hide Translation, ReversedEffects, RegularEffects, OwnEffects, BlockEffects, BaseOf, Playable, UndoSafe;
    EffectParts(n, h);
    Approximated(n, h);
    LedgerPriced(n, Parent(n, h));
    LedgerPriced(n, h);
    PartsPriced(n, h);
    PlaysIff(LedgerTo(n, Parent(n, h)), ReversedEffects(n, h), BaseOf(n, h), OwnEffects(n, h), PriceOf(n.txs));
  }

  /** No disapproved block up to h has regular transactions that touch a coin a positive, even number of times. */
  ghost predicate ReversalsSafeTo(n: Node, h: Hash)
    requires InNode(n, h)
    decreases Height(n, h)
  {
    Height(n, h) > 0 ==>
      && ReversalsSafeTo(n, Parent(n, h))
      && (Disapproves(n, h) ==> UndoSafe(RegularEffects(n, Parent(n, h))))
  }

  lemma ReversalSafe(n: Node, h: Hash)
    requires InNode(n, h) && Height(n, h) > 0 && Processable(n, h)
    ensures UndoSafe(ReversedEffects(n, h)) <==> (Disapproves(n, h) ==> UndoSafe(RegularEffects(n, Parent(n, h))))
    ensures UndoSafe(ReversedEffects(n, h)) ==> Harmless(n, h)
  {
    hide ValidNode, Translation, RegularEffects, OwnEffects, TxsEmission;
    if Disapproves(n, h) {
      ReversalFlips(n, h);
      FlipsSafe(RegularEffects(n, Parent(n, h)), ReversedEffects(n, h));
    }
  }

  /**
   * Consensus makes every block's ops fit along a chain, reversals included, iff every disapproved block touches its
   * coins oddly; and then the server's coins are those of consensus.
   */
  lemma {:induction false} ConsensusSuffices(n: Node, h: Hash)
    requires InNode(n, h) && Processable(n, h) && ConsensusValid(n)
    ensures PlayableTo(n, h) <==> ReversalsSafeTo(n, h)
    ensures ReversalsSafeTo(n, h) ==> HarmlessTo(n, h)
    decreases Height(n, h)
  {
    if Height(n, h) > 0 {
      hide ValidNode, Translation, Harmless, ConsensusValid, UndoSafe, Playable;
      var p := Parent(n, h);
      ConsensusSuffices(n, p);
      ReversalSafe(n, h);
      if ReversalsSafeTo(n, p) {
        CoinsAgree(n, p);
        PlaysAt(n, h);
      }
    }
  }

  /** On coins that were right, connecting and rolling back block h restores them iff h touches its own coins oddly. */
  lemma RewindsAt(n: Node, h: Hash)
    requires InNode(n, h) && Height(n, h) > 0 && Processable(n, h) && ConsensusValid(n)
    requires UtxosTo(n, Parent(n, h)) == LedgerTo(n, Parent(n, h))
    ensures Rewinds(n, h) <==> RollsBack(n, h)
  {
    hide Translation, ReversedEffects, RegularEffects, OwnEffects, BlockEffects, BaseOf, Playable, ApplyAll, Undos,
      OddInAll;
    EffectParts(n, h);
    Approximated(n, h);
    LedgerPriced(n, Parent(n, h));
    LedgerPriced(n, h);
    PartsPriced(n, h);
    RewindsIff(LedgerTo(n, Parent(n, h)), ReversedEffects(n, h), BaseOf(n, h), OwnEffects(n, h), PriceOf(n.txs));
  }

  /* ----- Conservation ----- */

  lemma {:induction false} LedgerConserves(n: Node, h: Hash, a: Account)
    requires InNode(n, h) && Processable(n, h) && ConsensusValid(n) && a != TREASURY
    ensures Total(LedgerTo(n, h), a) == TotalTo(n, h, a)
    ensures Height(n, h) > 0 ==>
              Total(BaseOf(n, h), a) == TotalTo(n, Parent(n, h), a) + OpSum(ReversedPart(n, h), a)
    decreases Height(n, h)
  {
    if Height(n, h) == 0 {
      assert ListUtxos(LedgerTo(n, h), a) == map[];
    } else {
      hide TxsEmission, ValidNode, Playable, OrdinaryEffects, Apart, ApplyAll, Total, OpSum;
      var p := Parent(n, h);
      LedgerConserves(n, p, a);
      if Disapproves(n, h) {
        ReversalConserves(n, h, a);
      } else {
        NoOps(a);
      }
      TranslationParts(n, h);
      OpSumConcat(ReversedPart(n, h), RegularPart(n, h) + StakePart(n, h), a);
      OrdinaryEffectsConcat(RegularPart(n, h), StakePart(n, h));
      PlayableConserves(BaseOf(n, h), RegularPart(n, h) + StakePart(n, h), a);
    }
  }

  lemma NoOps(a: Account)
    ensures OpSum([], a) == 0
  {
  }

  /** Dropping a parent's regular transactions takes back exactly what they moved. */
  lemma ReversalConserves(n: Node, h: Hash, a: Account)
    requires InNode(n, h) && Disapproves(n, h) && Processable(n, h) && ConsensusValid(n) && a != TREASURY
    requires var p := Parent(n, h);
             Total(BaseOf(n, p), a) == TotalTo(n, Parent(n, p), a) + OpSum(ReversedPart(n, p), a)
    ensures Total(BaseOf(n, h), a) == TotalTo(n, Parent(n, h), a) + OpSum(ReversedPart(n, h), a)
  {
    hide TxsEmission, ValidNode, Playable, OrdinaryEffects, Apart, ApplyAll, Total, OpSum;
    var p := Parent(n, h);
    TranslationParts(n, p);
    OpSumConcat(ReversedPart(n, p), RegularPart(n, p) + StakePart(n, p), a);
    OpSumConcat(RegularPart(n, p), StakePart(n, p), a);
    ReversalCancels(n.accountOf, n.txs, TREE_REGULAR, n.blocks[p].txs, a);
    LedgerPriced(n, p);
    PartsPriced(n, p);
    ApartPlayable(BaseOf(n, p), RegularEffects(n, p), StakeEffects(n, p), PriceOf(n.txs));
    PlayableConserves(BaseOf(n, p), StakePart(n, p), a);
  }

  /** Whatever was rolled back or disapproved, the stored balance at the tip is the sum of the coins of consensus. */
  lemma BalanceIsLedger(n: Node, db: Db, t: Hash, moves: seq<Move>, a: Account)
    requires OnChain(n, db, t, moves) && ConsensusValid(n) && a != TREASURY
    ensures Balance(db.balances, a, db.tipHeight) == Sum(ListUtxos(LedgerTo(n, t), a))
  {
    hide Translation, Balance, Sum, ListUtxos, ConsensusValid;
    BalanceAtTip(n, t, a);
    LedgerConserves(n, t, a);
  }

  /** The blocks that a run rolled back can be rolled back without harm. */
  ghost predicate AllRollBack(n: Node, moves: seq<Move>) {
    forall i | 0 <= i < |moves| && moves[i].Down? :: RollsBackRightly(n, moves[i].block)
  }

  ghost predicate RollsBackRightly(n: Node, h: Hash) {
    && InNode(n, h) && Height(n, h) > 0 && Processable(n, h)
    && HarmlessTo(n, Parent(n, h)) && RollsBack(n, h)
  }

  lemma AllRewinds(n: Node, moves: seq<Move>)
    requires ValidNode(n) && ConsensusValid(n) && AllRollBack(n, moves)
    ensures AllRewind(n, moves)
  {
    hide ValidNode, Translation, Rewinds, RollsBack, HarmlessTo, ConsensusValid;
    forall i | 0 <= i < |moves| && moves[i].Down?
      ensures var h := moves[i].block; InNode(n, h) && Height(n, h) > 0 && Rewinds(n, h)
    {
      var h := moves[i].block;
      CoinsAgree(n, Parent(n, h));
      RewindsAt(n, h);
    }
  }

  /**
   * The stored coins are those of consensus, if the blocks of the chain are harmless and those rolled back allow it.
   */
  lemma StoredIsLedger(n: Node, db: Db, t: Hash, moves: seq<Move>)
    requires OnChain(n, db, t, moves) && ConsensusValid(n) && HarmlessTo(n, t) && AllRollBack(n, moves)
    ensures Ordinary(db.utxos) == LedgerTo(n, t)
  {
    hide Translation, AllRewind, HarmlessTo, AllRollBack, ConsensusValid;
    AllRewinds(n, moves);
    CoinsAgree(n, t);
  }

  /** Conservation: then the balance at the tip equals the sum of the listed unspent outputs. */
  lemma Conservation(n: Node, db: Db, t: Hash, moves: seq<Move>, a: Account)
    requires OnChain(n, db, t, moves) && ConsensusValid(n) && HarmlessTo(n, t) && AllRollBack(n, moves)
    requires a != TREASURY
    ensures Balance(db.balances, a, db.tipHeight) == Sum(ListUtxos(db.utxos, a))
  {
    hide OnChain, Balance, Sum, ListUtxos, HarmlessTo, AllRollBack, ConsensusValid;
    StoredIsLedger(n, db, t, moves);
    BalanceIsLedger(n, db, t, moves, a);
    OrdinaryTotal(db.utxos, a);
  }

  /* ----- Single touch ----- */

  ghost predicate SingleTouchBlocks(n: Node)
    requires ValidNode(n)
  {
    forall h, c | h in n.blocks && Height(n, h) > 0 && Processable(n, h) :: Touches(BlockEffects(n, h), c) <= 1
  }

  lemma SingleTouchParts(x: seq<Effect>, y: seq<Effect>)
    requires forall c :: Touches(x + y, c) <= 1
    ensures (forall c :: Touches(x, c) <= 1) && (forall c :: Touches(y, c) <= 1) && OddInAll(x, y)
  {
    hide Touches;
    forall c ensures Touches(x, c) + Touches(y, c) <= 1 {
      HistoryConcat(x, y, c);
    }
  }

  lemma SingleTouchMends(d: seq<Effect>, o: seq<Effect>)
    requires forall c :: Touches(d, c) <= 1
    ensures Mends(d, o)
  {
  }

  /** If no block touches a coin twice, every block is harmless and rolls back. */
  lemma {:induction false} SingleTouchSuffices(n: Node, h: Hash)
    requires InNode(n, h) && Processable(n, h) && SingleTouchBlocks(n)
    ensures HarmlessTo(n, h) && (Height(n, h) > 0 ==> RollsBack(n, h))
    decreases Height(n, h)
  {
    if Height(n, h) > 0 {
      hide ValidNode, Translation, BlockEffects, RegularEffects, StakeEffects, ReversedEffects, Touches, OddInAll,
        Mends;
      var p := Parent(n, h);
      SingleTouchSuffices(n, p);
      EffectParts(n, h);
      SingleTouchParts(ReversedEffects(n, h), OwnEffects(n, h));
      if Disapproves(n, h) {
        EffectParts(n, p);
        SingleTouchParts(ReversedEffects(n, p), OwnEffects(n, p));
        SingleTouchParts(RegularEffects(n, p), StakeEffects(n, p));
        SingleTouchMends(RegularEffects(n, p), OwnEffects(n, h));
      }
    }
  }
}
