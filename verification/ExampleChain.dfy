/**
 * A chain of any length in which each block mines a coin, the last but one spends the first coin, and the last
 * disapproves that. It meets every premise of the chain model, and shows what forward order does to an output that
 * is created and spent within one block.
 */
module ExampleChain {
  import opened Prelude
  import opened Wire
  import opened BlockOps
  import opened Coins
  import opened BackendDb
  import opened Encoding
  import opened Chain
  import opened Reversal
  import opened Consensus
  import RosettaCoins

  const MINER: Account := [7]
  const FRIEND: Account := [8]
  const HEIR: Account := [9]

  /** The number of the last block, and whether the payment is passed on within its block. */
  datatype Plan = Plan(last: nat, passes: bool) {
    /** The number of the block with the payment. */
    function Spend(): int { last - 1 }

    ghost predicate Valid() { 3 <= last < TWO_32 - 1 }
  }

  /* ----- Hashes ----- */

  function Tail(tag: byte): Bytes {
    [tag, tag, tag, tag, tag, tag, tag, tag, tag, tag, tag, tag,
     tag, tag, tag, tag, tag, tag, tag, tag, tag, tag, tag, tag]
  }

  function Numbered(tag: byte, i: nat): Hash {
    BigEndian(i, 8) + Tail(tag)
  }

  function NumberOf(h: Hash): nat {
    FromBigEndian(h[..8])
  }

  lemma NumberedIs(tag: byte, i: nat)
    requires i < TWO_64
    ensures NumberOf(Numbered(tag, i)) == i && Numbered(tag, i)[8] == tag
  {
    Widths();
    BigEndianRoundTrip(i, 8);
    assert Numbered(tag, i)[..8] == BigEndian(i, 8);
  }

  lemma HashesDiffer(tag: byte, i: nat, tag': byte, j: nat)
    requires i < TWO_64 && j < TWO_64 && (tag != tag' || i != j)
    ensures Numbered(tag, i) != Numbered(tag', j)
  {
    NumberedIs(tag, i);
    NumberedIs(tag', j);
  }

  lemma NotZero(tag: byte, i: nat)
    requires i < TWO_64 && tag != 0
    ensures Numbered(tag, i) != ZERO_HASH
  {
    NumberedIs(tag, i);
  }

  function BlockHash(i: nat): Hash { Numbered(1, i) }
  function CoinbaseHash(i: nat): Hash { Numbered(2, i) }
  function PaymentHash(): Hash { Numbered(3, 0) }
  function PassingHash(): Hash { Numbered(4, 0) }

  /* ----- The chain ----- */

  function Coinbase(i: nat): Tx {
    Tx(CoinbaseHash(i), Regular, [TxIn(OutPoint(ZERO_HASH, 0xffff_ffff, 0), 5)], [TxOut(5, 0, MINER)])
  }

  /** Pays the coin mined in block 1 to the friend. */
  function Payment(): Tx {
    Tx(PaymentHash(), Regular, [TxIn(OutPoint(CoinbaseHash(1), 0, 0), 5)], [TxOut(5, 0, FRIEND)])
  }

  /** Passes the payment on to the heir. */
  function Passing(): Tx {
    Tx(PassingHash(), Regular, [TxIn(OutPoint(PaymentHash(), 0, 0), 5)], [TxOut(5, 0, HEIR)])
  }

  function TxsAt(p: Plan, i: nat): seq<Tx> {
    if i == 0 then []
    else if i != p.Spend() then [Coinbase(i)]
    else [Coinbase(i), Payment()] + if p.passes then [Passing()] else []
  }

  function BlockAt(p: Plan, i: nat): Block
    requires p.Valid() && i <= p.last
  {
    Block(if i == 0 then ZERO_HASH else BlockHash(i - 1), i, if i == p.last then 0 else 1, TxsAt(p, i), [])
  }

  function Blocks(p: Plan): map<Hash, Block>
    requires p.Valid()
  {
    map h | h in (set i: nat | i <= p.last :: BlockHash(i)) && NumberOf(h) <= p.last :: BlockAt(p, NumberOf(h))
  }

  function Index(p: Plan): map<Hash, Tx> {
    (map h | h in (set i: nat | i <= p.last :: CoinbaseHash(i)) :: Coinbase(NumberOf(h)))
    + map[PaymentHash() := Payment(), PassingHash() := Passing()]
  }

  /** Scripts are their own addresses. */
  function ScriptAddress(version: UInt16, script: Bytes): Option<Account> {
    Some(script)
  }

  function Example(p: Plan): Node
    requires p.Valid()
  {
    Node(Blocks(p), Index(p), BlockHash(0), ScriptAddress)
  }

  lemma BlockIs(p: Plan, i: nat)
    requires p.Valid() && i <= p.last
    ensures BlockHash(i) in Blocks(p) && Blocks(p)[BlockHash(i)] == BlockAt(p, i)
  {
    NumberedIs(1, i);
  }

  lemma NumberOfBlock(p: Plan, h: Hash) returns (i: nat)
    requires p.Valid() && h in Blocks(p)
    ensures i <= p.last && h == BlockHash(i)
  {
    i :| i <= p.last && h == BlockHash(i);
  }

  lemma IndexIs(p: Plan, i: nat)
    requires p.Valid() && i <= p.last
    ensures CoinbaseHash(i) in Index(p) && Index(p)[CoinbaseHash(i)] == Coinbase(i)
    ensures PaymentHash() in Index(p) && Index(p)[PaymentHash()] == Payment()
    ensures PassingHash() in Index(p) && Index(p)[PassingHash()] == Passing()
  {
    NumberedIs(2, i);
    HashesDiffer(2, i, 3, 0);
    HashesDiffer(2, i, 4, 0);
    HashesDiffer(3, 0, 4, 0);
  }

  lemma TxsKnown(p: Plan, i: nat)
    requires p.Valid() && i <= p.last
    ensures Known(Index(p), TxsAt(p, i)) && Known(Index(p), [])
  {
    hide Index, Numbered;
    IndexIs(p, i);
  }

  lemma NoSelfSpends(p: Plan, h: Hash, i: nat)
    requires p.Valid() && h in Index(p) && i < |Index(p)[h].ins|
    ensures Index(p)[h].ins[i].prevOut.hash != h
  {
    hide Numbered;
    IndexIs(p, 0);
    HashesDiffer(2, 1, 3, 0);
    HashesDiffer(3, 0, 4, 0);
    if h != PaymentHash() && h != PassingHash() {
      var j := NumberOfCoinbase(p, h);
      IndexIs(p, j);
      NotZero(2, j);
      hide Index;
      assert Index(p)[h] == Coinbase(j);
    }
  }

  lemma NumberOfCoinbase(p: Plan, h: Hash) returns (j: nat)
    requires h in Index(p) && h != PaymentHash() && h != PassingHash()
    ensures j <= p.last && h == CoinbaseHash(j)
  {
    j :| j <= p.last && h == CoinbaseHash(j);
  }

  lemma ExampleIsValid(p: Plan)
    requires p.Valid()
    ensures ValidNode(Example(p))
  {
    hide BlockHash, CoinbaseHash, Blocks, Index, Known;
    var n := Example(p);
    BlockIs(p, 0);
    forall h | h in n.blocks
      ensures h != ZERO_HASH && n.blocks[h].height < TWO_32 - 1
      ensures Known(n.txs, n.blocks[h].txs) && Known(n.txs, n.blocks[h].stxs)
      ensures h != n.genesis ==> n.blocks[h].prevBlock in n.blocks
      ensures h != n.genesis ==> n.blocks[h].height == n.blocks[n.blocks[h].prevBlock].height + 1
    {
      var i := NumberOfBlock(p, h);
      BlockIs(p, i);
      BlockNotZero(i);
      TxsKnown(p, i);
      if h != n.genesis {
        BlockIs(p, i - 1);
      }
    }
    forall h, i | h in n.txs && 0 <= i < |n.txs[h].ins| ensures n.txs[h].ins[i].prevOut.hash != h {
      NoSelfSpends(p, h, i);
    }
    if ZERO_HASH in n.blocks {
      var i := NumberOfBlock(p, ZERO_HASH);
      BlockNotZero(i);
    }
  }

  /** Transactions are in the tree of their type, and inputs name the tree of what they spend. */
  lemma ExampleTrees(p: Plan)
    requires p.Valid()
    ensures RosettaCoins.TreesMatch(Example(p))
  {
    hide BlockHash, CoinbaseHash, PaymentHash, PassingHash, Blocks, Index;
    var n := Example(p);
    forall h | h in n.blocks
      ensures n.blocks[h].stxs == []
      ensures forall i | 0 <= i < |n.blocks[h].txs| :: RosettaCoins.TreeOf(n.blocks[h].txs[i]) == TREE_REGULAR
    {
      var i := NumberOfBlock(p, h);
      BlockIs(p, i);
    }
    forall h, i | h in n.txs && 0 <= i < |n.txs[h].ins|
      ensures var o := n.txs[h].ins[i].prevOut;
              o.hash in n.txs ==> o.tree == RosettaCoins.TreeOf(n.txs[o.hash])
    {
      AllRegular(p, h);
      if n.txs[h].ins[i].prevOut.hash in n.txs {
        AllRegular(p, n.txs[h].ins[i].prevOut.hash);
      }
    }
  }

  lemma AllRegular(p: Plan, h: Hash)
    requires p.Valid() && h in Index(p)
    ensures Index(p)[h].txType.Regular? && forall i | 0 <= i < |Index(p)[h].ins| :: Index(p)[h].ins[i].prevOut.tree == 0
  {
    hide Numbered;
    IndexIs(p, 0);
    if h != PaymentHash() && h != PassingHash() {
      var j := NumberOfCoinbase(p, h);
      IndexIs(p, j);
    }
  }

  lemma BlockNotZero(i: nat)
    requires i < TWO_64
    ensures BlockHash(i) != ZERO_HASH
  {
    NotZero(1, i);
  }

  lemma Placed(p: Plan, i: nat)
    requires p.Valid() && i <= p.last
    ensures InNode(Example(p), BlockHash(i)) && Example(p).blocks[BlockHash(i)] == BlockAt(p, i)
    ensures Height(Example(p), BlockHash(i)) == i
    ensures i > 0 ==> Parent(Example(p), BlockHash(i)) == BlockHash(i - 1)
  {
    hide ValidNode, Blocks, Index, BlockHash;
    ExampleIsValid(p);
    BlockIs(p, i);
  }

  /* ----- Operations ----- */

  function Mined(i: nat): Op {
    Op(TxContext(0, Success, Coinbase(i), 0), 0, MINER, 0, 5, Credit(TxOut(5, 0, MINER)))
  }

  function Spent(): Op {
    Op(TxContext(0, Success, Payment(), 1), 0, MINER, 0, -5,
       Debit(Payment().ins[0], Some(PrevOutput(MINER, 0, 5))))
  }

  function Received(): Op {
    Op(TxContext(0, Success, Payment(), 1), 0, FRIEND, 1, 5, Credit(TxOut(5, 0, FRIEND)))
  }

  function PassedOn(): Op {
    Op(TxContext(0, Success, Passing(), 2), 0, FRIEND, 0, -5,
       Debit(Passing().ins[0], Some(PrevOutput(FRIEND, 0, 5))))
  }

  function Inherited(): Op {
    Op(TxContext(0, Success, Passing(), 2), 0, HEIR, 1, 5, Credit(TxOut(5, 0, HEIR)))
  }

  lemma CoinbaseOps(p: Plan, i: nat)
    ensures TxEmission(ScriptAddress, Index(p), TxContext(0, Success, Coinbase(i), 0)) == Emission([Mined(i)], None)
  {
    hide CoinbaseHash, Index;
    var c := TxContext(0, Success, Coinbase(i), 0);
    assert c.Targets() == [];
    var prevOuts: map<OutPoint, PrevOutput> := map[];
    assert Fetch(Index(p), []) == Some(prevOuts);
    var steps := TxSteps(ScriptAddress, c, prevOuts);
    assert steps == [Skip, Emit(Mined(i))];
    assert steps[..1] == [Skip] && steps[..1][..0] == [];
    assert AdvanceAll(NOTHING, steps[..1]) == Advance(NOTHING, Skip) == NOTHING;
    assert AdvanceAll(NOTHING, steps) == Advance(NOTHING, steps[1]);
  }

  lemma FetchOne(txs: map<Hash, Tx>, o: OutPoint, prev: PrevOutput)
    requires Lookup(txs, o) == Some(prev)
    ensures Fetch(txs, [o]) == Some(map[o := prev])
  {
    assert forall q | q in [o] :: q == o;
    assert (map q | q in [o] :: Lookup(txs, q).value) == map[o := prev];
  }

  /** A transaction with one input and one output, both with an account. */
  lemma TransferOps(txs: map<Hash, Tx>, tx: Tx, i: nat, prev: PrevOutput)
    requires i > 0 && tx.txType.Regular? && |tx.ins| == |tx.outs| == 1
    requires Lookup(txs, tx.ins[0].prevOut) == Some(prev) && prev.pkScript != []
    requires tx.outs[0].value != 0 && tx.outs[0].pkScript != []
    ensures var c := TxContext(0, Success, tx, i);
            TxEmission(ScriptAddress, txs, c) ==
            Emission([Op(c, 0, prev.pkScript, 0, -prev.amount, Debit(tx.ins[0], Some(prev))),
                      Op(c, 0, tx.outs[0].pkScript, 1, tx.outs[0].value, Credit(tx.outs[0]))], None)
  {
    var c := TxContext(0, Success, tx, i);
    var o := tx.ins[0].prevOut;
    assert c.Targets() == [o];
    FetchOne(txs, o, prev);
    var steps := TxSteps(ScriptAddress, c, map[o := prev]);
    var debit := Op(c, 0, prev.pkScript, 0, -prev.amount, Debit(tx.ins[0], Some(prev)));
    var credit := Op(c, 0, tx.outs[0].pkScript, 0, tx.outs[0].value, Credit(tx.outs[0]));
    assert InSteps(ScriptAddress, c, map[o := prev]) == [Emit(debit)];
    assert OutSteps(ScriptAddress, c) == [Emit(credit)];
    assert steps == [Emit(debit), Emit(credit)];
    assert steps[..1] == [Emit(debit)] && steps[..1][..0] == [];
    assert AdvanceAll(NOTHING, steps[..1]) == Advance(NOTHING, steps[0]) == Emission([debit], None);
    assert AdvanceAll(NOTHING, steps) == Advance(Emission([debit], None), steps[1]);
  }

  function OwnOps(p: Plan, i: nat): seq<Op> {
    if i == 0 then []
    else if i != p.Spend() then [Mined(i)]
    else [Mined(i), Spent(), Received()] + if p.passes then [PassedOn(), Inherited()] else []
  }

  lemma TxsSnoc(txs: map<Hash, Tx>, list: seq<Tx>, tx: Tx, front: seq<Op>, last: seq<Op>)
    requires TxsEmission(ScriptAddress, txs, 0, Success, list) == Emission(front, None)
    requires TxEmission(ScriptAddress, txs, TxContext(0, Success, tx, |list|)) == Emission(last, None)
    ensures TxsEmission(ScriptAddress, txs, 0, Success, list + [tx]) == Emission(front + last, None)
  {
    hide TxEmission;
    assert (list + [tx])[..|list|] == list;
  }

  lemma OwnOpsAre(p: Plan, i: nat)
    requires p.Valid() && i <= p.last
    ensures TxsEmission(ScriptAddress, Index(p), 0, Success, TxsAt(p, i)) == Emission(OwnOps(p, i), None)
  {
    hide TxEmission, Index, CoinbaseHash, PaymentHash, PassingHash;
    if i > 0 {
      IndexIs(p, 1);
      CoinbaseOps(p, i);
      TxsSnoc(Index(p), [], Coinbase(i), [], [Mined(i)]);
      assert [] + [Coinbase(i)] == [Coinbase(i)] && [] + [Mined(i)] == [Mined(i)];
      if i == p.Spend() {
        TransferOps(Index(p), Payment(), 1, PrevOutput(MINER, 0, 5));
        TxsSnoc(Index(p), [Coinbase(i)], Payment(), [Mined(i)], [Spent(), Received()]);
        assert [Coinbase(i)] + [Payment()] == [Coinbase(i), Payment()];
        assert [Mined(i)] + [Spent(), Received()] == [Mined(i), Spent(), Received()];
        if p.passes {
          TransferOps(Index(p), Passing(), 2, PrevOutput(FRIEND, 0, 5));
          TxsSnoc(Index(p), [Coinbase(i), Payment()], Passing(), [Mined(i), Spent(), Received()], [PassedOn(),
              Inherited()]);
        } else {
          assert TxsAt(p, i) == [Coinbase(i), Payment()] && OwnOps(p, i) == [Mined(i), Spent(), Received()];
        }
      }
    }
  }

  /** All blocks can be translated; this is what each contributes. */
  lemma PartsAre(p: Plan, i: nat)
    requires p.Valid() && i <= p.last
    ensures InNode(Example(p), BlockHash(i))
    ensures RegularPart(Example(p), BlockHash(i)) == OwnOps(p, i) && StakePart(Example(p), BlockHash(i)) == []
    ensures Disapproves(Example(p), BlockHash(i)) <==> i == p.last
    ensures i > 0 ==> Translation(Example(p), BlockHash(i)).err.None?
  {
    hide TxsEmission, ValidNode, Blocks, Index, BlockHash;
    Placed(p, i);
    OwnOpsAre(p, i);
    NoTxs(Index(p));
    if i > 0 {
      Placed(p, i - 1);
      OwnOpsAre(p, i - 1);
      ReversalCancels(ScriptAddress, Index(p), 0, TxsAt(p, i - 1), MINER);
    }
  }

  lemma NoTxs(txs: map<Hash, Tx>)
    ensures TxsEmission(ScriptAddress, txs, TREE_STAKE, Success, []) == NOTHING
  {
  }

  lemma {:induction false} AllProcessable(p: Plan, i: nat)
    requires p.Valid() && i <= p.last
    ensures InNode(Example(p), BlockHash(i)) && Processable(Example(p), BlockHash(i))
    decreases i
  {
    hide Translation, ValidNode, Blocks, Index, BlockHash, Example;
    Placed(p, i);
    PartsAre(p, i);
    if i > 0 {
      AllProcessable(p, i - 1);
    }
  }

  /* ----- Effects ----- */

  function Mine(i: nat): Coin { Coin(MINER, OutPoint(CoinbaseHash(i), 0, 0)) }
  function Gift(): Coin { Coin(FRIEND, OutPoint(PaymentHash(), 0, 0)) }
  function Legacy(): Coin { Coin(HEIR, OutPoint(PassingHash(), 0, 0)) }

  function OwnList(p: Plan, i: nat): seq<Effect> {
    if i == 0 then []
    else if i != p.Spend() then [Effect(Mine(i), true, 5)]
    else [Effect(Mine(i), true, 5), Effect(Mine(1), false, 5), Effect(Gift(), true, 5)] +
         if p.passes then [Effect(Gift(), false, 5), Effect(Legacy(), true, 5)] else []
  }

  lemma EffectsSnoc(ops: seq<Op>, op: Op)
    requires op.account != TREASURY
    ensures OrdinaryEffects(ops + [op]) == OrdinaryEffects(ops) + [EffectOf(op)]
  {
    assert (ops + [op])[..|ops|] == ops;
  }

  lemma NothingOrdinary()
    ensures OrdinaryEffects([]) == []
  {
  }

  lemma OpEffects(i: nat)
    ensures EffectOf(Mined(i)) == Effect(Mine(i), true, 5) && Mined(i).account != TREASURY
    ensures EffectOf(Spent()) == Effect(Mine(1), false, 5) && Spent().account != TREASURY
    ensures EffectOf(Received()) == Effect(Gift(), true, 5) && Received().account != TREASURY
    ensures EffectOf(PassedOn()) == Effect(Gift(), false, 5) && PassedOn().account != TREASURY
    ensures EffectOf(Inherited()) == Effect(Legacy(), true, 5) && Inherited().account != TREASURY
  {
    assert MINER[0] != TREASURY[0] && FRIEND[0] != TREASURY[0] && HEIR[0] != TREASURY[0];
  }

  lemma OwnListIs(p: Plan, i: nat)
    ensures OrdinaryEffects(OwnOps(p, i)) == OwnList(p, i)
  {
    hide OrdinaryEffects, EffectOf, CoinbaseHash, PaymentHash, PassingHash, Mined, Spent, Received, PassedOn, Inherited;
    OpEffects(i);
    NothingOrdinary();
    if i > 0 {
      EffectsSnoc([], Mined(i));
      assert [] + [Mined(i)] == [Mined(i)];
      if i == p.Spend() {
        EffectsSnoc([Mined(i)], Spent());
        EffectsSnoc([Mined(i), Spent()], Received());
        assert [Mined(i)] + [Spent()] == [Mined(i), Spent()];
        assert [Mined(i), Spent()] + [Received()] == [Mined(i), Spent(), Received()];
        if p.passes {
          EffectsSnoc([Mined(i), Spent(), Received()], PassedOn());
          EffectsSnoc([Mined(i), Spent(), Received(), PassedOn()], Inherited());
          assert [Mined(i), Spent(), Received()] + [PassedOn()] == [Mined(i), Spent(), Received(), PassedOn()];
          assert OwnOps(p, i) == [Mined(i), Spent(), Received(), PassedOn()] + [Inherited()];
        } else {
          assert OwnOps(p, i) == [Mined(i), Spent(), Received()];
        }
      }
    }
  }

  lemma ListsAre(p: Plan, i: nat)
    requires p.Valid() && i <= p.last
    ensures InNode(Example(p), BlockHash(i))
    ensures RegularEffects(Example(p), BlockHash(i)) == OwnList(p, i) && StakeEffects(Example(p), BlockHash(i)) == []
    ensures OwnEffects(Example(p), BlockHash(i)) == OwnList(p, i)
  {
    hide RegularPart, StakePart, ValidNode, Example, BlockHash, OwnOps, OwnList;
    PartsAre(p, i);
    OwnListIs(p, i);
    assert OwnList(p, i) + [] == OwnList(p, i);
  }

  /** The coins mined in blocks 1 to i. */
  function Mines(i: nat): Utxos {
    if i == 0 then map[] else Mines(i - 1)[Mine(i) := 5]
  }

  lemma MineDiffers(i: nat, j: nat)
    requires i < TWO_32 && j < TWO_32 && i != j
    ensures Mine(i) != Mine(j)
  {
    HashesDiffer(2, i, 2, j);
  }

  lemma OneMore(u: Utxos, es: seq<Effect>, e: Effect)
    requires Playable(u, es)
    ensures Playable(u, es + [e]) <==> Fits(ApplyAll(u, es), e)
    ensures ApplyAll(u, es + [e]) == Apply(ApplyAll(u, es), e)
  {
    hide ApplyAll, Fits, Apply;
    assert (es + [e])[..|es|] == es;
    PlayableSnoc(u, es + [e]);
    ApplySnoc(u, es, e);
  }

  /** The own transactions of block i are playable on the coins mined before. */
  lemma OwnListPlays(p: Plan, i: nat, u: Utxos)
    requires p.Valid() && 0 < i <= p.last
    requires Mine(i) !in u && forall c | c in u :: c.account == MINER
    requires i == p.Spend() ==> Mine(1) in u && u[Mine(1)] == 5
    ensures Playable(u, OwnList(p, i))
    ensures i != p.Spend() ==> ApplyAll(u, OwnList(p, i)) == u[Mine(i) := 5]
  {
    hide Playable, ApplyAll, Mine, Gift, Legacy;
    var e1 := Effect(Mine(i), true, 5);
    NothingPlayed(u);
    OneMore(u, [], e1);
    assert [] + [e1] == [e1];
    if i == p.Spend() {
      CoinOwners(i);
      MineDiffers(1, i);
      SpendPlays(u, Mine(i), Mine(1), Gift(), Legacy());
      assert !p.passes ==> OwnList(p, i) == [e1, Effect(Mine(1), false, 5), Effect(Gift(), true, 5)];
      assert p.passes ==> OwnList(p, i) == [e1, Effect(Mine(1), false, 5), Effect(Gift(), true, 5)] +
                                           [Effect(Gift(), false, 5)] + [Effect(Legacy(), true, 5)];
    }
  }

  lemma CoinOwners(i: nat)
    ensures Mine(i).account == MINER && Gift().account == FRIEND && Legacy().account == HEIR
    ensures MINER != FRIEND && FRIEND != HEIR && MINER != HEIR
  {
    assert MINER[0] == 7 && FRIEND[0] == 8 && HEIR[0] == 9;
  }

  lemma SpendPlays(u: Utxos, mined: Coin, prior: Coin, gift: Coin, legacy: Coin)
    requires mined !in u && gift !in u && legacy !in u && prior in u && u[prior] == 5
    requires mined != gift && mined != legacy && gift != legacy && mined != prior
    ensures var es := [Effect(mined, true, 5), Effect(prior, false, 5), Effect(gift, true, 5)];
            Playable(u, es) && Playable(u, es + [Effect(gift, false, 5)] + [Effect(legacy, true, 5)])
  {
    hide Playable, ApplyAll;
    var e1, e2, e3 := Effect(mined, true, 5), Effect(prior, false, 5), Effect(gift, true, 5);
    NothingPlayed(u);
    OneMore(u, [], e1);
    assert [] + [e1] == [e1];
    OneMore(u, [e1], e2);
    assert [e1] + [e2] == [e1, e2];
    OneMore(u, [e1, e2], e3);
    assert [e1, e2] + [e3] == [e1, e2, e3];
    OneMore(u, [e1, e2, e3], Effect(gift, false, 5));
    OneMore(u, [e1, e2, e3] + [Effect(gift, false, 5)], Effect(legacy, true, 5));
  }

  lemma NothingPlayed(u: Utxos)
    ensures Playable(u, []) && ApplyAll(u, []) == u
  {
  }

  /** Up to the payment, the coins of consensus are the coins mined; the last block builds on them as well. */
  lemma {:induction false} LedgerIs(p: Plan, i: nat)
    requires p.Valid() && i <= p.last
    ensures InNode(Example(p), BlockHash(i)) && Height(Example(p), BlockHash(i)) == i
    ensures i < p.Spend() ==> LedgerTo(Example(p), BlockHash(i)) == Mines(i)
    ensures 0 < i <= p.Spend() ==> BaseOf(Example(p), BlockHash(i)) == Mines(i - 1)
    ensures i == p.last ==> BaseOf(Example(p), BlockHash(i)) == Mines(i - 2)
    decreases i
  {
    hide *;
    var n, h := Example(p), BlockHash(i);
    Placed(p, i);
    ListsAre(p, i);
    PartsAre(p, i);
    LedgerStep(n, h);
    MinesStep(i);
    if i > 0 {
      LedgerIs(p, i - 1);
      ListsAre(p, i - 1);
      SpendIs(p);
      if i == p.last {
        NothingPlayed(Mines(i - 2));
      } else if i < p.Spend() {
        NotMinedYet(i, i - 1);
        MinesHold(i - 1);
        OwnListPlays(p, i, Mines(i - 1));
      }
    }
  }

  lemma SpendIs(p: Plan)
    ensures p.Spend() == p.last - 1 && (p.Valid() ==> 3 <= p.last < TWO_32 - 1)
  {
  }

  lemma MinesStep(i: nat)
    ensures Mines(i) == if i == 0 then map[] else Mines(i - 1)[Mine(i) := 5]
  {
  }

  lemma {:induction false} MinesHold(i: nat)
    requires i < TWO_32
    ensures forall c | c in Mines(i) :: c.account == MINER && Mines(i)[c] == 5
    ensures i >= 1 ==> Mine(1) in Mines(i)
  {
    if i > 0 {
      MinesHold(i - 1);
    }
  }

  /** The chain is valid by consensus, whether or not the payment is passed on. */
  lemma ExampleConsensus(p: Plan)
    requires p.Valid()
    ensures ValidNode(Example(p)) && ConsensusValid(Example(p))
  {
    hide Translation, ValidNode, Processable, BlockHash, Blocks, Index, OwnEffects, RegularEffects, StakeEffects,
      BaseOf, Playable, Mines, OwnList;
    var n := Example(p);
    ExampleIsValid(p);
    forall h | h in n.blocks && Height(n, h) > 0
      ensures Playable(BaseOf(n, h), OwnEffects(n, h)) && Apart(RegularEffects(n, h), StakeEffects(n, h))
    {
      var i := NumberOfBlock(p, h);
      LedgerIs(p, i);
      ListsAre(p, i);
      var below: nat := if i == p.last then i - 2 else i - 1;
      MinesHold(below);
      NotMinedYet(i, below);
      OwnListPlays(p, i, Mines(below));
    }
  }

  lemma {:induction false} NotMinedYet(i: nat, below: nat)
    requires below < i < TWO_32
    ensures Mine(i) !in Mines(below)
  {
    if below > 0 {
      hide Mine;
      NotMinedYet(i, below - 1);
      MineDiffers(i, below);
    }
  }

  /* ----- What the results say of the example ----- */

  lemma GiftHistory(p: Plan)
    requires p.Valid()
    ensures History(OwnList(p, p.Spend()), Gift()) == [true] + (if p.passes then [false] else [])
    ensures History(OwnList(p, p.last), Gift()) == []
  {
    hide History, Mine, Gift, Legacy;
    CoinsDiffer(p.Spend());
    CoinsDiffer(p.last);
    CoinsDiffer(1);
    NoHistory();
    var e1, e2, e3 := Effect(Mine(p.Spend()), true, 5), Effect(Mine(1), false, 5), Effect(Gift(), true, 5);
    HistoryOfThree(e1, e2, e3, Gift());
    HistorySnoc([], Effect(Mine(p.last), true, 5), Gift());
    assert OwnList(p, p.last) == [] + [Effect(Mine(p.last), true, 5)];
    if p.passes {
      var e4, e5 := Effect(Gift(), false, 5), Effect(Legacy(), true, 5);
      HistorySnoc([e1, e2, e3], e4, Gift());
      HistorySnoc([e1, e2, e3] + [e4], e5, Gift());
      assert OwnList(p, p.Spend()) == [e1, e2, e3] + [e4] + [e5];
    } else {
      assert OwnList(p, p.Spend()) == [e1, e2, e3];
    }
  }

  lemma HistoryOfThree(e1: Effect, e2: Effect, e3: Effect, c: Coin)
    requires e1.coin != c && e2.coin != c && e3.coin == c
    ensures History([e1, e2, e3], c) == [e3.adds]
  {
    assert [e1, e2, e3][..2] == [e1, e2] && [e1, e2][..1] == [e1] && [e1][..0] == [];
    assert History([e1], c) == [] && History([e1, e2], c) == [];
  }

  lemma CoinsDiffer(i: nat)
    ensures Mine(i) != Gift() && Gift() != Legacy()
  {
    assert MINER[0] != FRIEND[0] && FRIEND[0] != HEIR[0];
  }

  lemma NoHistory()
    ensures History([], Gift()) == []
  {
  }

  /** Coins right up to the payment: neither of the blocks before it disapproves anything. */
  lemma {:induction false} HarmlessBefore(p: Plan, i: nat)
    requires p.Valid() && i < p.last
    ensures InNode(Example(p), BlockHash(i)) && HarmlessTo(Example(p), BlockHash(i))
    decreases i
  {
    hide Translation, ValidNode, Processable, BlockHash, Blocks, Index, Example, OwnEffects, RegularEffects;
    Placed(p, i);
    PartsAre(p, i);
    if i > 0 {
      HarmlessBefore(p, i - 1);
    }
  }

  lemma NoGiftIn(p: Plan, i: nat)
    requires i < TWO_32
    ensures Gift() !in Mines(i) && ListUtxos(Mines(i), FRIEND) == map[]
  {
    hide Mines;
    MinesHold(i);
    assert MINER[0] != FRIEND[0];
  }

  lemma BlockEffectsAre(p: Plan, i: nat)
    requires p.Valid() && 0 < i <= p.last
    ensures InNode(Example(p), BlockHash(i))
    ensures BlockEffects(Example(p), BlockHash(i)) == ReversedEffects(Example(p), BlockHash(i)) + OwnList(p, i)
    ensures i < p.last ==> ReversedEffects(Example(p), BlockHash(i)) == []
  {
    hide Translation, ValidNode, BlockHash, Example, OwnList;
    Placed(p, i);
    PartsAre(p, i);
    ListsAre(p, i);
    EffectParts(Example(p), BlockHash(i));
  }

  lemma CoinsBeforePayment(p: Plan)
    requires p.Valid()
    ensures InNode(Example(p), BlockHash(p.last - 2))
    ensures UtxosTo(Example(p), BlockHash(p.last - 2)) == LedgerTo(Example(p),
        BlockHash(p.last - 2)) == Mines(p.last - 2)
  {
    hide *;
    SpendIs(p);
    ExampleConsensus(p);
    AllProcessable(p, p.last - 2);
    HarmlessBefore(p, p.last - 2);
    CoinsAgree(Example(p), BlockHash(p.last - 2));
    AgreesHere(Example(p), BlockHash(p.last - 2));
    LedgerIs(p, p.last - 2);
  }

  lemma AgreesHere(n: Node, h: Hash)
    requires InNode(n, h) && AgreesTo(n, h)
    ensures UtxosTo(n, h) == LedgerTo(n, h)
  {
  }

  /**
   * Connecting block h on top of its parent's state, reached without rollbacks, and rolling it back lists coin c, whose
   * owner has no balance.
   */
  ghost predicate RollbackLeaves(n: Node, h: Hash, c: Coin, before: Db, after: Db, moves: seq<Move>) {
    && InNode(n, h) && Height(n, h) > 1 && Forward(moves)
    && OnChain(n, before, Parent(n, h), moves)
    && after == Disconnected(n, Connected(n, before, h), h)
    && OnChain(n, after, Parent(n, h), moves + [Up(h)] + [Down(h)])
    && c !in before.utxos && c in after.utxos
    && Balance(after.balances, c.account, after.tipHeight) == 0
  }

  /**
   * Rolling back a block in which a payment is received and passed on leaves the payment listed, on a database that
   * did not list it before the block was connected; the balance is right.
   */
  lemma RollbackLeavesCoin(p: Plan) returns (before: Db, after: Db, moves: seq<Move>)
    requires p.Valid() && p.passes
    ensures ValidNode(Example(p)) && ConsensusValid(Example(p))
    ensures RollbackLeaves(Example(p), BlockHash(p.last - 1), Gift(), before, after, moves)
  {
    hide *;
    SpendIs(p);
    var n, s := Example(p), BlockHash(p.last - 1);
    ExampleConsensus(p);
    Placed(p, p.last - 1);
    AllProcessable(p, p.last - 1);
    before, after, moves := ThereAndBack(n, s);
    CoinsBeforePayment(p);
    BlockEffectsAre(p, p.last - 1);
    assert [] + OwnList(p, p.last - 1) == OwnList(p, p.last - 1);
    GiftAfterRollback(p, n, s, before, moves);
    NoGiftIn(p, p.last - 2);
    FriendIsOrdinary();
    LeavesWithoutBalance(n, s, Gift(), before, after, moves);
  }

  lemma LeavesWithoutBalance(n: Node, h: Hash, c: Coin, before: Db, after: Db, moves: seq<Move>)
    requires InNode(n, h) && Height(n, h) > 1 && ConsensusValid(n) && c.account != TREASURY && Forward(moves)
    requires OnChain(n, before, Parent(n, h), moves) && OnChain(n, after, Parent(n, h), moves + [Up(h)] + [Down(h)])
    requires after == Disconnected(n, Connected(n, before, h), h) && c !in before.utxos && c in after.utxos
    requires ListUtxos(LedgerTo(n, Parent(n, h)), c.account) == map[]
    ensures RollbackLeaves(n, h, c, before, after, moves)
  {
    hide OnChain, ValidNode, ConsensusValid, Translation, Connected, Disconnected, LedgerTo, ListUtxos, Balance,
      Forward;
    BalanceIsLedger(n, after, Parent(n, h), moves + [Up(h)] + [Down(h)], c.account);
  }

  lemma FriendIsOrdinary()
    ensures FRIEND != TREASURY && Gift().account == FRIEND
    ensures var none: map<OutPoint, int> := map[]; Sum(none) == 0
  {
    assert FRIEND[0] != TREASURY[0];
  }

  lemma GiftAfterRollback(p: Plan, n: Node, s: Hash, before: Db, moves: seq<Move>)
    requires p.Valid() && p.passes && n == Example(p) && s == BlockHash(p.last - 1)
    requires InNode(n, s) && Height(n, s) > 1 && OnChain(n, before, Parent(n, s), moves) && Forward(moves)
    requires BlockEffects(n, s) == OwnList(p, p.last - 1) && UtxosTo(n, Parent(n, s)) == Mines(p.last - 2)
    ensures Gift() !in before.utxos && Gift() in Disconnected(n, Connected(n, before, s), s).utxos
  {
    hide *;
    SpendIs(p);
    NoGiftIn(p, p.last - 2);
    FriendIsOrdinary();
    CoinsThereAndBack(n, before, s, moves, Gift());
    GiftHistory(p);
    LastIs(false, [true], false);
  }

  /** Reaching a block's parent, connecting the block and rolling it back. */
  lemma ThereAndBack(n: Node, h: Hash) returns (before: Db, after: Db, moves: seq<Move>)
    requires InNode(n, h) && Height(n, h) > 1 && Processable(n, h)
    ensures OnChain(n, before, Parent(n, h), moves) && Forward(moves)
    ensures after == Disconnected(n, Connected(n, before, h), h)
    ensures OnChain(n, after, Parent(n, h), moves + [Up(h)] + [Down(h)])
  {
    hide Translation, ValidNode, OnChain, Connected, Disconnected;
    before, moves := Reach(n, Parent(n, h));
    ConnectedOnChain(n, before, h, moves);
    after := Disconnected(n, Connected(n, before, h), h);
    DisconnectedOnChain(n, Connected(n, before, h), h, moves + [Up(h)]);
  }

  lemma ForwardRewinds(n: Node, moves: seq<Move>)
    requires Forward(moves)
    ensures AllRewind(n, moves) && AllRollBack(n, moves)
  {
  }

  /** What connecting and rolling back a block does to one ordinary coin. */
  lemma CoinsThereAndBack(n: Node, db: Db, h: Hash, moves: seq<Move>, c: Coin)
    requires InNode(n, h) && Height(n, h) > 1 && OnChain(n, db, Parent(n, h), moves) && Forward(moves)
    requires c.account != TREASURY
    ensures c in db.utxos <==> c in UtxosTo(n, Parent(n, h))
    ensures c in Disconnected(n, Connected(n, db, h), h).utxos <==>
            if Touches(BlockEffects(n, h), c) == 0 then c in db.utxos
            else !After(c in db.utxos, History(BlockEffects(n, h), c))
  {
    ForwardRewinds(n, moves);
    hide Translation, ValidNode, Processable, History, Touches, ApplyAll, Undos, Effects, OrdinaryEffects, Moved,
      AllRewind;
    var ops := Translation(n, h).ops;
    OrdinaryEvolves(db.utxos, ops);
    OrdinaryUndoes(Connected(n, db, h).utxos, ops);
    UndoneCoin(Ordinary(db.utxos), BlockEffects(n, h), c);
  }

  /**
   * Disapproving that block leaves the payment listed as well, with nothing rolled back: it is not a coin of consensus,
   * and its owner's balance is right.
   */
  lemma DisapprovalLeavesCoin(p: Plan) returns (db: Db, moves: seq<Move>)
    requires p.Valid() && p.passes
    ensures InNode(Example(p), BlockHash(p.last)) && ConsensusValid(Example(p))
    ensures OnChain(Example(p), db, BlockHash(p.last), moves) && Forward(moves)
    ensures Gift() in db.utxos && Gift() !in LedgerTo(Example(p), BlockHash(p.last))
    ensures Balance(db.balances, FRIEND, db.tipHeight) == 0
    ensures !Harmless(Example(p), BlockHash(p.last))
  {
    hide *;
    SpendIs(p);
    FriendIsOrdinary();
    var n, t := Example(p), BlockHash(p.last);
    ExampleConsensus(p);
    AllProcessable(p, p.last);
    db, moves := Reach(n, t);
    ForwardRewinds(n, moves);
    GiftAfterDisapproval(p);
    StoredOrdinary(n, db, t, moves, Gift());
    LedgerAtEnd(p);
    BalanceIsLedger(n, db, t, moves, FRIEND);
    Placed(p, p.last);
    AllProcessable(p, p.last - 1);
    HarmlessBefore(p, p.last - 1);
    CoinsAgree(n, BlockHash(p.last - 1));
    AgreesHere(n, BlockHash(p.last - 1));
    AgreesAt(n, t);
  }

  lemma StoredOrdinary(n: Node, db: Db, t: Hash, moves: seq<Move>, c: Coin)
    requires OnChain(n, db, t, moves) && AllRewind(n, moves) && c.account != TREASURY
    ensures c in db.utxos <==> c in UtxosTo(n, t)
  {
    hide Translation, ValidNode, AllRewind, Moved;
  }

  lemma LedgerAtEnd(p: Plan)
    requires p.Valid()
    ensures InNode(Example(p), BlockHash(p.last))
    ensures Gift() !in LedgerTo(Example(p), BlockHash(p.last))
    ensures Sum(ListUtxos(LedgerTo(Example(p), BlockHash(p.last)), FRIEND)) == 0
  {
    hide Translation, ValidNode, BlockHash, Example, OwnEffects, BaseOf, Mines, ApplyAll;
    LedgerIs(p, p.last);
    ListsAre(p, p.last);
    NotMinedYet(p.last, p.last - 2);
    MinesHold(p.last - 2);
    OwnListPlays(p, p.last, Mines(p.last - 2));
    NoGiftIn(p, p.last - 2);
    assert MINER[0] != FRIEND[0];
    assert ListUtxos(LedgerTo(Example(p), BlockHash(p.last)), FRIEND) == map[];
  }

  lemma GiftAfterDisapproval(p: Plan)
    requires p.Valid() && p.passes
    ensures InNode(Example(p), BlockHash(p.last)) && Gift() in UtxosTo(Example(p), BlockHash(p.last))
  {
    hide *;
    SpendIs(p);
    var n, t, s := Example(p), BlockHash(p.last), BlockHash(p.last - 1);
    Placed(p, p.last);
    PartsAre(p, p.last);
    PartsAre(p, p.last - 1);
    ListsAre(p, p.last - 1);
    Placed(p, p.last - 1);
    BlockEffectsAre(p, p.last);
    ReversalFlips(n, t);
    GiftHistory(p);
    FlipsAt(RegularEffects(n, s), ReversedEffects(n, t), Gift());
    HistoryConcat(ReversedEffects(n, t), OwnList(p, p.last), Gift());
    UtxosStep(n, t);
    LastTouchDecides(UtxosTo(n, s), BlockEffects(n, t), Gift());
    assert [true] + [false] == [true, false];
    assert History(ReversedEffects(n, t), Gift()) == [false] + [true];
    assert History(BlockEffects(n, t), Gift()) == [false] + [true];
    LastIs(Gift() in UtxosTo(n, s), [false], true);
  }

  lemma LastIs(there: bool, h: seq<bool>, b: bool)
    ensures After(there, h + [b]) == b
  {
  }

  lemma FlipsAt(d: seq<Effect>, r: seq<Effect>, c: Coin)
    requires Flips(d, r)
    ensures History(r, c) == Flipped(History(d, c))
  {
  }

  lemma UtxosStep(n: Node, h: Hash)
    requires InNode(n, h) && Height(n, h) > 0
    ensures UtxosTo(n, h) == ApplyAll(UtxosTo(n, Parent(n, h)), BlockEffects(n, h))
  {
  }

  lemma TouchesThree(e1: Effect, e2: Effect, e3: Effect, c: Coin)
    ensures Touches([e1], c) == if e1.coin == c then 1 else 0
    ensures Touches([e1, e2, e3], c) ==
            (if e1.coin == c then 1 else 0) + (if e2.coin == c then 1 else 0) + if e3.coin == c then 1 else 0
  {
    assert [e1, e2, e3][..2] == [e1, e2] && [e1, e2][..1] == [e1] && [e1][..0] == [];
  }

  lemma TouchedOnce(p: Plan, c: Coin)
    requires p.Valid() && !p.passes
    ensures Touches(OwnList(p, p.Spend()), c) <= 1
    ensures Touches(OwnList(p, p.last), c) == if c == Mine(p.last) then 1 else 0
    ensures Touches(OwnList(p, p.Spend()), Mine(p.last)) == 0
  {
    hide Touches, Mine, Gift;
    var e1, e2, e3 := Effect(Mine(p.Spend()), true, 5), Effect(Mine(1), false, 5), Effect(Gift(), true, 5);
    assert OwnList(p, p.Spend()) == [e1, e2, e3];
    CoinsDiffer(p.Spend());
    CoinsDiffer(1);
    CoinsDiffer(p.last);
    MineDiffers(p.Spend(), 1);
    MineDiffers(p.Spend(), p.last);
    MineDiffers(1, p.last);
    TouchesThree(e1, e2, e3, c);
    TouchesThree(e1, e2, e3, Mine(p.last));
    TouchesThree(Effect(Mine(p.last), true, 5), e2, e3, c);
  }

  lemma OnceEach(p: Plan)
    requires p.Valid() && !p.passes
    ensures InNode(Example(p), BlockHash(p.last)) && InNode(Example(p), BlockHash(p.last - 1))
    ensures Harmless(Example(p), BlockHash(p.last))
    ensures RollsBack(Example(p), BlockHash(p.last)) && RollsBack(Example(p), BlockHash(p.last - 1))
  {
    hide *;
    SpendIs(p);
    var n, t, s := Example(p), BlockHash(p.last), BlockHash(p.last - 1);
    Placed(p, p.last);
    Placed(p, p.last - 1);
    PartsAre(p, p.last);
    PartsAre(p, p.last - 1);
    ListsAre(p, p.last);
    ListsAre(p, p.last - 1);
    BlockEffectsAre(p, p.last - 1);
    ReversalFlips(n, t);
    NothingTouched();
    forall c
      ensures Touches(RegularEffects(n, s), c) <= 1 && Touches(OwnEffects(n, s), c) <= 1
      ensures Touches(OwnEffects(n, t), c) == if c == Mine(p.last) then 1 else 0
      ensures Touches(ReversedEffects(n, t), c) == Touches(RegularEffects(n, s), c)
    {
      TouchedOnce(p, c);
      FlipsAt(RegularEffects(n, s), ReversedEffects(n, t), c);
      assert |History(ReversedEffects(n, t), c)| == |Flipped(History(OwnList(p, p.last - 1), c))|;
    }
    TouchedOnce(p, Mine(p.last));
    OnceEachMeans(n, t, s, Mine(p.last));
  }

  lemma OnceEachMeans(n: Node, t: Hash, s: Hash, mine: Coin)
    requires InNode(n, t) && InNode(n, s) && Disapproves(n, t) && Parent(n, t) == s
    requires forall c :: Touches(RegularEffects(n, s), c) <= 1
    requires forall c :: Touches(OwnEffects(n, s), c) <= 1
    requires forall c :: Touches(OwnEffects(n, t), c) == if c == mine then 1 else 0
    requires Touches(ReversedEffects(n, t), mine) == 0 && ReversedEffects(n, s) == []
    ensures Harmless(n, t) && RollsBack(n, t) && RollsBack(n, s)
  {
    hide Translation, ValidNode, Touches, RegularEffects, OwnEffects, ReversedEffects;
    NothingTouched();
  }

  lemma NothingTouched()
    ensures forall c :: Touches([], c) == 0
  {
  }

  /** If the payment is not passed on, all premises of conservation hold, also after disapproving it. */
  lemma PremisesHold(p: Plan) returns (db: Db, moves: seq<Move>)
    requires p.Valid() && !p.passes
    ensures InNode(Example(p), BlockHash(p.last)) && ConsensusValid(Example(p))
    ensures RosettaCoins.TreesMatch(Example(p))
    ensures OnChain(Example(p), db, BlockHash(p.last), moves) && Forward(moves)
    ensures HarmlessTo(Example(p), BlockHash(p.last))
    ensures AllRollBack(Example(p), [Down(BlockHash(p.last - 1)), Down(BlockHash(p.last))])
    ensures Sum(ListUtxos(db.utxos, FRIEND)) == Balance(db.balances, FRIEND, db.tipHeight) == 0
  {
    hide *;
    SpendIs(p);
    FriendIsOrdinary();
    var n, t, s := Example(p), BlockHash(p.last), BlockHash(p.last - 1);
    ExampleConsensus(p);
    AllProcessable(p, p.last);
    AllProcessable(p, p.last - 1);
    db, moves := Reach(n, t);
    ForwardRewinds(n, moves);
    Placed(p, p.last);
    Placed(p, p.last - 1);
    HarmlessBefore(p, p.last - 2);
    HarmlessBefore(p, p.last - 1);
    OnceEach(p);
    ExampleTrees(p);
    HarmlessNext(n, t);
    TwoRollBack(n, s, t);
    Conservation(n, db, t, moves, FRIEND);
    LedgerAtEnd(p);
    BalanceIsLedger(n, db, t, moves, FRIEND);
  }

  lemma HarmlessNext(n: Node, h: Hash)
    requires InNode(n, h) && Height(n, h) > 0 && HarmlessTo(n, Parent(n, h)) && Harmless(n, h)
    ensures HarmlessTo(n, h)
  {
  }

  lemma TwoRollBack(n: Node, s: Hash, t: Hash)
    requires InNode(n, t) && Height(n, t) > 1 && Parent(n, t) == s && Processable(n, s) && Processable(n, t)
    requires HarmlessTo(n, s) && HarmlessTo(n, Parent(n, s)) && RollsBack(n, s) && RollsBack(n, t)
    ensures AllRollBack(n, [Down(s), Down(t)])
  {
  }
}
