/** What reversing transactions in forward order does to coins, as a disapproving block does to its parent's. */
module Reversal {
  import opened Wire
  import opened BlockOps
  import opened Coins
  import Rosetta

  /** Reversing touches each coin the way the original list did, with additions and removals exchanged. */
  ghost predicate Flips(done: seq<Effect>, undone: seq<Effect>) {
    forall c :: History(undone, c) == Flipped(History(done, c))
  }

  /** No coin is touched by both lists. */
  ghost predicate Apart(x: seq<Effect>, y: seq<Effect>) {
    forall c :: Touches(x, c) == 0 || Touches(y, c) == 0
  }

  /* ----- Reversed transactions ----- */

  ghost predicate SpendsOthers(tx: Tx) {
    forall i | 0 <= i < |tx.ins| :: tx.ins[i].prevOut.hash != tx.hash
  }

  lemma {:induction false} OrdinaryEffectsConcat(x: seq<Op>, y: seq<Op>)
    ensures OrdinaryEffects(x + y) == OrdinaryEffects(x) + OrdinaryEffects(y)
  {
    if y == [] {
      assert x + y == x;
    } else {
      assert (x + y)[..|x + y| - 1] == x + y[..|y| - 1];
      OrdinaryEffectsConcat(x, y[..|y| - 1]);
    }
  }

  lemma {:induction false} OrdinaryEffectsBares(ops: seq<Op>)
    ensures OrdinaryEffects(Bares(ops)) == OrdinaryEffects(ops)
  {
    if ops != [] {
      var n := |ops| - 1;
      OrdinaryEffectsBares(ops[..n]);
      assert Bares(ops)[..n] == Bares(ops[..n]);
      assert OutPointOf(Bare(ops[n])) == OutPointOf(ops[n]);
    }
  }

  lemma {:induction false} OrdinaryEffectsMirrors(ops: seq<Op>)
    requires forall i | 0 <= i < |ops| :: !ops[i].IsReversed()
    ensures OrdinaryEffects(Mirrors(ops)) == Undos(OrdinaryEffects(ops))
  {
    if ops != [] {
      var n := |ops| - 1;
      OrdinaryEffectsMirrors(ops[..n]);
      assert Mirrors(ops)[..n] == Mirrors(ops[..n]);
      MirrorUndoes(ops[n]);
      UndosSnoc(OrdinaryEffects(ops[..n]), EffectOf(ops[n]));
    }
  }

  lemma MirrorUndoes(op: Op)
    requires !op.IsReversed()
    ensures Mirror(op).account == op.account && EffectOf(Mirror(op)) == Undo(EffectOf(op))
  {
    assert OutPointOf(Mirror(op)) == OutPointOf(op);
  }

  lemma {:induction false} Untouched(ops: seq<Op>, c: Coin)
    requires forall i | 0 <= i < |ops| :: OutPointOf(ops[i]) != c.outpoint
    ensures History(OrdinaryEffects(ops), c) == []
  {
    if ops != [] {
      Untouched(ops[..|ops| - 1], c);
    }
  }

  /** Inputs name other transactions and outputs name their own, so no coin is touched on both sides. */
  lemma OneSide(txs: map<Hash, Tx>, ops: seq<Op>, k: nat, ctx: TxContext, c: Coin)
    requires Rosetta.OneTx(ops, ctx) && RealOps(txs, ops) && SpendsOthers(ctx.tx)
    requires k <= |ops| && AllDebits(ops[..k], true) && AllDebits(ops[k..], false)
    ensures History(OrdinaryEffects(ops[..k]), c) == [] || History(OrdinaryEffects(ops[k..]), c) == []
  {
    if c.outpoint.hash == ctx.tx.hash {
      forall i | 0 <= i < k ensures OutPointOf(ops[..k][i]) != c.outpoint {
        assert RealOp(txs, ops[i]) && ops[..k][i].side.Debit?;
      }
      Untouched(ops[..k], c);
    } else {
      forall i | 0 <= i < |ops| - k ensures OutPointOf(ops[k..][i]) != c.outpoint {
        assert ops[k..][i] == ops[k + i] && ops[k..][i].side.Credit?;
      }
      Untouched(ops[k..], c);
    }
  }

  lemma FlippedConcat(x: seq<bool>, y: seq<bool>)
    ensures Flipped(x + y) == Flipped(x) + Flipped(y)
  {
  }

  lemma MirroredHistory(txs: map<Hash, Tx>, done: seq<Op>, undone: seq<Op>, k: nat, ctx: TxContext, c: Coin)
    requires MirrorsWithOutputsFirst(done, undone, k) && ctx.status.Success?
    requires Rosetta.OneTx(done, ctx) && RealOps(txs, done) && SpendsOthers(ctx.tx)
    ensures History(OrdinaryEffects(undone), c) == Flipped(History(OrdinaryEffects(done), c))
  {
    var ins, outs := done[..k], done[k..];
    OneSide(txs, done, k, ctx, c);
    hide RealOps, History, OrdinaryEffects, Undos, Flipped;
    assert done == ins + outs;
    OrdinaryEffectsBares(undone);
    OrdinaryEffectsConcat(Mirrors(outs), Mirrors(ins));
    OrdinaryEffectsMirrors(outs);
    OrdinaryEffectsMirrors(ins);
    HistoryConcat(Undos(OrdinaryEffects(outs)), Undos(OrdinaryEffects(ins)), c);
    UndosFlip(OrdinaryEffects(outs), c);
    UndosFlip(OrdinaryEffects(ins), c);
    OrdinaryEffectsConcat(ins, outs);
    HistoryConcat(OrdinaryEffects(ins), OrdinaryEffects(outs), c);
    FlippedConcat(History(OrdinaryEffects(ins), c), History(OrdinaryEffects(outs), c));
    NothingFlipped();
  }

  lemma NothingFlipped()
    ensures Flipped([]) == [] && forall h: seq<bool> :: [] + h == h + [] == h
  {
  }

  lemma ReversedTxHistory(accountOf: AccountOf, txs: map<Hash, Tx>, tx: Tx, i: nat, c: Coin)
    requires TxEmission(accountOf, txs, TxContext(TREE_REGULAR, Success, tx, i)).err.None?
    requires Known(txs, [tx]) && SpendsOthers(tx)
    ensures History(OrdinaryEffects(TxEmission(accountOf, txs, TxContext(TREE_REGULAR, Reversed, tx, i)).ops), c) ==
            Flipped(History(OrdinaryEffects(TxEmission(accountOf, txs, TxContext(TREE_REGULAR, Success, tx,
                i)).ops), c))
  {
    hide TxEmission, History, OrdinaryEffects, Flipped, RealOps, RealOp, Known, Rosetta.OneTx;
    var ctx := TxContext(TREE_REGULAR, Success, tx, i);
    var done := TxEmission(accountOf, txs, ctx).ops;
    var undone := TxEmission(accountOf, txs, TxContext(TREE_REGULAR, Reversed, tx, i)).ops;
    ReversedTxMirrors(accountOf, txs, TREE_REGULAR, tx, i);
    TxOpsReal(accountOf, txs, ctx);
    Rosetta.TxEmissionOneTx(accountOf, txs, ctx);
    var k: nat :| MirrorsWithOutputsFirst(done, undone, k);
    MirroredHistory(txs, done, undone, k, ctx, c);
  }

  /** Reversing a list of transactions flips the history of every coin, although the transactions keep their order. */
  lemma {:induction false} ReversedHistory(accountOf: AccountOf, txs: map<Hash, Tx>, list: seq<Tx>, c: Coin)
    requires TxsEmission(accountOf, txs, TREE_REGULAR, Success, list).err.None?
    requires Known(txs, list) && forall i | 0 <= i < |list| :: SpendsOthers(list[i])
    ensures TxsEmission(accountOf, txs, TREE_REGULAR, Reversed, list).err.None?
    ensures History(OrdinaryEffects(TxsEmission(accountOf, txs, TREE_REGULAR, Reversed, list).ops), c) ==
            Flipped(History(OrdinaryEffects(TxsEmission(accountOf, txs, TREE_REGULAR, Success, list).ops), c))
  {
    if list == [] {
      NothingFlipped();
    } else {
      var n := |list| - 1;
      var ctx := TxContext(TREE_REGULAR, Success, list[n], n);
      var front := TxsEmission(accountOf, txs, TREE_REGULAR, Success, list[..n]).ops;
      var front' := TxsEmission(accountOf, txs, TREE_REGULAR, Reversed, list[..n]).ops;
      var last, last' := TxEmission(accountOf, txs, ctx).ops,
                         TxEmission(accountOf, txs, ctx.(status := Reversed)).ops;
      ReversedHistory(accountOf, txs, list[..n], c);
      ReversedTxMirrors(accountOf, txs, TREE_REGULAR, list[n], n);
      assert list[n] in list;
      hide TxEmission, History, OrdinaryEffects, Flipped;
      ReversedTxHistory(accountOf, txs, list[n], n, c);
      OrdinaryEffectsConcat(front, last);
      OrdinaryEffectsConcat(front', last');
      HistoryConcat(OrdinaryEffects(front), OrdinaryEffects(last), c);
      HistoryConcat(OrdinaryEffects(front'), OrdinaryEffects(last'), c);
      FlippedConcat(History(OrdinaryEffects(front), c), History(OrdinaryEffects(last), c));
    }
  }

  /* ----- Reversing d after d and s were played ----- */

  /**
   * Reversing d after d and s fits a coin exactly when d does not touch it, or d and s together do so an odd number of
   * times.
   */
  lemma ReversalFitsCoin(u: Utxos, d: seq<Effect>, s: seq<Effect>, r: seq<Effect>, price: Prices, c: Coin)
    requires Playable(u, d + s) && History(r, c) == Flipped(History(d, c))
    requires PricedUtxos(u, price) && PricedEffects(d + s, price)
    ensures Alternates(c in ApplyAll(u, d + s), History(r, c)) <==>
            Touches(d, c) == 0 || (Touches(d, c) + Touches(s, c)) % 2 == 1
  {
    hide History, Touches, ApplyAll, Alternates, Playable, Flipped;
    PlayableAlternates(u, d + s, c, price);
    HistoryConcat(d, s, c);
    AlternatesConcat(c in u, History(d, c), History(s, c));
    FlippedAlternates(c in u, History(d, c), c in ApplyAll(u, d + s));
  }

  /** The reversal spends what is unspent and creates what is new exactly when that holds of every coin. */
  lemma ReversalPlayable(u: Utxos, d: seq<Effect>, s: seq<Effect>, r: seq<Effect>, price: Prices)
    requires Playable(u, d + s) && Flips(d, r)
    requires PricedUtxos(u, price) && PricedEffects(d + s, price) && PricedEffects(r, price)
    ensures Playable(ApplyAll(u, d + s), r) <==>
            forall c :: Touches(d, c) > 0 ==> (Touches(d, c) + Touches(s, c)) % 2 == 1
  {
    hide History, Touches, ApplyAll, Alternates, Playable, Flipped, PricedUtxos, PricedEffects;
    var w := ApplyAll(u, d + s);
    ApplyAllPriced(u, d + s, price);
    PlayableIs(w, r, price);
    if Playable(w, r) {
      forall c ensures Touches(d, c) > 0 ==> (Touches(d, c) + Touches(s, c)) % 2 == 1 {
        ReversalFitsCoin(u, d, s, r, price, c);
      }
    } else {
      var c :| !Alternates(c in w, History(r, c));
      ReversalFitsCoin(u, d, s, r, price, c);
    }
  }

  /** A coin that s does not touch is restored exactly when d touches it zero or an odd number of times. */
  lemma ReversalRestoresCoin(u: Utxos, d: seq<Effect>, s: seq<Effect>, r: seq<Effect>, price: Prices, c: Coin)
    requires Playable(u, d + s) && Flips(d, r) && Touches(s, c) == 0
    requires PricedUtxos(u, price) && PricedEffects(d + s, price)
    ensures (c in ApplyAll(ApplyAll(u, d + s), r) <==> c in u) <==> Touches(d, c) == 0 || Touches(d, c) % 2 == 1
  {
    hide History, Touches, ApplyAll, Alternates, Playable, Flipped;
    PlayableAlternates(u, d + s, c, price);
    HistoryConcat(d, s, c);
    LastTouchDecides(u, d + s, c);
    LastTouchDecides(ApplyAll(u, d + s), r, c);
  }

  /* ----- A block's list: a reversal r, then its own effects o ----- */

  /**
   * From the coins w that a parent left, r tries to reach the coins of base. It flips every coin it touches in the
   * end, where an even number of touches should have left it alone.
   */
  ghost predicate Approximates(w: Utxos, r: seq<Effect>, base: Utxos) {
    forall c :: ApproximatesAt(w, r, base, c)
  }

  ghost predicate ApproximatesAt(w: Utxos, r: seq<Effect>, base: Utxos, c: Coin) {
    if Touches(r, c) == 0 then c in base <==> c in w
    else
      && ((c in base) == ((c in w) == (Touches(r, c) % 2 == 0)))
      && After(c in w, History(r, c)) == (c !in w)
      && (Alternates(c in w, History(r, c)) <==> Touches(r, c) % 2 == 1)
  }

  lemma ReversalApproximatesAt(u: Utxos, d: seq<Effect>, s: seq<Effect>, r: seq<Effect>, price: Prices, c: Coin)
    requires Playable(u, d + s) && History(r, c) == Flipped(History(d, c)) && (Touches(d, c) == 0 || Touches(s, c) == 0)
    requires PricedUtxos(u, price) && PricedEffects(d + s, price)
    ensures ApproximatesAt(ApplyAll(u, d + s), r, ApplyAll(u, s), c)
  {
    hide History, Touches, ApplyAll, Alternates, Playable, Flipped;
    PlayableAlternates(u, d + s, c, price);
    HistoryConcat(d, s, c);
    LastTouchDecides(u, d + s, c);
    LastTouchDecides(u, s, c);
    ReversalFitsCoin(u, d, s, r, price, c);
  }

  /** Taking back d, where s does not interfere, is such an attempt to reach the coins that s alone would leave. */
  lemma ReversalApproximates(u: Utxos, d: seq<Effect>, s: seq<Effect>, r: seq<Effect>, price: Prices)
    requires Playable(u, d + s) && Flips(d, r) && Apart(d, s)
    requires PricedUtxos(u, price) && PricedEffects(d + s, price)
    ensures Approximates(ApplyAll(u, d + s), r, ApplyAll(u, s))
  {
    hide History, Touches, ApplyAll, Playable, Flipped, PricedUtxos, PricedEffects, ApproximatesAt;
    forall c ensures ApproximatesAt(ApplyAll(u, d + s), r, ApplyAll(u, s), c) {
      ReversalApproximatesAt(u, d, s, r, price, c);
    }
  }

  lemma NothingReversed(w: Utxos)
    ensures Approximates(w, [], w)
  {
  }

  /** Playing d and then s, which touch different coins, plays s alone as well. */
  lemma ApartPlayable(u: Utxos, d: seq<Effect>, s: seq<Effect>, price: Prices)
    requires Playable(u, d + s) && Apart(d, s)
    requires PricedUtxos(u, price) && PricedEffects(d, price) && PricedEffects(s, price)
    ensures Playable(u, s)
  {
    PlayableIs(u, d + s, price);
    PlayableIs(u, s, price);
    forall c ensures Alternates(c in u, History(s, c)) {
      HistoryConcat(d, s, c);
      AlternatesConcat(c in u, History(d, c), History(s, c));
    }
  }

  /** o touches every coin that r touches a positive, even number of times. */
  ghost predicate Mends(r: seq<Effect>, o: seq<Effect>) {
    forall c :: Touches(r, c) > 0 && Touches(r, c) % 2 == 0 ==> Touches(o, c) > 0
  }

  /** r and o together touch every coin of o an odd number of times. */
  ghost predicate OddInAll(r: seq<Effect>, o: seq<Effect>) {
    forall c :: Touches(o, c) > 0 ==> (Touches(r, c) + Touches(o, c)) % 2 == 1
  }

  lemma FlipsMends(d: seq<Effect>, r: seq<Effect>, o: seq<Effect>)
    requires Flips(d, r)
    ensures Mends(d, o) <==> Mends(r, o)
  {
    hide Touches, History, Flipped;
    forall c ensures Touches(d, c) == Touches(r, c) {
      assert |History(r, c)| == |Flipped(History(d, c))|;
    }
  }

  lemma FlipsSafe(d: seq<Effect>, r: seq<Effect>)
    requires Flips(d, r)
    ensures UndoSafe(d) <==> UndoSafe(r)
  {
    hide Touches, History, Flipped;
    forall c ensures Touches(d, c) == Touches(r, c) {
      assert |History(r, c)| == |Flipped(History(d, c))|;
    }
  }

  lemma ReachesCoin(w: Utxos, r: seq<Effect>, base: Utxos, o: seq<Effect>, c: Coin)
    requires ApproximatesAt(w, r, base, c)
    ensures (c in ApplyAll(w, r + o) <==> c in ApplyAll(base, o)) <==>
            (Touches(r, c) > 0 && Touches(r, c) % 2 == 0 ==> Touches(o, c) > 0)
  {
    hide History, Touches, ApplyAll, Alternates;
    HistoryConcat(r, o, c);
    LastTouchDecides(w, r + o, c);
    LastTouchDecides(base, o, c);
  }

  /** The list ends in the right coins exactly when it touches again every coin the reversal got wrong. */
  lemma ReachesIff(w: Utxos, r: seq<Effect>, base: Utxos, o: seq<Effect>, price: Prices)
    requires Approximates(w, r, base) && PricedUtxos(w, price) && PricedUtxos(base, price)
    requires PricedEffects(r, price) && PricedEffects(o, price)
    ensures ApplyAll(w, r + o) == ApplyAll(base, o) <==> Mends(r, o)
  {
    var x, y := ApplyAll(w, r + o), ApplyAll(base, o);
    ApplyAllPriced(w, r + o, price);
    ApplyAllPriced(base, o, price);
    hide Touches, ApplyAll, ApproximatesAt, PricedUtxos, PricedEffects;
    if x == y {
      forall c ensures Touches(r, c) > 0 && Touches(r, c) % 2 == 0 ==> Touches(o, c) > 0 {
        ReachesCoin(w, r, base, o, c);
      }
    } else {
      var c := Difference(x, y, price);
      ReachesCoin(w, r, base, o, c);
    }
  }

  lemma PlaysCoin(w: Utxos, r: seq<Effect>, base: Utxos, o: seq<Effect>, c: Coin)
    requires ApproximatesAt(w, r, base, c) && Alternates(c in base, History(o, c))
    ensures Alternates(c in w, History(r + o, c)) <==> (Touches(r, c) > 0 ==> Touches(r, c) % 2 == 1)
  {
    hide History, Touches;
    HistoryConcat(r, o, c);
    AlternatesConcat(c in w, History(r, c), History(o, c));
  }

  /** The list is playable exactly when the reversal touches no coin a positive, even number of times. */
  lemma PlaysIff(w: Utxos, r: seq<Effect>, base: Utxos, o: seq<Effect>, price: Prices)
    requires Approximates(w, r, base) && Playable(base, o) && PricedUtxos(w, price) && PricedUtxos(base, price)
    requires PricedEffects(r, price) && PricedEffects(o, price)
    ensures Playable(w, r + o) <==> UndoSafe(r)
  {
    PlayableIs(w, r + o, price);
    PlayableIs(base, o, price);
    hide History, Touches, Playable, ApproximatesAt, Alternates, PricedUtxos, PricedEffects;
    if Playable(w, r + o) {
      forall c ensures Touches(r, c) > 0 ==> Touches(r, c) % 2 == 1 {
        PlaysCoin(w, r, base, o, c);
      }
    } else {
      var c :| !Alternates(c in w, History(r + o, c));
      PlaysCoin(w, r, base, o, c);
    }
  }

  lemma PricedConcat(x: seq<Effect>, y: seq<Effect>, price: Prices)
    ensures PricedEffects(x + y, price) <==> PricedEffects(x, price) && PricedEffects(y, price)
  {
    if PricedEffects(x + y, price) {
      assert forall i | 0 <= i < |x| :: x[i] == (x + y)[i];
      assert forall i | 0 <= i < |y| :: y[i] == (x + y)[|x| + i];
    }
  }

  lemma RewindsCoin(w: Utxos, r: seq<Effect>, base: Utxos, o: seq<Effect>, c: Coin)
    requires ApproximatesAt(w, r, base, c) && Alternates(c in base, History(o, c))
    ensures (c in ApplyAll(ApplyAll(w, r + o), Undos(r + o)) <==> c in w) <==>
            (Touches(o, c) > 0 ==> (Touches(r, c) + Touches(o, c)) % 2 == 1)
  {
    hide History, Touches, ApplyAll, Undos, Alternates;
    UndoneCoin(w, r + o, c);
    HistoryConcat(r, o, c);
    AlternatesParity(c in base, History(o, c));
  }

  /**
   * Undoing the list in forward order restores w exactly when every coin of o is touched an odd number of times in
   * all.
   */
  lemma RewindsIff(w: Utxos, r: seq<Effect>, base: Utxos, o: seq<Effect>, price: Prices)
    requires Approximates(w, r, base) && Playable(base, o) && PricedUtxos(w, price) && PricedUtxos(base, price)
    requires PricedEffects(r, price) && PricedEffects(o, price)
    ensures ApplyAll(ApplyAll(w, r + o), Undos(r + o)) == w <==> OddInAll(r, o)
  {
    hide History, Touches, ApplyAll, Undos, Playable, ApproximatesAt, Alternates, PricedUtxos, PricedEffects;
    var v := ApplyAll(ApplyAll(w, r + o), Undos(r + o));
    PricedConcat(r, o, price);
    UndonePriced(w, r + o, price);
    PlayableIs(base, o, price);
    if v == w {
      forall c ensures Touches(o, c) > 0 ==> (Touches(r, c) + Touches(o, c)) % 2 == 1 {
        RewindsCoin(w, r, base, o, c);
      }
    } else {
      var c := Difference(v, w, price);
      RewindsCoin(w, r, base, o, c);
    }
  }
}
