/** How lists of operations change the set of unspent outputs, and when undoing them restores it. */
module Coins {
  import opened Prelude
  import opened Wire
  import opened BlockOps

  datatype Coin = Coin(account: Account, outpoint: OutPoint)

  type Utxos = map<Coin, int>

  /** What an operation does to one coin: add it with an amount, or remove it (the amount is then its value). */
  datatype Effect = Effect(coin: Coin, adds: bool, amount: int)

  /** Connecting: a credit creates and a debit spends, the other way around when reversed. */
  function EffectOf(op: Op): Effect {
    var adds := op.side.Credit? != op.IsReversed();
    Effect(Coin(op.account, OutPointOf(op)), adds, if adds then op.amount else -op.amount)
  }

  function Undo(e: Effect): Effect {
    e.(adds := !e.adds)
  }

  function Apply(u: Utxos, e: Effect): Utxos {
    if e.adds then u[e.coin := e.amount] else u - {e.coin}
  }

  function ApplyAll(u: Utxos, es: seq<Effect>): Utxos {
    if es == [] then u else Apply(ApplyAll(u, es[..|es| - 1]), es[|es| - 1])
  }

  function Effects(ops: seq<Op>): (r: seq<Effect>)
    ensures |r| == |ops|
  {
    if ops == [] then [] else Effects(ops[..|ops| - 1]) + [EffectOf(ops[|ops| - 1])]
  }

  lemma EffectsSnoc(ops: seq<Op>, op: Op)
    ensures Effects(ops + [op]) == Effects(ops) + [EffectOf(op)]
  {
    assert (ops + [op])[..|ops|] == ops;
  }

  /** The effects on accounts that are backed by coins; the treasury is not. */
  function OrdinaryEffects(ops: seq<Op>): seq<Effect> {
    if ops == [] then [] else
      var op := ops[|ops| - 1];
      var front := OrdinaryEffects(ops[..|ops| - 1]);
      if op.account == TREASURY then front else front + [EffectOf(op)]
  }

  function Undos(es: seq<Effect>): (r: seq<Effect>)
    ensures |r| == |es|
    ensures forall i | 0 <= i < |es| :: r[i] == Undo(es[i])
  {
    if es == [] then [] else Undos(es[..|es| - 1]) + [Undo(es[|es| - 1])]
  }

  function Ordinary(u: Utxos): Utxos {
    map c | c in u && c.account != TREASURY :: u[c]
  }

  function ListUtxos(u: Utxos, a: Account): map<OutPoint, int> {
    map c | c in u && c.account == a :: c.outpoint := u[c]
  }

  /** How often a list touches a coin. */
  function Touches(es: seq<Effect>, c: Coin): nat {
    if es == [] then 0
    else Touches(es[..|es| - 1], c) + if es[|es| - 1].coin == c then 1 else 0
  }

  /** What a list does to one coin, in order: true for adding it, false for removing it. */
  function History(es: seq<Effect>, c: Coin): (r: seq<bool>)
    ensures |r| == Touches(es, c)
  {
    if es == [] then [] else
      var e := es[|es| - 1];
      History(es[..|es| - 1], c) + if e.coin == c then [e.adds] else []
  }

  /** Whether a coin is there after a history: the last step decides. */
  function After(there: bool, h: seq<bool>): bool {
    if h == [] then there else h[|h| - 1]
  }

  /** A history that adds only what is absent and removes only what is there. */
  ghost predicate Alternates(there: bool, h: seq<bool>) {
    forall i | 0 <= i < |h| :: h[i] != After(there, h[..i])
  }

  function Flipped(h: seq<bool>): (r: seq<bool>)
    ensures |r| == |h| && forall i | 0 <= i < |h| :: r[i] == !h[i]
  {
    seq(|h|, i requires 0 <= i < |h| => !h[i])
  }

  /** An added coin is absent before, a removed one is present with the amount removed. */
  ghost predicate Fits(u: Utxos, e: Effect) {
    if e.adds then e.coin !in u else e.coin in u && u[e.coin] == e.amount
  }

  /** The list makes sense as a history: every effect fits the coins its predecessors left. */
  ghost predicate Playable(u: Utxos, es: seq<Effect>) {
    forall i | 0 <= i < |es| :: Fits(ApplyAll(u, es[..i]), es[i])
  }

  /** The amounts an outpoint can have are fixed once and for all. */
  type Prices = OutPoint -> int

  ghost predicate PricedUtxos(u: Utxos, price: Prices) {
    forall c | c in u :: u[c] == price(c.outpoint)
  }

  ghost predicate PricedEffects(es: seq<Effect>, price: Prices) {
    forall i | 0 <= i < |es| :: es[i].amount == price(es[i].coin.outpoint)
  }

  /** No coin is touched a positive, even number of times. */
  ghost predicate UndoSafe(es: seq<Effect>) {
    forall c :: Touches(es, c) > 0 ==> Touches(es, c) % 2 == 1
  }

  lemma ApplySnoc(u: Utxos, es: seq<Effect>, e: Effect)
    ensures ApplyAll(u, es + [e]) == Apply(ApplyAll(u, es), e)
  {
    assert (es + [e])[..|es|] == es;
  }

  /* ----- One coin at a time ----- */

  /** The last effect touching a coin decides whether it is unspent; untouched coins keep their entry. */
  lemma {:induction false} LastTouchDecides(u: Utxos, es: seq<Effect>, c: Coin)
    ensures c in ApplyAll(u, es) <==> After(c in u, History(es, c))
    ensures Touches(es, c) == 0 && c in u ==> ApplyAll(u, es)[c] == u[c]
  {
    if es != [] {
      LastTouchDecides(u, es[..|es| - 1], c);
    }
  }

  lemma HistorySnoc(es: seq<Effect>, e: Effect, c: Coin)
    ensures History(es + [e], c) == History(es, c) + if e.coin == c then [e.adds] else []
  {
    assert (es + [e])[..|es|] == es;
  }

  lemma {:induction false} HistoryConcat(x: seq<Effect>, y: seq<Effect>, c: Coin)
    ensures History(x + y, c) == History(x, c) + History(y, c)
    ensures Touches(x + y, c) == Touches(x, c) + Touches(y, c)
  {
    if y == [] {
      assert x + y == x;
    } else {
      assert (x + y)[..|x + y| - 1] == x + y[..|y| - 1];
      HistoryConcat(x, y[..|y| - 1], c);
    }
  }

  lemma AlternatesSnoc(there: bool, h: seq<bool>, adds: bool)
    ensures Alternates(there, h + [adds]) <==> Alternates(there, h) && adds != After(there, h)
  {
    hide After;
    var l := h + [adds];
    assert l[..|h|] == h && l[|h|] == adds;
    assert forall i | 0 <= i < |h| :: l[..i] == h[..i] && l[i] == h[i];
    if Alternates(there, l) {
      assert l[|h|] != After(there, l[..|h|]);
      forall i | 0 <= i < |h| ensures h[i] != After(there, h[..i]) {
        assert l[i] != After(there, l[..i]);
      }
    }
    if Alternates(there, h) && adds != After(there, h) {
      forall i | 0 <= i < |l| ensures l[i] != After(there, l[..i]) {
        assert i < |h| ==> h[i] != After(there, h[..i]);
      }
    }
  }

  lemma {:induction false} AlternatesParity(there: bool, h: seq<bool>)
    requires Alternates(there, h)
    ensures After(there, h) == (there == (|h| % 2 == 0))
    decreases |h|
  {
    if h != [] {
      hide Alternates;
      var n := |h| - 1;
      assert h == h[..n] + [h[n]];
      AlternatesSnoc(there, h[..n], h[n]);
      AlternatesParity(there, h[..n]);
    }
  }

  lemma {:induction false} AlternatesConcat(there: bool, x: seq<bool>, y: seq<bool>)
    ensures After(there, x + y) == After(After(there, x), y)
    ensures Alternates(there, x + y) <==> Alternates(there, x) && Alternates(After(there, x), y)
    decreases |y|
  {
    if y == [] {
      assert x + y == x;
    } else {
      hide Alternates;
      var n := |y| - 1;
      assert x + y == x + y[..n] + [y[n]] && y == y[..n] + [y[n]];
      AlternatesConcat(there, x, y[..n]);
      AlternatesSnoc(there, x + y[..n], y[n]);
      AlternatesSnoc(After(there, x), y[..n], y[n]);
    }
  }

  /** A flipped history starts with what the original history started without. */
  lemma {:induction false} FlippedAlternates(there: bool, h: seq<bool>, p: bool)
    requires Alternates(there, h)
    ensures Alternates(p, Flipped(h)) <==> h == [] || p == !there
    decreases |h|
  {
    if h != [] {
      hide Alternates;
      var n := |h| - 1;
      assert h == h[..n] + [h[n]] && Flipped(h) == Flipped(h[..n]) + [!h[n]];
      AlternatesSnoc(there, h[..n], h[n]);
      AlternatesSnoc(p, Flipped(h[..n]), !h[n]);
      FlippedAlternates(there, h[..n], p);
    }
  }

  /** A list is playable exactly when, coin by coin, its history is. */
  lemma {:induction false} PlayableIs(u: Utxos, es: seq<Effect>, price: Prices)
    requires PricedUtxos(u, price) && PricedEffects(es, price)
    ensures Playable(u, es) <==> forall c :: Alternates(c in u, History(es, c))
  {
    if es != [] {
      var n := |es| - 1;
      var front, e := es[..n], es[n];
      PlayableIs(u, front, price);
      ApplyAllPriced(u, front, price);
      PlayableSnoc(u, es);
      LastTouchDecides(u, front, e.coin);
      AlternatesSnoc(e.coin in u, History(front, e.coin), e.adds);
      assert forall c | c != e.coin :: History(es, c) == History(front, c);
      assert History(es, e.coin) == History(front, e.coin) + [e.adds];
    }
  }

  lemma PlayableSnoc(u: Utxos, es: seq<Effect>)
    requires es != []
    ensures Playable(u, es) <==> Playable(u, es[..|es| - 1]) && Fits(ApplyAll(u, es[..|es| - 1]), es[|es| - 1])
  {
    var front, n := es[..|es| - 1], |es| - 1;
    if Playable(u, es) {
      assert Fits(ApplyAll(u, es[..n]), es[n]);
      forall i | 0 <= i < n ensures Fits(ApplyAll(u, front[..i]), front[i]) {
        assert front[..i] == es[..i] && Fits(ApplyAll(u, es[..i]), es[i]);
      }
    }
    if Playable(u, front) && Fits(ApplyAll(u, front), es[n]) {
      forall i | 0 <= i < |es| ensures Fits(ApplyAll(u, es[..i]), es[i]) {
        if i < n {
          assert front[..i] == es[..i] && Fits(ApplyAll(u, front[..i]), front[i]);
        }
      }
    }
  }

  /** In a playable list every touch flips the presence of its coin. */
  lemma PlayableAlternates(u: Utxos, es: seq<Effect>, c: Coin, price: Prices)
    requires Playable(u, es) && PricedUtxos(u, price) && PricedEffects(es, price)
    ensures Alternates(c in u, History(es, c))
    ensures c in ApplyAll(u, es) <==> ((c in u) == (Touches(es, c) % 2 == 0))
  {
    PlayableIs(u, es, price);
    LastTouchDecides(u, es, c);
    AlternatesParity(c in u, History(es, c));
  }

  lemma {:induction false} UndosFlip(es: seq<Effect>, c: Coin)
    ensures History(Undos(es), c) == Flipped(History(es, c))
  {
    if es != [] {
      var n := |es| - 1;
      assert Undos(es)[..n] == Undos(es[..n]);
      UndosFlip(es[..n], c);
    }
  }

  lemma {:induction false} ApplyAllPriced(u: Utxos, es: seq<Effect>, price: Prices)
    requires PricedUtxos(u, price) && PricedEffects(es, price)
    ensures PricedUtxos(ApplyAll(u, es), price)
  {
    if es != [] {
      ApplyAllPriced(u, es[..|es| - 1], price);
    }
  }

  lemma UndosPriced(es: seq<Effect>, price: Prices)
    requires PricedEffects(es, price)
    ensures PricedEffects(Undos(es), price)
  {
  }

  /** Two different priced maps differ in the presence of some coin. */
  lemma Difference(u: Utxos, v: Utxos, price: Prices) returns (c: Coin)
    requires PricedUtxos(u, price) && PricedUtxos(v, price) && u != v
    ensures c in u <==> c !in v
  {
    SameCoinsEqual(u, v, price);
    if k :| k in u && k !in v {
      c := k;
    } else {
      c :| c in v && c !in u;
    }
  }

  lemma SameCoinsEqual(u: Utxos, v: Utxos, price: Prices)
    requires PricedUtxos(u, price) && PricedUtxos(v, price)
    ensures u.Keys == v.Keys ==> u == v
  {
  }

  /** Undoing in forward order leaves a touched coin exactly if the list's last effect removed it. */
  lemma UndoneCoin(u: Utxos, es: seq<Effect>, c: Coin)
    ensures c in ApplyAll(ApplyAll(u, es), Undos(es)) <==>
            if Touches(es, c) == 0 then c in u else !After(c in u, History(es, c))
  {
    LastTouchDecides(u, es, c);
    LastTouchDecides(ApplyAll(u, es), Undos(es), c);
    UndosFlip(es, c);
  }

  /** One coin survives undoing in forward order exactly when it was touched zero or an odd number of times. */
  lemma UndoRestoresCoin(u: Utxos, es: seq<Effect>, c: Coin, price: Prices)
    requires Playable(u, es) && PricedUtxos(u, price) && PricedEffects(es, price)
    ensures (c in ApplyAll(ApplyAll(u, es), Undos(es)) <==> c in u) <==>
            (Touches(es, c) == 0 || Touches(es, c) % 2 == 1)
  {
    PlayableAlternates(u, es, c, price);
    AlternatesParity(c in u, History(es, c));
    UndoneCoin(u, es, c);
  }

  lemma UndonePriced(u: Utxos, es: seq<Effect>, price: Prices)
    requires PricedUtxos(u, price) && PricedEffects(es, price)
    ensures PricedUtxos(ApplyAll(ApplyAll(u, es), Undos(es)), price)
  {
    ApplyAllPriced(u, es, price);
    UndosPriced(es, price);
    ApplyAllPriced(ApplyAll(u, es), Undos(es), price);
  }

  /** Undoing a playable list in forward order restores the coins if and only if the list is undo-safe. */
  lemma UndoRestores(u: Utxos, es: seq<Effect>, price: Prices)
    requires Playable(u, es) && PricedUtxos(u, price) && PricedEffects(es, price)
    ensures ApplyAll(ApplyAll(u, es), Undos(es)) == u <==> UndoSafe(es)
  {
    var v := ApplyAll(ApplyAll(u, es), Undos(es));
    UndonePriced(u, es, price);
    if v == u {
      forall c ensures Touches(es, c) > 0 ==> Touches(es, c) % 2 == 1 {
        UndoRestoresCoin(u, es, c, price);
      }
    } else {
      var c := Difference(v, u, price);
      UndoRestoresCoin(u, es, c, price);
    }
  }

  lemma UndoPlaysCoin(u: Utxos, es: seq<Effect>, price: Prices, c: Coin)
    requires Playable(u, es) && PricedUtxos(u, price) && PricedEffects(es, price)
    ensures Alternates(c in ApplyAll(u, es), History(Undos(es), c)) <==>
            (Touches(es, c) > 0 ==> Touches(es, c) % 2 == 1)
  {
    hide History, Touches, ApplyAll, Alternates, Playable, Undos, PricedUtxos, PricedEffects;
    PlayableAlternates(u, es, c, price);
    UndosFlip(es, c);
    FlippedAlternates(c in u, History(es, c), c in ApplyAll(u, es));
  }

  /** Undoing in forward order is itself a playable list exactly when the original was undo-safe. */
  lemma UndosPlayable(u: Utxos, es: seq<Effect>, price: Prices)
    requires Playable(u, es) && PricedUtxos(u, price) && PricedEffects(es, price)
    ensures Playable(ApplyAll(u, es), Undos(es)) <==> UndoSafe(es)
  {
    hide History, Touches, ApplyAll, Alternates, Playable, Undos, PricedUtxos, PricedEffects;
    var w := ApplyAll(u, es);
    ApplyAllPriced(u, es, price);
    UndosPriced(es, price);
    PlayableIs(w, Undos(es), price);
    if Playable(w, Undos(es)) {
      forall c ensures Touches(es, c) > 0 ==> Touches(es, c) % 2 == 1 {
        UndoPlaysCoin(u, es, price, c);
      }
    } else {
      var c :| !Alternates(c in w, History(Undos(es), c));
      UndoPlaysCoin(u, es, price, c);
    }
  }

  /* ----- Sums ----- */

  ghost function Total(u: Utxos, a: Account): int {
    Sum(ListUtxos(u, a))
  }

  lemma FitsMovesTotal(u: Utxos, e: Effect, a: Account)
    requires Fits(u, e)
    ensures Total(Apply(u, e), a) ==
            Total(u, a) + if e.coin.account != a then 0 else if e.adds then e.amount else -e.amount
  {
    var before, after, o := ListUtxos(u, a), ListUtxos(Apply(u, e), a), e.coin.outpoint;
    if e.coin.account != a {
      assert after == before;
    } else if e.adds {
      assert forall p | p in before :: Coin(a, p) in u;
      assert o !in before;
      assert after == before[o := e.amount];
      SumWith(before, o, e.amount);
    } else {
      assert Coin(a, o) in u && o in before && before[o] == e.amount;
      assert after == before - {o};
      SumWithout(before, o);
    }
  }

  /** Conservation: a playable list moves the coins of an ordinary account exactly as it moves its balance. */
  lemma {:induction false} PlayableConserves(u: Utxos, ops: seq<Op>, a: Account)
    requires Playable(u, OrdinaryEffects(ops)) && a != TREASURY
    ensures Total(ApplyAll(u, OrdinaryEffects(ops)), a) == Total(u, a) + OpSum(ops, a)
  {
    if ops != [] {
      var front, op := ops[..|ops| - 1], ops[|ops| - 1];
      var es, e := OrdinaryEffects(front), EffectOf(op);
      if op.account == TREASURY {
        PlayableConserves(u, front, a);
      } else {
        PlayableSnoc(u, es + [e]);
        assert (es + [e])[..|es|] == es;
        PlayableConserves(u, front, a);
        ApplySnoc(u, es, e);
        FitsMovesTotal(ApplyAll(u, es), e, a);
      }
    }
  }

  /** Ordinary coins evolve independently of the treasury's entries. */
  lemma {:induction false} OrdinaryEvolves(u: Utxos, ops: seq<Op>)
    ensures Ordinary(ApplyAll(u, Effects(ops))) == ApplyAll(Ordinary(u), OrdinaryEffects(ops))
  {
    if ops != [] {
      var front, op := ops[..|ops| - 1], ops[|ops| - 1];
      OrdinaryEvolves(u, front);
      ApplySnoc(u, Effects(front), EffectOf(op));
      OrdinaryApply(ApplyAll(u, Effects(front)), EffectOf(op));
      ApplySnoc(Ordinary(u), OrdinaryEffects(front), EffectOf(op));
    }
  }

  lemma OrdinaryApply(u: Utxos, e: Effect)
    ensures Ordinary(Apply(u, e)) == if e.coin.account == TREASURY then Ordinary(u) else Apply(Ordinary(u), e)
  {
  }

  lemma UndosSnoc(es: seq<Effect>, e: Effect)
    ensures Undos(es + [e]) == Undos(es) + [Undo(e)]
  {
    assert (es + [e])[..|es|] == es;
  }

  /** Undoing op by op is undoing the list of effects. */
  lemma {:induction false} OrdinaryUndoes(u: Utxos, ops: seq<Op>)
    ensures Ordinary(ApplyAll(u, Undos(Effects(ops)))) == ApplyAll(Ordinary(u), Undos(OrdinaryEffects(ops)))
  {
    if ops != [] {
      var front, e := ops[..|ops| - 1], EffectOf(ops[|ops| - 1]);
      OrdinaryUndoes(u, front);
      UndosSnoc(Effects(front), e);
      ApplySnoc(u, Undos(Effects(front)), Undo(e));
      OrdinaryApply(ApplyAll(u, Undos(Effects(front))), Undo(e));
      UndosSnoc(OrdinaryEffects(front), e);
      ApplySnoc(Ordinary(u), Undos(OrdinaryEffects(front)), Undo(e));
    }
  }

  lemma OrdinaryTotal(u: Utxos, a: Account)
    requires a != TREASURY
    ensures ListUtxos(Ordinary(u), a) == ListUtxos(u, a)
  {
  }

  /* ----- Real amounts ----- */

  /** The value of the output an outpoint names. */
  function PriceOf(txs: map<Hash, Tx>): Prices {
    o => match Lookup(txs, o) case Some(prev) => prev.amount case None => 0
  }

  lemma {:induction false} RealOpsPriced(txs: map<Hash, Tx>, ops: seq<Op>)
    requires RealOps(txs, ops)
    ensures PricedEffects(OrdinaryEffects(ops), PriceOf(txs))
  {
    if ops != [] {
      var op := ops[|ops| - 1];
      RealOpsPriced(txs, ops[..|ops| - 1]);
      assert RealOp(txs, op);
      if op.side.Credit? {
        assert op.ctx.tx in [op.ctx.tx];
      }
    }
  }
}
