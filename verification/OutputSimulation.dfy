/** Both databases list the same unspent outputs, transaction by transaction. */
module OutputSimulation {
  import opened Prelude
  import opened Wire
  import opened BlockOps
  import opened Coins
  import opened BadgerKeys
  import MemUtxos
  import BadgerDb

  /** The additions of an account that a list leaves standing: MemDB's journal after the list. */
  function StagedOf(es: seq<Effect>, a: Account): map<OutPoint, int> {
    if es == [] then map[] else
      var e, front := es[|es| - 1], StagedOf(es[..|es| - 1], a);
      if e.coin.account != a then front
      else if e.adds then front[e.coin.outpoint := e.amount]
      else front - {e.coin.outpoint}
  }

  lemma StagedSnoc(es: seq<Effect>, i: nat, a: Account)
    requires i < |es|
    ensures StagedOf(es[..i + 1], a) ==
            var e, front := es[i], StagedOf(es[..i], a);
            if e.coin.account != a then front
            else if e.adds then front[e.coin.outpoint := e.amount]
            else front - {e.coin.outpoint}
  {
    assert es[..i + 1][..i] == es[..i];
  }

  /** The list touches c, and its last touch adds it. */
  ghost predicate LastAdded(es: seq<Effect>, c: Coin) {
    Touches(es, c) > 0 && After(true, History(es, c))
  }

  lemma {:induction false} StagedAreLast(es: seq<Effect>, a: Account, o: OutPoint)
    ensures o in StagedOf(es, a) <==> LastAdded(es, Coin(a, o))
  {
    if es != [] {
      var n := |es| - 1;
      StagedAreLast(es[..n], a, o);
      HistorySnoc(es[..n], es[n], Coin(a, o));
      assert es == es[..n] + [es[n]];
      assert es[n].coin == Coin(es[n].coin.account, es[n].coin.outpoint);
    }
  }

  /** What the list leaves added to the account is new to it. */
  ghost predicate AddsNew(u: Utxos, es: seq<Effect>, a: Account) {
    StagedOf(es, a).Keys !! ListUtxos(u, a).Keys
  }

  lemma AddsNewIs(u: Utxos, es: seq<Effect>, a: Account)
    ensures AddsNew(u, es, a) <==> forall o :: Coin(a, o) in u ==> !LastAdded(es, Coin(a, o))
  {
    hide LastAdded, StagedOf;
    forall o ensures o in StagedOf(es, a) <==> LastAdded(es, Coin(a, o)) {
      StagedAreLast(es, a, o);
    }
    assert forall o :: o in ListUtxos(u, a) <==> Coin(a, o) in u;
  }

  /**
   * If the list is playable as far as this account goes, it adds only new outputs to the account iff it touches none of
   * its stored coins a positive, even number of times.
   */
  lemma PlayableAddsNew(u: Utxos, es: seq<Effect>, a: Account)
    requires forall o :: Alternates(Coin(a, o) in u, History(es, Coin(a, o)))
    ensures AddsNew(u, es, a) <==>
            forall o :: Coin(a, o) in u && Touches(es, Coin(a, o)) > 0 ==> Touches(es, Coin(a, o)) % 2 == 1
  {
    hide Touches, History, Alternates, AddsNew;
    AddsNewIs(u, es, a);
    forall o | Coin(a, o) in u ensures After(true, History(es, Coin(a, o))) <==> Touches(es, Coin(a, o)) % 2 == 0 {
      AlternatesParity(true, History(es, Coin(a, o)));
    }
  }

  lemma {:induction false} OrdinaryHistory(ops: seq<Op>, c: Coin)
    requires c.account != TREASURY
    ensures History(Effects(ops), c) == History(OrdinaryEffects(ops), c)
  {
    if ops != [] {
      var n := |ops| - 1;
      OrdinaryHistory(ops[..n], c);
      HistorySnoc(Effects(ops[..n]), EffectOf(ops[n]), c);
      HistorySnoc(OrdinaryEffects(ops[..n]), EffectOf(ops[n]), c);
    }
  }

  /**
   * Connecting a block whose ordinary ops are playable and undo-safe, and rolling it back, add only new outputs to
   * every
   * ordinary account, whatever the block does to the treasury.
   */
  lemma BlockAddsNew(u: Utxos, ops: seq<Op>, price: Prices, a: Account)
    requires Playable(Ordinary(u), OrdinaryEffects(ops)) && UndoSafe(OrdinaryEffects(ops)) && a != TREASURY
    requires PricedUtxos(Ordinary(u), price) && PricedEffects(OrdinaryEffects(ops), price)
    ensures AddsNew(u, Effects(ops), a)
    ensures AddsNew(ApplyAll(u, Effects(ops)), Undos(Effects(ops)), a)
  {
    hide Playable, History, Touches, ApplyAll, Undos, Effects, OrdinaryEffects, Alternates, AddsNew;
    var w := ApplyAll(u, Effects(ops));
    forall o
      ensures Alternates(Coin(a, o) in u, History(Effects(ops), Coin(a, o)))
      ensures Alternates(Coin(a, o) in w, History(Undos(Effects(ops)), Coin(a, o)))
      ensures Touches(Effects(ops), Coin(a, o)) > 0 ==> Touches(Effects(ops), Coin(a, o)) % 2 == 1
      ensures Touches(Undos(Effects(ops)), Coin(a, o)) == Touches(Effects(ops), Coin(a, o))
    {
      var c := Coin(a, o);
      OrdinaryHistory(ops, c);
      PlayableAlternates(Ordinary(u), OrdinaryEffects(ops), c, price);
      LastTouchDecides(u, Effects(ops), c);
      AlternatesParity(c in u, History(Effects(ops), c));
      UndosFlip(Effects(ops), c);
      FlippedAlternates(c in u, History(Effects(ops), c), c in w);
      SameTouches(ops, c);
      assert |History(Undos(Effects(ops)), c)| == |Flipped(History(Effects(ops), c))|;
    }
    PlayableAddsNew(u, Effects(ops), a);
    PlayableAddsNew(w, Undos(Effects(ops)), a);
  }

  lemma SameTouches(ops: seq<Op>, c: Coin)
    requires c.account != TREASURY
    ensures Touches(Effects(ops), c) == Touches(OrdinaryEffects(ops), c)
  {
    hide Touches, History;
    OrdinaryHistory(ops, c);
    assert |History(Effects(ops), c)| == |History(OrdinaryEffects(ops), c)|;
  }

  ghost predicate Storable(es: seq<Effect>) {
    forall i | 0 <= i < |es| :: Clean(es[i].coin.account) && BadgerDb.IsInt64(es[i].amount)
  }

  /** The index of MemDB holds the outputs of the abstract state, without repetitions. */
  ghost predicate Holds(mem: MemUtxos.Index, u: Utxos)
    reads mem
  {
    mem.Valid() && forall a :: mem.At(a).Stored() == ListUtxos(u, a)
  }

  /** For every account, the list adds only new outputs, or the account's outputs end up in the map bucket. */
  ghost predicate KeepsDistinct(mem: MemUtxos.Index, u: Utxos, es: seq<Effect>)
    reads mem
  {
    forall a :: mem.At(a).BecomesMany(StagedOf(es, a)) || AddsNew(u, es, a)
  }

  lemma ListApply(u: Utxos, e: Effect, a: Account)
    ensures ListUtxos(Apply(u, e), a) ==
            if e.coin.account != a then ListUtxos(u, a)
            else if e.adds then ListUtxos(u, a)[e.coin.outpoint := e.amount]
            else ListUtxos(u, a) - {e.coin.outpoint}
  {
    var l, after, o := ListUtxos(u, a), ListUtxos(Apply(u, e), a), e.coin.outpoint;
    assert forall p :: p in l <==> Coin(a, p) in u;
    assert forall p :: p in after <==> Coin(a, p) in Apply(u, e);
    if e.coin.account == a {
      assert e.coin == Coin(a, o);
    }
  }

  /** The transactions of both databases, after the effects es, agree on all outputs. */
  ghost predicate Parallel(tx: MemUtxos.Journal, btx: BadgerDb.Txn, mem: MemUtxos.Index, es: seq<Effect>)
    reads tx, btx, mem
  {
    && (forall a :: tx.View(a, mem.At(a).Stored()) == ListUtxos(btx.view.utxos, a))
    && (forall a :: tx.Staged(a) == StagedOf(es, a))
  }

  /** One effect, applied to both transactions. */
  method EffectBoth(tx: MemUtxos.Journal, btx: BadgerDb.Txn, e: Effect, ghost mem: MemUtxos.Index,
      ghost es: seq<Effect>,
                    ghost i: nat)
    requires tx.Valid() && btx.Valid() && Clean(e.coin.account) && BadgerDb.IsInt64(e.amount)
    requires i < |es| && es[i] == e && Parallel(tx, btx, mem, es[..i])
    modifies tx, btx
    ensures tx.Valid() && btx.Valid() && Parallel(tx, btx, mem, es[..i + 1])
    ensures btx.view == old(btx.view).(utxos := Apply(old(btx.view.utxos), e))
  {
    hide MemUtxos.Buckets.Stored, MemUtxos.Journal.View, MemUtxos.Journal.Staged, MemUtxos.Journal.Valid, ListUtxos,
      BadgerDb.Encodes, BadgerDb.Represents, MemUtxos.Index.At, Clean, StagedOf;
    ghost var before := btx.view.utxos;
    if e.adds {
      tx.AddUtxo(e.coin.account, e.coin.outpoint, e.amount);
      btx.PutUtxo(e.coin.account, e.coin.outpoint, e.amount);
    } else {
      tx.DelUtxo(e.coin.account, e.coin.outpoint);
      btx.RemoveUtxo(e.coin.account, e.coin.outpoint);
    }
    assert e.coin == Coin(e.coin.account, e.coin.outpoint);
    forall a ensures tx.View(a, mem.At(a).Stored()) == ListUtxos(btx.view.utxos, a) {
      ListApply(before, e, a);
    }
    forall a ensures tx.Staged(a) == StagedOf(es[..i + 1], a) {
      StagedSnoc(es, i, a);
    }
  }

  /** A list of effects, applied to both transactions after those of done. */
  method EffectsBoth(tx: MemUtxos.Journal, btx: BadgerDb.Txn, es: seq<Effect>, ghost mem: MemUtxos.Index,
                     ghost done: seq<Effect>)
    requires tx.Valid() && btx.Valid() && Storable(es) && Parallel(tx, btx, mem, done)
    modifies tx, btx
    ensures tx.Valid() && btx.Valid() && Parallel(tx, btx, mem, done + es)
    ensures btx.view == old(btx.view).(utxos := ApplyAll(old(btx.view.utxos), es))
  {
    hide BadgerDb.Encodes, BadgerDb.Represents, Parallel, MemUtxos.Journal.Valid;
    assert es[..0] == [] && done + [] == done;
    for i := 0 to |es|
      invariant tx.Valid() && btx.Valid() && Parallel(tx, btx, mem, done + es[..i])
      invariant btx.view == old(btx.view).(utxos := ApplyAll(old(btx.view.utxos), es[..i]))
    {
      ghost var all := done + es;
      assert all[..|done| + i] == done + es[..i] && all[..|done| + i + 1] == done + es[..i + 1];
      EffectBoth(tx, btx, es[i], mem, all, |done| + i);
      ApplySnoc(old(btx.view.utxos), es[..i], es[i]);
      assert es[..i + 1] == es[..i] + [es[i]];
    }
    assert es[..|es|] == es;
  }

  /**
   * One transaction that adds and deletes outputs, on both databases: afterwards both list the same outpoints, and
   * MemDB's index still holds the abstract outputs without repetitions iff the list keeps it so.
   */
  method UpdateBoth(mem: MemUtxos.Index, badger: BadgerDb.Database, es: seq<Effect>)
    requires badger.Valid() && Holds(mem, badger.abs.utxos) && Storable(es)
    modifies mem, badger
    ensures badger.Valid() && badger.abs == old(badger.abs).(utxos := ApplyAll(old(badger.abs.utxos), es))
    ensures forall a :: mem.At(a).OneBucket() && mem.At(a).Stored().Keys == ListUtxos(badger.abs.utxos, a).Keys
    ensures Holds(mem, badger.abs.utxos) <==> old(KeepsDistinct(mem, badger.abs.utxos, es))
    ensures forall a :: mem.At(a).many.Some? <==> old(mem.At(a)).BecomesMany(StagedOf(es, a))
  {
    hide MemUtxos.Buckets.Stored, MemUtxos.Journal.View, ListUtxos, BadgerDb.Encodes, BadgerDb.Represents, ApplyAll,
      Storable, StagedOf, MemUtxos.Index.At, MemUtxos.Buckets.OneBucket, MemUtxos.Buckets.BecomesMany,
      MemUtxos.Buckets.Valid;
    var tx := new MemUtxos.Journal();
    var btx := badger.Begin();
    NothingStaged(tx, mem, badger.abs.utxos);
    EffectsBoth(tx, btx, es, mem, []);
    assert [] + es == es;
    SameCondition(mem, tx, btx, badger.abs.utxos, es);
    hide KeepsDistinct, MemUtxos.AddsNew;
    MemUtxos.Commit(mem, tx);
    badger.Commit(btx);
  }

  /** MemDB's own condition for a commit is that of the list. */
  lemma SameCondition(mem: MemUtxos.Index, tx: MemUtxos.Journal, btx: BadgerDb.Txn, u: Utxos, es: seq<Effect>)
    requires Holds(mem, u) && Parallel(tx, btx, mem, es)
    ensures MemUtxos.AddsNew(mem, tx) <==> KeepsDistinct(mem, u, es)
  {
    hide MemUtxos.Buckets.Stored, MemUtxos.Journal.View, ListUtxos, StagedOf, MemUtxos.Index.At,
      MemUtxos.Buckets.BecomesMany, MemUtxos.Buckets.Valid, MemUtxos.Journal.Staged;
  }

  lemma NothingStaged(tx: MemUtxos.Journal, mem: MemUtxos.Index, u: Utxos)
    requires tx.utxos == map[] && tx.delUtxos == map[] && Holds(mem, u)
    ensures forall a :: tx.View(a, mem.At(a).Stored()) == ListUtxos(u, a)
    ensures forall a :: tx.Staged(a) == StagedOf([], a)
  {
    hide MemUtxos.Buckets.Stored, MemUtxos.Index.Valid, ListUtxos, MemUtxos.Index.At;
    forall a ensures tx.View(a, mem.At(a).Stored()) == ListUtxos(u, a) {
      NothingAdded(mem.At(a).Stored());
    }
  }

  lemma NothingAdded(m: map<OutPoint, int>)
    ensures m + map[] - {} == m
  {
  }

  /* ----- Runs ----- */

  function ReplayAll(updates: seq<seq<Effect>>): Utxos {
    if updates == [] then map[] else ApplyAll(ReplayAll(updates[..|updates| - 1]), updates[|updates| - 1])
  }

  /** Whether the run has moved the account to the map bucket: one update would have made it list too many outputs. */
  ghost predicate Outgrown(updates: seq<seq<Effect>>, a: Account) {
    updates != [] &&
    var n := |updates| - 1;
    || Outgrown(updates[..n], a)
    || |StagedOf(updates[n], a)| + |ListUtxos(ReplayAll(updates[..n]), a)| >= MemUtxos.FEW_UTXO_LIMIT
  }

  /**
   * Every update is storable, and for every account adds only new outputs or comes with or after outgrowing the slice.
   */
  ghost predicate Supported(updates: seq<seq<Effect>>) {
    forall i | 0 <= i < |updates| ::
      && Storable(updates[i])
      && forall a :: Outgrown(updates[..i + 1], a) || AddsNew(ReplayAll(updates[..i]), updates[i], a)
  }

  /** MemDB's index after a run. */
  ghost predicate HoldsRun(mem: MemUtxos.Index, updates: seq<seq<Effect>>)
    reads mem
  {
    Holds(mem, ReplayAll(updates)) && forall a :: mem.At(a).many.Some? <==> Outgrown(updates, a)
  }

  lemma OutgrownIs(mem: MemUtxos.Index, updates: seq<seq<Effect>>, i: nat, a: Account)
    requires i < |updates| && HoldsRun(mem, updates[..i])
    ensures mem.At(a).BecomesMany(StagedOf(updates[i], a)) <==> Outgrown(updates[..i + 1], a)
  {
    hide MemUtxos.Buckets.Stored, ListUtxos, StagedOf, ReplayAll, MemUtxos.Buckets.Size;
    assert updates[..i + 1][..i] == updates[..i];
    if mem.At(a).many.None? {
      mem.At(a).SizeIs();
    }
  }

  /** After every supported run both databases hold the coins that applying all effects in order gives. */
  method RunBoth(updates: seq<seq<Effect>>) returns (mem: MemUtxos.Index, badger: BadgerDb.Database)
    requires Supported(updates)
    ensures badger.Valid() && badger.abs.utxos == ReplayAll(updates) && HoldsRun(mem, updates)
  {
    hide MemUtxos.Buckets.Stored, MemUtxos.Index.Valid, ListUtxos, BadgerDb.Encodes, BadgerDb.Represents, ApplyAll,
      Storable, AddsNew, StagedOf, MemUtxos.Index.At, MemUtxos.Buckets.BecomesMany, MemUtxos.Buckets.OneBucket,
      Outgrown;
    mem := new MemUtxos.Index();
    badger := new BadgerDb.Database();
    NothingHeld(mem);
    assert updates[..0] == [];
    for i := 0 to |updates|
      invariant fresh(mem) && fresh(badger)
      invariant badger.Valid() && badger.abs.utxos == ReplayAll(updates[..i]) && HoldsRun(mem, updates[..i])
    {
      assert updates[..i + 1][..i] == updates[..i];
      forall a ensures mem.At(a).BecomesMany(StagedOf(updates[i], a)) <==> Outgrown(updates[..i + 1], a) {
        OutgrownIs(mem, updates, i, a);
      }
      UpdateBoth(mem, badger, updates[i]);
    }
    assert updates[..|updates|] == updates;
  }

  lemma NothingHeld(mem: MemUtxos.Index)
    requires mem.Valid() && forall a :: mem.At(a) == MemUtxos.Buckets(None, None, None)
    ensures HoldsRun(mem, [])
  {
    forall a ensures mem.At(a).Stored() == ListUtxos(map[], a) {
    }
  }

  /** Asked for an account's outputs, both list those of the abstract state. */
  method ListBoth(mem: MemUtxos.Index, badger: BadgerDb.Database, a: Account)
    returns (memList: map<OutPoint, int>, badgerList: map<OutPoint, int>)
    requires badger.Valid() && Holds(mem, badger.abs.utxos) && Clean(a)
    ensures memList == badgerList == ListUtxos(badger.abs.utxos, a)
  {
    hide MemUtxos.Buckets.Stored, ListUtxos, BadgerDb.Encodes, BadgerDb.Represents;
    var tx := new MemUtxos.Journal();
    memList := MemUtxos.ListUtxos(mem, tx, a);
    NothingAdded(mem.At(a).Stored());
    var btx := badger.Begin();
    badgerList := btx.ListAccountUtxos(a);
  }
}
