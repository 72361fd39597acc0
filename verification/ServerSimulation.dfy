/** The server's transactions, run on MemDB and on Badger: both end up answering as the server's abstract database. */
module ServerSimulation {
  import opened Prelude
  import opened Wire
  import opened BlockOps
  import opened Coins
  import opened BackendDb
  import opened BadgerKeys
  import opened Encoding
  import opened Chain
  import opened Forks
  import opened Sync
  import opened ChainServer
  import opened OutputSimulation
  import MemDb
  import MemUtxos
  import BadgerDb

  /** What the server knows of a block when it connects it or rolls it back. */
  datatype Item = Item(hash: Hash, height: Int64, ops: seq<Op>)

  /** One read-write transaction of the server. */
  datatype Update = Connecting(item: Item) | RollingBack(items: seq<Item>)

  /* ----- On the abstract database ----- */

  /** The calls that connect a block: one per op, then the balances. */
  function Connect(db: Db, b: Item): Result<Db, DbError> {
    StoreBalances(db.(utxos := ApplyAll(db.utxos, Effects(b.ops))), b.hash, b.height,
                  Changed(db.balances, b.height, b.ops))
  }

  /** The calls that roll a block back. */
  function Rollback(db: Db, b: Item): Result<Db, DbError> {
    RollbackTip(db.(utxos := ApplyAll(db.utxos, Undos(Effects(b.ops)))), b.hash, b.height)
  }

  function RollbackAll(db: Db, items: seq<Item>): Result<Db, DbError> {
    if items == [] then Ok(db) else
      match RollbackAll(db, items[..|items| - 1])
      case Err(e) => Err(e)
      case Ok(db') => Rollback(db', items[|items| - 1])
  }

  function Applied(db: Db, u: Update): Result<Db, DbError> {
    match u
    case Connecting(b) => Connect(db, b)
    case RollingBack(items) => RollbackAll(db, items)
  }

  function UndoLists(items: seq<Item>): seq<Effect> {
    if items == [] then [] else UndoLists(items[..|items| - 1]) + Undos(Effects(items[|items| - 1].ops))
  }

  /** All calls of an update that concern outputs, in order. */
  function EffectsOf(u: Update): seq<Effect> {
    match u
    case Connecting(b) => Effects(b.ops)
    case RollingBack(items) => UndoLists(items)
  }

  /* ----- On both databases ----- */

  /** All three stores hold db; MemDB keeps balances and outputs apart. */
  ghost predicate Serve(mem: MemDb.Database, index: MemUtxos.Index, badger: BadgerDb.Database, db: Db)
    reads mem, index, badger
  {
    && mem.Valid() && mem.abs == db.(utxos := map[])
    && badger.Valid() && badger.abs == db
    && Holds(index, db.utxos)
  }

  ghost predicate CleanOps(ops: seq<Op>) {
    forall i | 0 <= i < |ops| :: Clean(ops[i].account) && BadgerDb.IsInt64(ops[i].amount) &&
        BadgerDb.IsInt64(-ops[i].amount)
  }

  ghost predicate InRange(changed: map<Account, int>) {
    forall a | a in changed :: BadgerDb.IsInt64(changed[a])
  }

  /** Accounts have no separators, amounts and balances fit 64 bits. */
  ghost predicate Fits(db: Db, u: Update) {
    match u
    case Connecting(b) => b.height >= 1 && CleanOps(b.ops) && InRange(Changed(db.balances, b.height, b.ops))
    case RollingBack(items) => forall i | 0 <= i < |items| :: CleanOps(items[i].ops)
  }

  lemma {:induction false} EffectsStorable(ops: seq<Op>)
    requires CleanOps(ops)
    ensures Storable(Effects(ops)) && Storable(Undos(Effects(ops)))
  {
    if ops != [] {
      var n := |ops| - 1;
      EffectsStorable(ops[..n]);
    }
  }

  lemma {:induction false} ChangedClean(balances: Balances, height: int, ops: seq<Op>)
    requires CleanOps(ops)
    ensures forall a | a in Changed(balances, height, ops) :: Clean(a)
  {
    if ops != [] {
      ChangedClean(balances, height, ops[..|ops| - 1]);
    }
  }

  /** The new balances of a block, read from Badger. */
  method BadgerBalances(btx: BadgerDb.Txn, height: Int64, ops: seq<Op>) returns (changed: map<Account, int>)
    requires btx.Valid() && height >= 1 && CleanOps(ops)
    ensures changed == Changed(btx.view.balances, height, ops)
  {
    hide BadgerDb.Encodes, BadgerDb.Represents, Balance;
    changed := map[];
    for i := 0 to |ops|
      invariant changed == Changed(btx.view.balances, height, ops[..i])
    {
      assert ops[..i + 1][..i] == ops[..i];
      var a := ops[i].account;
      if a !in changed {
        var last := btx.GetBalance(a, height - 1);
        changed := changed[a := last];
      }
      changed := changed[a := changed[a] + ops[i].amount];
    }
    assert ops[..|ops|] == ops;
  }

  /** The same, read from MemDB. */
  method MemBalances(mem: MemDb.Database, mtx: MemDb.Transaction, height: Int64, ops: seq<Op>)
    returns (changed: map<Account, int>)
    requires mem.ValidTx(mtx)
    ensures changed == Changed(mtx.view.balances, height, ops)
  {
    hide MemDb.Matches, MemDb.Covers, Consistent, Balance;
    changed := map[];
    for i := 0 to |ops|
      invariant changed == Changed(mtx.view.balances, height, ops[..i])
    {
      assert ops[..i + 1][..i] == ops[..i];
      var a := ops[i].account;
      if a !in changed {
        var last := mem.GetBalance(mtx, a, height - 1);
        changed := changed[a := last];
      }
      changed := changed[a := changed[a] + ops[i].amount];
    }
    assert ops[..|ops|] == ops;
  }

  /** The open transactions of both databases hold db, with the output calls of done. */
  ghost predicate Open(mem: MemDb.Database, mtx: MemDb.Transaction, tx: MemUtxos.Journal, btx: BadgerDb.Txn,
                       index: MemUtxos.Index, db: Db, done: seq<Effect>)
    reads mem, mtx, tx, btx, index
  {
    && mem.ValidTx(mtx) && mtx.view == db.(utxos := map[])
    && btx.Valid() && btx.view == db
    && tx.Valid() && Parallel(tx, btx, index, done)
  }

  /** Connects a block in open transactions. */
  method ConnectIn(mem: MemDb.Database, mtx: MemDb.Transaction, tx: MemUtxos.Journal, btx: BadgerDb.Txn,
                   ghost index: MemUtxos.Index, b: Item, ghost db: Db)
    requires Open(mem, mtx, tx, btx, index, db, []) && !mtx.mode.RollingBack?
    requires Fits(db, Connecting(b)) && Connect(db, b).Ok?
    modifies mtx, tx, btx
    ensures Open(mem, mtx, tx, btx, index, Connect(db, b).value, Effects(b.ops)) && !mtx.mode.RollingBack?
  {
    hide MemDb.Matches, MemDb.Covers, Consistent, BadgerDb.Encodes, BadgerDb.Represents, ApplyAll, Effects, Changed,
      NewEntries, MemUtxos.Journal.Valid, CleanOps, ListUtxos, MemUtxos.Journal.View, MemUtxos.Journal.Staged, StagedOf,
      MemUtxos.Index.At, MemUtxos.Buckets.Stored;
    EffectsStorable(b.ops);
    ChangedClean(db.balances, b.height, b.ops);
    var fromMem := MemBalances(mem, mtx, b.height, b.ops);
    var fromBadger := BadgerBalances(btx, b.height, b.ops);
    var es := Effects(b.ops);
    EffectsBoth(tx, btx, es, index, []);
    assert [] + es == es;
    var memErr := mem.Store(mtx, b.hash, b.height, fromMem);
    var badgerErr := btx.StoreBlock(b.hash, b.height, fromBadger);
  }

  /** Rolls back one block in open transactions. */
  method RollbackIn(mem: MemDb.Database, mtx: MemDb.Transaction, tx: MemUtxos.Journal, btx: BadgerDb.Txn,
                    ghost index: MemUtxos.Index, b: Item, ghost db: Db, ghost done: seq<Effect>)
    requires Open(mem, mtx, tx, btx, index, db, done) && !mtx.mode.Storing?
    requires CleanOps(b.ops) && Rollback(db, b).Ok?
    modifies mem, mtx, tx, btx
    ensures Open(mem, mtx, tx, btx, index, Rollback(db, b).value, done + Undos(Effects(b.ops))) && !mtx.mode.Storing?
  {
    hide MemDb.Matches, MemDb.Covers, Consistent, BadgerDb.Encodes, BadgerDb.Represents, ApplyAll, Effects, Undos,
      WithoutHeight, MemUtxos.Journal.Valid, CleanOps, ListUtxos, MemUtxos.Journal.View, MemUtxos.Journal.Staged,
      StagedOf, MemUtxos.Index.At, MemUtxos.Buckets.Stored;
    EffectsStorable(b.ops);
    EffectsBoth(tx, btx, Undos(Effects(b.ops)), index, done);
    var memOutcome := mem.Rollback(mtx, b.hash, b.height);
    var badgerErr := btx.RollbackBlock(b.hash, b.height);
  }

  lemma {:induction false} RefusedStays(db: Db, items: seq<Item>, i: nat)
    requires i <= |items| && RollbackAll(db, items).Ok?
    ensures RollbackAll(db, items[..i]).Ok?
    decreases |items| - i
  {
    if i == |items| {
      assert items[..i] == items;
    } else {
      hide Rollback;
      RefusedStays(db, items, i + 1);
      assert items[..i + 1][..i] == items[..i];
    }
  }

  lemma RollbackStep(db: Db, items: seq<Item>, i: nat)
    requires i < |items| && RollbackAll(db, items).Ok?
    ensures RollbackAll(db, items[..i]).Ok? && Rollback(RollbackAll(db, items[..i]).value, items[i]).Ok?
    ensures RollbackAll(db, items[..i + 1]) == Rollback(RollbackAll(db, items[..i]).value, items[i])
    ensures UndoLists(items[..i + 1]) == UndoLists(items[..i]) + Undos(Effects(items[i].ops))
  {
    hide Rollback;
    RefusedStays(db, items, i);
    RefusedStays(db, items, i + 1);
    assert items[..i + 1][..i] == items[..i];
  }

  lemma NoItems(db: Db)
    ensures RollbackAll(db, []) == Ok(db) && UndoLists([]) == []
  {
  }

  /** Rolls back blocks, newest first, in open transactions. */
  method RollbackAllIn(mem: MemDb.Database, mtx: MemDb.Transaction, tx: MemUtxos.Journal, btx: BadgerDb.Txn,
                       ghost index: MemUtxos.Index, items: seq<Item>, ghost db: Db)
    requires Open(mem, mtx, tx, btx, index, db, []) && !mtx.mode.Storing?
    requires Fits(db, RollingBack(items)) && RollbackAll(db, items).Ok?
    modifies mem, mtx, tx, btx
    ensures Open(mem, mtx, tx, btx, index, RollbackAll(db, items).value, UndoLists(items)) && !mtx.mode.Storing?
  {
    hide Open, RollbackAll, Rollback, UndoLists, CleanOps;
    NoItems(db);
    assert items[..0] == [];
    for i := 0 to |items|
      invariant RollbackAll(db, items[..i]).Ok? && !mtx.mode.Storing?
      invariant Open(mem, mtx, tx, btx, index, RollbackAll(db, items[..i]).value, UndoLists(items[..i]))
    {
      RollbackStep(db, items, i);
      RollbackIn(mem, mtx, tx, btx, index, items[i], RollbackAll(db, items[..i]).value, UndoLists(items[..i]));
    }
    assert items[..|items|] == items;
  }

  /** Ends the transactions: MemDB's index stays free of repetitions iff the calls kept it so. */
  method CommitAll(mem: MemDb.Database, mtx: MemDb.Transaction, tx: MemUtxos.Journal, btx: BadgerDb.Txn,
                   index: MemUtxos.Index, badger: BadgerDb.Database, ghost db: Db, ghost es: seq<Effect>,
                       ghost u: Utxos)
    requires Open(mem, mtx, tx, btx, index, db, es) && Holds(index, u) && KeepsDistinct(index, u, es)
    modifies mem, index, badger
    ensures Serve(mem, index, badger, db)
    ensures forall a :: index.At(a).many.Some? <==> old(index.At(a)).BecomesMany(StagedOf(es, a))
  {
    hide MemDb.Matches, MemDb.Covers, Consistent, BadgerDb.Encodes, BadgerDb.Represents, ListUtxos,
      MemUtxos.Journal.View, StagedOf, MemUtxos.Index.At, MemUtxos.Buckets.Stored, MemUtxos.Buckets.Valid,
      MemUtxos.Buckets.OneBucket, MemUtxos.Buckets.BecomesMany;
    mem.Commit(mtx);
    assert MemUtxos.AddsNew(index, tx);
    MemUtxos.Commit(index, tx);
    badger.Commit(btx);
  }

  /** One transaction of the server, run on both databases. */
  method UpdateAll(mem: MemDb.Database, index: MemUtxos.Index, badger: BadgerDb.Database, u: Update, ghost db: Db)
    requires Serve(mem, index, badger, db) && Fits(db, u) && Applied(db, u).Ok?
    requires KeepsDistinct(index, db.utxos, EffectsOf(u))
    modifies mem, index, badger
    ensures Serve(mem, index, badger, Applied(db, u).value)
    ensures forall a :: index.At(a).many.Some? <==> old(index.At(a)).BecomesMany(StagedOf(EffectsOf(u), a))
  {
    hide MemDb.Matches, MemDb.Covers, Consistent, BadgerDb.Encodes, BadgerDb.Represents, ListUtxos, StagedOf,
      MemUtxos.Index.At, MemUtxos.Buckets.Stored, MemUtxos.Buckets.Valid, MemUtxos.Buckets.BecomesMany, Connect,
      RollbackAll, UndoLists, Effects, Fits, KeepsDistinct;
    var mtx := mem.Begin();
    var tx := new MemUtxos.Journal();
    var btx := badger.Begin();
    NothingStaged(tx, index, db.utxos);
    match u {
      case Connecting(b) =>
        ConnectIn(mem, mtx, tx, btx, index, b, db);
      case RollingBack(items) =>
        RollbackAllIn(mem, mtx, tx, btx, index, items, db);
    }
    CommitAll(mem, mtx, tx, btx, index, badger, Applied(db, u).value, EffectsOf(u), db.utxos);
  }

  /* ----- The server's log as updates ----- */

  ghost function ItemOf(n: Node, h: Hash): Item
    requires InNode(n, h)
  {
    Item(h, Height(n, h), Translation(n, h).ops)
  }

  /** The blocks of h's chain above height low, newest first. */
  ghost function ItemsDown(n: Node, h: Hash, low: nat): seq<Item>
    requires InNode(n, h)
    decreases Height(n, h)
  {
    if Height(n, h) <= low then [] else [ItemOf(n, h)] + ItemsDown(n, Parent(n, h), low)
  }

  ghost function UpdateBetween(n: Node, a: Commit, b: Commit): Update
    requires InNode(n, a.tip) && InNode(n, b.tip)
  {
    if b.moves == a.moves + [Up(b.tip)] then Connecting(ItemOf(n, b.tip))
    else RollingBack(ItemsDown(n, a.tip, Height(n, b.tip)))
  }

  /** A state on a chain is determined by its tip and the moves that led to it. */
  lemma OnChainUnique(n: Node, x: Db, y: Db, t: Hash, moves: seq<Move>)
    requires OnChain(n, x, t, moves) && OnChain(n, y, t, moves)
    ensures x == y
  {
  }

  lemma ConnectIsConnected(n: Node, db: Db, h: Hash, moves: seq<Move>)
    requires InNode(n, h) && Height(n, h) > 0 && OnChain(n, db, Parent(n, h), moves)
    ensures Connect(db, ItemOf(n, h)) == Ok(Connected(n, db, h))
  {
    hide Translation, ApplyAll, Effects, Changed, ValidNode, OnChain;
    OnChainConsistent(n, db, Parent(n, h), moves);
  }

  lemma RollbackIsDisconnected(n: Node, db: Db, t: Hash, moves: seq<Move>)
    requires OnChain(n, db, t, moves) && Height(n, t) > 1
    ensures Rollback(db, ItemOf(n, t)) == Ok(Disconnected(n, db, t))
  {
    hide Translation, ApplyAll, Effects, Undos, ValidNode, OnChain, RollbackTip;
    RollbackTipOnChain(n, db, t, moves, ApplyAll(db.utxos, Undos(Effects(Translation(n, t).ops))));
  }

  lemma RollbackAllCons(db: Db, b: Item, items: seq<Item>)
    requires Rollback(db, b).Ok?
    ensures RollbackAll(db, [b] + items) == RollbackAll(Rollback(db, b).value, items)
    decreases |items|
  {
    hide Rollback;
    if items == [] {
      assert [b] + items == [b] && [b][..0] == [];
    } else {
      var m := |items| - 1;
      assert ([b] + items)[..|items|] == [b] + items[..m];
      RollbackAllCons(db, b, items[..m]);
    }
  }

  /** Rolling back the items of a chain down to an ancestor gives the state of the ancestor after those moves. */
  lemma {:induction false} RollbackPath(n: Node, db: Db, t: Hash, moves: seq<Move>, low: nat) returns (after: Db)
    requires OnChain(n, db, t, moves) && low <= Height(n, t) && (Height(n, t) > 0 ==> low > 0)
    ensures RollbackAll(db, ItemsDown(n, t, low)) == Ok(after)
    ensures OnChain(n, after, Ancestor(n, t, low), moves + Dropped(n, t, low))
    decreases Height(n, t)
  {
    hide OnChain, Translation, ValidNode, Disconnected, Rollback;
    if low == Height(n, t) {
      after := db;
      NoItems(db);
      assert moves + [] == moves;
    } else {
      RollbackIsDisconnected(n, db, t, moves);
      DisconnectedOnChain(n, db, t, moves);
      after := RollbackPath(n, Disconnected(n, db, t), Parent(n, t), moves + [Down(t)], low);
      RollbackAllCons(db, ItemOf(n, t), ItemsDown(n, Parent(n, t), low));
      assert moves + [Down(t)] + Dropped(n, Parent(n, t), low) == moves + ([Down(t)] + Dropped(n, Parent(n, t), low));
    }
  }

  /** Consecutive commits of the server differ by the update between them. */
  lemma CommitsFollow(n: Node, a: Commit, b: Commit)
    requires OnChain(n, a.db, a.tip, a.moves) && OnChain(n, b.db, b.tip, b.moves) && Follows(n, a, b)
    ensures Applied(a.db, UpdateBetween(n, a, b)) == Ok(b.db)
  {
    hide OnChain, Translation, ValidNode, Connect, RollbackAll, Connected, ItemOf, ItemsDown, Dropped, Ancestor;
    if b.moves == a.moves + [Up(b.tip)] {
      UpIsUp(n, a, b);
      ConnectIsConnected(n, a.db, b.tip, a.moves);
      ConnectedOnChain(n, a.db, b.tip, a.moves);
      OnChainUnique(n, Connected(n, a.db, b.tip), b.db, b.tip, b.moves);
    } else {
      var after := RollbackPath(n, a.db, a.tip, a.moves, Height(n, b.tip));
      IsAncestorIs(n, b.tip, a.tip);
      OnChainUnique(n, after, b.db, b.tip, b.moves);
    }
  }

  /** A commit that adds one upward move connected a block to its parent: rollbacks add only downward moves. */
  lemma UpIsUp(n: Node, a: Commit, b: Commit)
    requires Follows(n, a, b) && b.moves == a.moves + [Up(b.tip)]
    ensures Height(n, b.tip) > 0 && a.tip == Parent(n, b.tip)
  {
    hide ValidNode, Dropped;
    DroppedNotUp(n, a.tip, Height(n, b.tip), a.moves, b.tip);
  }

  lemma DroppedNotUp(n: Node, t: Hash, low: nat, moves: seq<Move>, x: Hash)
    requires InNode(n, t)
    ensures moves + Dropped(n, t, low) != moves + [Up(x)]
  {
    var d := Dropped(n, t, low);
    assert d == [] || d[0] == Down(t);
    assert (moves + d)[|moves|..] == d && (moves + [Up(x)])[|moves|..] == [Up(x)];
  }

  /** The updates of a log, in order. */
  ghost predicate UpdatesOf(n: Node, log: seq<Commit>, updates: seq<Update>) {
    |updates| + 1 == |log| && forall k | 0 <= k < |updates| :: IsUpdate(n, log, k, updates[k])
  }

  ghost predicate IsUpdate(n: Node, log: seq<Commit>, k: nat, u: Update)
    requires k + 1 < |log|
  {
    InNode(n, log[k].tip) && InNode(n, log[k + 1].tip) && u == UpdateBetween(n, log[k], log[k + 1])
  }

  function EffectLists(updates: seq<Update>): (r: seq<seq<Effect>>)
    ensures |r| == |updates| && forall i | 0 <= i < |updates| :: r[i] == EffectsOf(updates[i])
  {
    seq(|updates|, i requires 0 <= i < |updates| => EffectsOf(updates[i]))
  }

  /** Everything fits the databases' formats, and MemDB's slices never get to repeat an output. */
  ghost predicate Runs(log: seq<Commit>, updates: seq<Update>) {
    && |updates| + 1 == |log|
    && (forall k | 0 <= k < |updates| :: Fits(log[k].db, updates[k]))
    && var lists := EffectLists(updates);
       forall k, a | 0 <= k < |lists| :: Outgrown(lists[..k + 1], a) || AddsNew(ReplayAll(lists[..k]), lists[k], a)
  }

  lemma {:induction false} UndoListsApplied(db: Db, items: seq<Item>)
    requires RollbackAll(db, items).Ok?
    ensures RollbackAll(db, items).value.utxos == ApplyAll(db.utxos, UndoLists(items))
  {
    if items != [] {
      hide ApplyAll, Effects, Undos;
      var n := |items| - 1;
      UndoListsApplied(db, items[..n]);
      ApplyAllConcat(db.utxos, UndoLists(items[..n]), Undos(Effects(items[n].ops)));
    } else {
      assert ApplyAll(db.utxos, []) == db.utxos;
    }
  }

  lemma {:induction false} ApplyAllConcat(u: Utxos, x: seq<Effect>, y: seq<Effect>)
    ensures ApplyAll(u, x + y) == ApplyAll(ApplyAll(u, x), y)
  {
    if y == [] {
      assert x + y == x;
    } else {
      assert (x + y)[..|x + y| - 1] == x + y[..|y| - 1];
      ApplyAllConcat(u, x, y[..|y| - 1]);
    }
  }

  lemma UtxosApplied(db: Db, u: Update)
    requires Applied(db, u).Ok?
    ensures Applied(db, u).value.utxos == ApplyAll(db.utxos, EffectsOf(u))
  {
    hide ApplyAll, RollbackAll, UndoLists, Effects;
    match u {
      case Connecting(b) =>
      case RollingBack(items) => UndoListsApplied(db, items);
    }
  }

  lemma ReplayStep(lists: seq<seq<Effect>>, k: nat)
    requires k < |lists|
    ensures ReplayAll(lists[..k + 1]) == ApplyAll(ReplayAll(lists[..k]), lists[k])
  {
    assert lists[..k + 1][..k] == lists[..k];
  }

  /** Step k of a log: two states on chains, the second one following from the first. */
  lemma LogStep(n: Node, log: seq<Commit>, db: Db, k: nat)
    requires ValidLog(n, log, db) && k + 1 < |log|
    ensures OnChain(n, log[k].db, log[k].tip, log[k].moves) && OnChain(n, log[k + 1].db, log[k + 1].tip,
        log[k + 1].moves)
    ensures Follows(n, log[k], log[k + 1])
  {
    hide OnChain, Follows;
    assert Follows(n, log[k + 1 - 1], log[k + 1]);
  }

  lemma LogEnds(n: Node, log: seq<Commit>, db: Db)
    requires ValidLog(n, log, db)
    ensures log[0].db == EMPTY && log[|log| - 1].db == db
  {
  }

  /** The databases hold state k of the log; the index is that of the output calls so far. */
  ghost predicate Reached(mem: MemDb.Database, index: MemUtxos.Index, badger: BadgerDb.Database, db: Db,
                          lists: seq<seq<Effect>>)
    reads mem, index, badger
  {
    Serve(mem, index, badger, db) && db.utxos == ReplayAll(lists) && HoldsRun(index, lists)
  }

  lemma NothingReached(mem: MemDb.Database, index: MemUtxos.Index, badger: BadgerDb.Database)
    requires mem.Valid() && mem.abs == EMPTY && badger.Valid() && badger.abs == EMPTY
    requires index.Valid() && forall a :: index.At(a) == MemUtxos.Buckets(None, None, None)
    ensures Reached(mem, index, badger, EMPTY, [])
  {
    NothingHeld(index);
  }

  /** One update of a run, on both databases. */
  method UpdateReached(mem: MemDb.Database, index: MemUtxos.Index, badger: BadgerDb.Database, u: Update, ghost db: Db,
                       ghost lists: seq<seq<Effect>>, ghost k: nat)
    requires k < |lists| && lists[k] == EffectsOf(u) && Reached(mem, index, badger, db, lists[..k])
    requires Fits(db, u) && Applied(db, u).Ok?
    requires forall a :: Outgrown(lists[..k + 1], a) || AddsNew(ReplayAll(lists[..k]), lists[k], a)
    modifies mem, index, badger
    ensures Reached(mem, index, badger, Applied(db, u).value, lists[..k + 1])
  {
    hide Fits, Applied, EffectsOf, AddsNew, Outgrown, ReplayAll, ApplyAll, StagedOf, ListUtxos, MemUtxos.Index.At,
      MemUtxos.Buckets.BecomesMany, MemUtxos.Buckets.Stored, MemDb.Matches, MemDb.Covers, Consistent, BadgerDb.Encodes,
      BadgerDb.Represents;
    forall a ensures index.At(a).BecomesMany(StagedOf(lists[k], a)) <==> Outgrown(lists[..k + 1], a) {
      OutgrownIs(index, lists, k, a);
    }
    UpdateAll(mem, index, badger, u, db);
    UtxosApplied(db, u);
    ReplayStep(lists, k);
  }

  /**
   * Replaying the transactions of any run of the server, on MemDB and on Badger, takes both to databases that hold the
   * server's state: every committed one in turn, and db in the end.
   */
  method ReplayServer(ghost n: Node, ghost log: seq<Commit>, ghost db: Db, updates: seq<Update>)
    returns (mem: MemDb.Database, index: MemUtxos.Index, badger: BadgerDb.Database)
    requires ValidLog(n, log, db) && UpdatesOf(n, log, updates) && Runs(log, updates)
    ensures Serve(mem, index, badger, db)
  {
    hide ValidLog, Serve, UpdateBetween, Applied, Fits, EffectsOf, AddsNew, Outgrown, ReplayAll, HoldsRun, OnChain,
      Follows;
    mem := new MemDb.Database();
    index := new MemUtxos.Index();
    badger := new BadgerDb.Database();
    LogEnds(n, log, db);
    NothingReached(mem, index, badger);
    ghost var lists := EffectLists(updates);
    assert lists[..0] == [];
    for k := 0 to |updates|
      invariant fresh(mem) && fresh(index) && fresh(badger)
      invariant Reached(mem, index, badger, log[k].db, lists[..k])
    {
      LogStep(n, log, db, k);
      CommitsFollow(n, log[k], log[k + 1]);
      UpdateReached(mem, index, badger, updates[k], log[k].db, lists, k);
    }
  }

  /**
   * Asked anything, databases that serve db answer as db: balances at any height, the tip, a processed hash, outputs.
   */
  method Answer(mem: MemDb.Database, index: MemUtxos.Index, badger: BadgerDb.Database, ghost db: Db, a: Account,
                height: Int64)
    returns (balances: (int, int), tips: ((Hash, int), (Hash, int)), hashes: (Result<Hash, DbError>, Result<Hash,
        DbError>),
             outputs: (map<OutPoint, int>, map<OutPoint, int>))
    requires Serve(mem, index, badger, db) && Clean(a) && height >= 0
    ensures balances.0 == balances.1 == Balance(db.balances, a, height)
    ensures tips.0 == tips.1 == (db.tipHash, db.tipHeight)
    ensures hashes.0 == hashes.1 == ProcessedBlockHash(db, height)
    ensures outputs.0 == outputs.1 == ListUtxos(db.utxos, a)
  {
    hide MemDb.Matches, MemDb.Covers, Consistent, BadgerDb.Encodes, BadgerDb.Represents, Balance, ListUtxos;
    var memList, badgerList := ListBoth(index, badger, a);
    var mtx := mem.Begin();
    var btx := badger.Begin();
    var memBalance := mem.GetBalance(mtx, a, height);
    var badgerBalance := btx.GetBalance(a, height);
    var memHash, memHeight := mem.LastProcessedBlock(mtx);
    var badgerHash, badgerHeight := btx.LastProcessedBlock();
    var memProcessed := mem.GetProcessedBlockHash(mtx, height);
    var badgerProcessed := btx.GetProcessedBlockHash(height);
    balances, tips := (memBalance, badgerBalance), ((memHash, memHeight), (badgerHash, badgerHeight));
    hashes, outputs := (memProcessed, badgerProcessed), (memList, badgerList);
  }
}
