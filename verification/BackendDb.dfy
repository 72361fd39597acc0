/** The contract of the database that backs the server, as functions on an abstract state. */
module BackendDb {
  import opened Prelude
  import opened Wire
  import opened BlockOps
  import opened Coins

  /** The contract's errors, and the key-not-found error that Badger's own store reports. */
  datatype DbError =
    | ErrBlockHeightNotFound | ErrNotTip | ErrBlockAlreadyProcessed | ErrNotExtendingTip | ErrKeyNotFound

  /** One recorded balance: the account and the height of the block that changed it. */
  datatype Entry = Entry(account: Account, height: int)

  type Balances = map<Entry, int>

  /** An empty database has the zero hash at height 0 as its tip. */
  datatype Db = Db(tipHash: Hash, tipHeight: int, processed: map<int, Hash>, balances: Balances, utxos: Utxos)

  const EMPTY: Db := Db(ZERO_HASH, 0, map[], map[], map[])

  /** The latest balance recorded at or below a height, or zero. */
  function Balance(balances: Balances, a: Account, height: int): int
    decreases height
  {
    if height < 0 then 0
    else if Entry(a, height) in balances then balances[Entry(a, height)]
    else Balance(balances, a, height - 1)
  }

  function ProcessedBlockHash(db: Db, height: int): Result<Hash, DbError> {
    if height in db.processed then Ok(db.processed[height]) else Err(ErrBlockHeightNotFound)
  }

  function NewEntries(changed: map<Account, int>, height: int): (r: Balances)
    ensures forall e :: e in r <==> e.height == height && e.account in changed
    ensures forall e | e in r :: r[e] == changed[e.account]
  {
    map a | a in changed :: Entry(a, height) := changed[a]
  }

  function StoreBalances(db: Db, hash: Hash, height: int, changed: map<Account, int>): Result<Db, DbError> {
    if height in db.processed then Err(ErrBlockAlreadyProcessed)
    else if height != db.tipHeight + 1 then Err(ErrNotExtendingTip)
    else Ok(Db(hash, height, db.processed[height := hash], db.balances + NewEntries(changed, height), db.utxos))
  }

  function WithoutHeight(balances: Balances, height: int): Balances {
    map e | e in balances && e.height != height :: balances[e]
  }

  function RollbackTip(db: Db, hash: Hash, height: int): Result<Db, DbError> {
    if db.tipHash != hash || db.tipHeight != height then Err(ErrNotTip)
    else if height - 1 !in db.processed then Err(ErrBlockHeightNotFound)
    else Ok(Db(db.processed[height - 1], height - 1, db.processed - {height},
               WithoutHeight(db.balances, height), db.utxos))
  }

  function AddUtxo(db: Db, a: Account, o: OutPoint, amount: int): Db {
    db.(utxos := db.utxos[Coin(a, o) := amount])
  }

  function DelUtxo(db: Db, a: Account, o: OutPoint): Db {
    db.(utxos := db.utxos - {Coin(a, o)})
  }

  /** Heights 1..tip are recorded, the tip's hash under the tip's height, and no balance lies outside of them. */
  ghost predicate Consistent(db: Db) {
    && 0 <= db.tipHeight
    && (forall h :: h in db.processed <==> 1 <= h <= db.tipHeight)
    && (if db.tipHeight == 0 then db.tipHash == ZERO_HASH else db.processed[db.tipHeight] == db.tipHash)
    && (forall e | e in db.balances :: 1 <= e.height <= db.tipHeight)
  }

  lemma ConsistentBelow(db: Db)
    requires Consistent(db)
    ensures forall e | e in db.balances :: e.height < db.tipHeight + 1
  {
  }

  lemma StoreKeepsConsistent(db: Db, hash: Hash, height: int, changed: map<Account, int>)
    requires Consistent(db)
    ensures var r := StoreBalances(db, hash, height, changed);
            && (r.Ok? <==> height == db.tipHeight + 1)
            && (r.Ok? ==> Consistent(r.value))
  {
    var r := StoreBalances(db, hash, height, changed);
    if r.Ok? {
      forall e | e in r.value.balances ensures 1 <= e.height <= height {
        if e !in db.balances {
          assert e in NewEntries(changed, height);
        }
      }
    }
  }

  lemma RollbackKeepsConsistent(db: Db, hash: Hash, height: int)
    requires Consistent(db)
    ensures var r := RollbackTip(db, hash, height);
            && (r.Ok? <==> hash == db.tipHash && height == db.tipHeight >= 2)
            && (r.Ok? ==> Consistent(r.value))
  {
  }

  lemma NewEntriesRemoved(balances: Balances, changed: map<Account, int>, height: int)
    requires forall e | e in balances :: e.height != height
    ensures WithoutHeight(balances + NewEntries(changed, height), height) == balances
  {
  }

  /** Rolling back the block just stored restores the tip, the processed blocks and every balance. */
  lemma StoreThenRollback(db: Db, hash: Hash, height: int, changed: map<Account, int>)
    requires Consistent(db) && db.tipHeight >= 1
    requires StoreBalances(db, hash, height, changed).Ok?
    ensures RollbackTip(StoreBalances(db, hash, height, changed).value, hash, height) == Ok(db)
  {
    var stored := StoreBalances(db, hash, height, changed).value;
    assert height !in db.processed && db.tipHeight in db.processed;
    assert stored.processed - {height} == db.processed;
    NewEntriesRemoved(db.balances, changed, height);
  }

  /** The recursive lookup is the latest entry: nothing lies between it and the asked height. */
  lemma {:induction false} BalanceIsLatest(balances: Balances, a: Account, height: int, at: int)
    requires 0 <= at <= height && Entry(a, at) in balances
    requires forall h | at < h <= height :: Entry(a, h) !in balances
    ensures Balance(balances, a, height) == balances[Entry(a, at)]
    decreases height
  {
    if at < height {
      BalanceIsLatest(balances, a, height - 1, at);
    }
  }

  lemma {:induction false} BalanceIsZero(balances: Balances, a: Account, height: int)
    requires forall h | 0 <= h <= height :: Entry(a, h) !in balances
    ensures Balance(balances, a, height) == 0
    decreases height
  {
    if height >= 0 {
      BalanceIsZero(balances, a, height - 1);
    }
  }

  /** Lookups depend only on the account's entries at or below the asked height. */
  lemma {:induction false} BalanceAgrees(x: Balances, y: Balances, a: Account, height: int)
    requires forall h | 0 <= h <= height :: (Entry(a, h) in x <==> Entry(a, h) in y)
    requires forall h | 0 <= h <= height && Entry(a, h) in x :: x[Entry(a, h)] == y[Entry(a, h)]
    ensures Balance(x, a, height) == Balance(y, a, height)
    decreases height
  {
    if height >= 0 && Entry(a, height) !in x {
      BalanceAgrees(x, y, a, height - 1);
    }
  }

  /** Above the last entry a balance no longer changes. */
  lemma {:induction false} BalanceSettles(balances: Balances, a: Account, low: int, high: int)
    requires 0 <= low <= high
    requires forall h | low < h <= high :: Entry(a, h) !in balances
    ensures Balance(balances, a, high) == Balance(balances, a, low)
    decreases high
  {
    if low < high {
      BalanceSettles(balances, a, low, high - 1);
    }
  }

  /** Storing a block changes exactly the balances of the accounts it lists, and only from its height on. */
  lemma BalanceStored(balances: Balances, changed: map<Account, int>, height: int, a: Account)
    requires height > 0 && forall e | e in balances :: e.height < height
    ensures Balance(balances + NewEntries(changed, height), a, height) ==
            if a in changed then changed[a] else Balance(balances, a, height - 1)
    ensures Balance(balances + NewEntries(changed, height), a, height - 1) == Balance(balances, a, height - 1)
  {
    var after := balances + NewEntries(changed, height);
    assert Entry(a, height) in after <==> a in changed;
    BalanceAgrees(after, balances, a, height - 1);
  }
}
