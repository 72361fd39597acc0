/** The Badger database: every record is a byte key in an ordered store with atomic transactions. */
module BadgerDb {
  import opened Prelude
  import opened Wire
  import opened BlockOps
  import opened Coins
  import opened BackendDb
  import opened Encoding
  import opened BadgerKeys

  type Store = map<Bytes, Bytes>

  /** The store's contents by structured key. */
  type Table = map<Key, Bytes>

  ghost predicate Encodes(kv: Store, table: Table) {
    && (forall k | k in table :: CleanKey(k) && Encode(k) in kv && kv[Encode(k)] == table[k])
    && (forall b | b in kv :: exists k :: k in table && Encode(k) == b)
  }

  lemma EncodesGet(kv: Store, table: Table, k: Key)
    requires Encodes(kv, table)
    ensures Encode(k) in kv <==> k in table
    ensures k in table ==> kv[Encode(k)] == table[k]
  {
    if Encode(k) in kv {
      var l :| l in table && Encode(l) == Encode(k);
      EncodeUnique(k, l);
    }
  }

  lemma EncodesSet(kv: Store, table: Table, k: Key, v: Bytes)
    requires Encodes(kv, table) && CleanKey(k)
    ensures Encodes(kv[Encode(k) := v], table[k := v])
  {
    var kv', table' := kv[Encode(k) := v], table[k := v];
    forall l | l in table' ensures CleanKey(l) && Encode(l) in kv' && kv'[Encode(l)] == table'[l] {
      if l != k && Encode(l) == Encode(k) {
        EncodeUnique(k, l);
      }
    }
    forall b | b in kv' ensures exists l :: l in table' && Encode(l) == b {
      if b == Encode(k) {
        assert k in table';
      } else {
        var l :| l in table && Encode(l) == b;
        assert l in table';
      }
    }
  }

  lemma EncodesDelete(kv: Store, table: Table, k: Key)
    requires Encodes(kv, table)
    ensures Encodes(kv - {Encode(k)}, table - {k})
  {
    var kv', table' := kv - {Encode(k)}, table - {k};
    forall l | l in table' ensures CleanKey(l) && Encode(l) in kv' && kv'[Encode(l)] == table'[l] {
      if Encode(l) == Encode(k) {
        EncodeUnique(k, l);
      }
    }
    forall b | b in kv' ensures exists l :: l in table' && Encode(l) == b {
      var l :| l in table && Encode(l) == b;
      assert l in table';
    }
  }

  /* ----- What the ordered store offers ----- */

  /** A reverse seek: the greatest key that is not above the target. */
  method SeekReverse(kv: Store, target: Bytes) returns (r: Option<Bytes>)
    ensures r.Some? ==> r.value in kv && LexLe(r.value, target)
    ensures r.Some? ==> forall b | b in kv && LexLe(b, target) :: LexLe(b, r.value)
    ensures r.None? ==> forall b | b in kv :: !LexLe(b, target)
  {
    r := None;
    var pending := kv.Keys;
    while pending != {}
      invariant pending <= kv.Keys
      invariant r.Some? ==> r.value in kv && LexLe(r.value, target)
      invariant r.Some? ==> forall b | b in kv && b !in pending && LexLe(b, target) :: LexLe(b, r.value)
      invariant r.None? ==> forall b | b in kv && b !in pending :: !LexLe(b, target)
      decreases |pending|
    {
      var b :| b in pending;
      pending := pending - {b};
      if LexLe(b, target) && (r.None? || LexLe(r.value, b)) {
        forall c | c in kv && c !in pending && LexLe(c, target) ensures LexLe(c, b) {
          LexLeReflexive(b);
          if r.Some? && c != b {
            LexLeTransitive(c, r.value, b);
          }
        }
        r := Some(b);
      } else if r.Some? {
        LexLeTotal(b, r.value);
      }
    }
  }

  /** A prefix iteration. */
  method ScanPrefix(kv: Store, prefix: Bytes) returns (keys: seq<Bytes>)
    ensures forall b :: b in keys <==> b in kv && prefix <= b
  {
    keys := [];
    var pending := kv.Keys;
    while pending != {}
      invariant pending <= kv.Keys
      invariant forall b :: b in keys <==> b in kv && b !in pending && prefix <= b
      decreases |pending|
    {
      var b :| b in pending;
      pending := pending - {b};
      if prefix <= b {
        keys := keys + [b];
      }
    }
  }

  /* ----- The table represents the abstract state ----- */

  ghost predicate IsInt64(x: int) {
    -TWO_63 <= x < TWO_63
  }

  function AmountBytes(x: Int64): Bytes {
    BigEndian(ToUint64(x), 8)
  }

  function TipBytes(hash: Hash, height: Int64): Bytes {
    hash + HeightBytes(height)
  }

  ghost predicate TipIs(table: Table, db: Db) {
    if LastBlock in table then IsInt64(db.tipHeight) && table[LastBlock] == TipBytes(db.tipHash, db.tipHeight)
    else db.tipHash == ZERO_HASH && db.tipHeight == 0
  }

  /** Balance keys are exactly the recorded balances. */
  ghost predicate BalancesAre(table: Table, balances: Balances) {
    && (forall e | e in balances ::
          && IsInt64(e.height) && IsInt64(balances[e])
          && BalanceAt(e.account, e.height) in table
          && table[BalanceAt(e.account, e.height)] == AmountBytes(balances[e]))
    && (forall k | k in table && k.BalanceAt? :: Entry(k.account, k.height) in balances)
  }

  ghost predicate ProcessedAre(table: Table, processed: map<int, Hash>) {
    && (forall h | h in processed :: IsInt64(h) && Key.Processed(h) in table && table[Key.Processed(h)] == processed[h])
    && (forall k | k in table && k.Processed? :: k.height in processed)
  }

  ghost predicate UtxosAre(table: Table, utxos: Utxos) {
    && (forall c | c in utxos ::
          && IsInt64(utxos[c])
          && UtxoOf(c.account, c.outpoint) in table
          && table[UtxoOf(c.account, c.outpoint)] == AmountBytes(utxos[c]))
    && (forall k | k in table && k.UtxoOf? :: Coin(k.account, k.outpoint) in utxos)
  }

  /** Block-account keys cover the recorded balances; stale ones may remain after a rollback. */
  ghost predicate AccountsCover(table: Table, balances: Balances) {
    forall e | e in balances :: IsInt64(e.height) && BlockAccount(e.height, e.account) in table
  }

  ghost predicate Represents(table: Table, db: Db) {
    && Consistent(db)
    && TipIs(table, db)
    && BalancesAre(table, db.balances)
    && ProcessedAre(table, db.processed)
    && UtxosAre(table, db.utxos)
    && AccountsCover(table, db.balances)
  }

  /** Values are 64-bit two's complement, most significant byte first; the tip record is hash, then height. */
  lemma ValueLayout(x: Int64, hash: Hash, height: Int64)
    ensures IsHeight(AmountBytes(x), x)
    ensures |TipBytes(hash, height)| == 40
    ensures TipBytes(hash, height)[..32] == hash && IsHeight(TipBytes(hash, height)[32..], height)
  {
    HeightLayout(x);
    HeightLayout(height);
    assert TipBytes(hash, height)[32..] == HeightBytes(height);
  }

  lemma AmountRoundTrip(x: Int64)
    ensures ToInt64(FromBigEndian(AmountBytes(x))) == x
  {
    HeightRoundTrip(x);
  }

  /** A badger transaction with the abstract state it represents. */
  class Txn {
    var kv: Store
    ghost var table: Table
    ghost var view: Db

    constructor (kv: Store, ghost table: Table, ghost view: Db)
      ensures this.kv == kv && this.table == table && this.view == view
    {
      this.kv, this.table, this.view := kv, table, view;
    }

    ghost predicate Valid()
      reads this
    {
      Encodes(kv, table) && Represents(table, view)
    }

    method Get(k: Key) returns (v: Option<Bytes>)
      requires Encodes(kv, table)
      ensures v.Some? <==> k in table
      ensures v.Some? ==> v.value == table[k]
    {
      EncodesGet(kv, table, k);
      v := if Encode(k) in kv then Some(kv[Encode(k)]) else None;
    }

    method Set(k: Key, v: Bytes)
      requires Encodes(kv, table) && CleanKey(k)
      modifies `kv, `table
      ensures Encodes(kv, table) && table == old(table)[k := v]
    {
      EncodesSet(kv, table, k, v);
      kv, table := kv[Encode(k) := v], table[k := v];
    }

    method Delete(k: Key)
      requires Encodes(kv, table)
      modifies `kv, `table
      ensures Encodes(kv, table) && table == old(table) - {k}
    {
      EncodesDelete(kv, table, k);
      kv, table := kv - {Encode(k)}, table - {k};
    }

    /** fetchAccountBalanceAt: seek backwards from the account's key for the asked height. */
    method GetBalance(a: Account, height: Int64) returns (balance: int)
      requires Valid() && Clean(a)
      ensures balance == Balance(view.balances, a, ToUint64(height))
    {
      var target := Encode(BalanceAt(a, height));
      var found := SeekReverse(kv, target);
      if found.None? || !(BalancePrefix(a) <= found.value) {
        NothingFound(kv, table, view.balances, a, height, found);
        return 0;
      }
      ghost var k := LatestFound(kv, table, view.balances, a, height, found.value);
      AmountRoundTrip(view.balances[Entry(a, k.height)]);
      balance := ToInt64(FromBigEndian(kv[found.value]));
    }

    method LastProcessedBlock() returns (hash: Hash, height: int)
      requires Valid()
      ensures hash == view.tipHash && height == view.tipHeight
    {
      var v := Get(LastBlock);
      if v.None? {
        return ZERO_HASH, 0;
      }
      HeightRoundTrip(view.tipHeight);
      assert v.value[..32] == view.tipHash && v.value[32..] == HeightBytes(view.tipHeight);
      hash := v.value[..32];
      height := ToInt64(FromBigEndian(v.value[32..]));
    }

    method GetProcessedBlockHash(height: Int64) returns (r: Result<Hash, DbError>)
      requires Valid()
      ensures r == ProcessedBlockHash(view, height)
    {
      var v := Get(Key.Processed(height));
      if v.None? {
        return Err(ErrBlockHeightNotFound);
      }
      r := Ok(v.value);
    }

    /** Accepts exactly the block that extends the tip. */
    method StoreBlock(hash: Hash, height: Int64, changed: map<Account, Int64>) returns (err: Option<DbError>)
      requires Valid()
      requires forall a | a in changed :: Clean(a)
      modifies this
      ensures Valid()
      ensures err.None? <==> StoreBalances(old(view), hash, height, changed).Ok?
      ensures err.None? ==> view == StoreBalances(old(view), hash, height, changed).value
      ensures err.Some? ==> view == old(view) && StoreBalances(old(view), hash, height, changed) == Err(err.value)
    {
      hide Encodes, Encode, Represents, NewRecords, HeightBytes;
      RepresentsConsistent(table, view);
      var known := GetProcessedBlockHash(height);
      if known.Ok? {
        return Some(ErrBlockAlreadyProcessed);
      }
      var tipHash, tipHeight := LastProcessedBlock();
      if height != tipHeight + 1 {
        return Some(ErrNotExtendingTip);
      }
      ghost var before := table;
      PutBalances(height, changed);
      Set(Key.Processed(height), hash);
      Set(LastBlock, TipBytes(hash, height));
      StoredRepresents(before, table, view, hash, height, changed);
      view := StoreBalances(view, hash, height, changed).value;
      err := None;
    }

    method PutBalances(height: Int64, changed: map<Account, Int64>)
      requires Encodes(kv, table)
      requires forall a | a in changed :: Clean(a)
      modifies `kv, `table
      ensures Encodes(kv, table) && table == old(table) + NewRecords(changed, height)
    {
      hide Encodes, Encode, NewRecords, AmountBytes, Clean;
      var pending := changed.Keys;
      NewRecordsNone(table, height);
      assert changed - pending == map[];
      while pending != {}
        invariant pending <= changed.Keys
        invariant Encodes(kv, table) && table == old(table) + NewRecords(changed - pending, height)
        decreases |pending|
      {
        var a :| a in pending;
        NewRecordsMore(old(table), changed - pending, a, changed[a], height);
        assert (changed - pending)[a := changed[a]] == changed - (pending - {a});
        pending := pending - {a};
        Set(BalanceAt(a, height), AmountBytes(changed[a]));
        Set(BlockAccount(height, a), []);
      }
      assert changed - pending == changed;
    }

    /** fetchBlockAccounts: the accounts recorded for a height, including stale ones. */
    method BlockAccounts(height: Int64) returns (accounts: seq<Account>)
      requires Encodes(kv, table)
      ensures forall a :: a in accounts <==> BlockAccount(height, a) in table
    {
      hide Encodes, Encode, BlockAccountPrefix, Clean;
      var prefix := BlockAccountPrefix(height);
      var keys := ScanPrefix(kv, prefix);
      accounts := [];
      assert forall i | 0 <= i < |keys| :: keys[i] in keys;
      for i := 0 to |keys|
        invariant |accounts| == i && forall j | 0 <= j < i :: accounts[j] == keys[j][|prefix|..]
      {
        accounts := accounts + [keys[i][|prefix|..]];
      }
      BlockAccountsAre(kv, table, height, keys, accounts);
    }

    method DeleteBalances(accounts: seq<Account>, height: Int64)
      requires Encodes(kv, table)
      modifies `kv, `table
      ensures Encodes(kv, table)
      ensures table == old(table) - set a | a in accounts :: BalanceAt(a, height)
    {
      hide Encodes, Encode;
      for i := 0 to |accounts|
        invariant Encodes(kv, table)
        invariant table == old(table) - set a | a in accounts[..i] :: BalanceAt(a, height)
      {
        Delete(BalanceAt(accounts[i], height));
        assert accounts[..i + 1] == accounts[..i] + [accounts[i]];
      }
      assert accounts[..|accounts|] == accounts;
    }

    /** Rolls back the tip: exactly the balances at its height disappear, whatever stale account records exist. */
    method RollbackBlock(hash: Hash, height: Int64) returns (err: Option<DbError>)
      requires Valid()
      modifies this
      ensures err.None? <==> RollbackTip(old(view), hash, height).Ok?
      ensures err.None? ==> Valid() && view == RollbackTip(old(view), hash, height).value
      ensures err == Some(ErrNotTip) <==> hash != old(view.tipHash) || height != old(view.tipHeight)
      ensures err.None? || err == Some(ErrNotTip) || err == Some(ErrKeyNotFound)
    {
      hide Encodes, Encode, Represents, HeightBytes;
      RepresentsConsistent(table, view);
      RepresentsProcessed(table, view);
      var tipHash, tipHeight := LastProcessedBlock();
      if tipHeight != height || tipHash != hash {
        return Some(ErrNotTip);
      }
      ghost var before := table;
      var accounts := BlockAccounts(height);
      DeleteBalances(accounts, height);
      var prevHash := Get(Key.Processed(height - 1));
      if prevHash.None? {
        return Some(ErrKeyNotFound);
      }
      Delete(Key.Processed(height));
      Set(LastBlock, TipBytes(prevHash.value, height - 1));
      RolledBackRepresents(before, table, view, accounts);
      view := RollbackTip(view, hash, height).value;
      err := None;
    }

    method PutUtxo(a: Account, o: OutPoint, amount: Int64)
      requires Valid() && Clean(a)
      modifies this
      ensures Valid() && view == AddUtxo(old(view), a, o, amount)
    {
      hide Encodes, Encode, AmountBytes, Represents;
      AddedRepresents(table, view, a, o, amount);
      Set(UtxoOf(a, o), AmountBytes(amount));
      view := AddUtxo(view, a, o, amount);
    }

    method RemoveUtxo(a: Account, o: OutPoint)
      requires Valid()
      modifies this
      ensures Valid() && view == DelUtxo(old(view), a, o)
    {
      hide Encodes, Encode, AmountBytes, Represents;
      DeletedRepresents(table, view, a, o);
      Delete(UtxoOf(a, o));
      view := DelUtxo(view, a, o);
    }

    /** fetchAccountUtxos: a prefix scan that decodes outpoints from keys and amounts from values. */
    method ListAccountUtxos(a: Account) returns (utxos: map<OutPoint, int>)
      requires Valid() && Clean(a)
      ensures utxos == ListUtxos(view.utxos, a)
    {
      hide Encodes, Encode, Represents, UtxoPrefix, ExtractOutPoint, ToInt64, FromBigEndian;
      var keys := ScanPrefix(kv, UtxoPrefix(a));
      utxos := map[];
      for i := 0 to |keys|
        invariant forall o | o in utxos :: Coin(a, o) in view.utxos && utxos[o] == view.utxos[Coin(a, o)]
        invariant forall o | Encode(UtxoOf(a, o)) in keys[..i] :: o in utxos
      {
        assert keys[i] in keys;
        UtxoRecord(kv, table, view, a, keys[i]);
        var o := ExtractOutPoint(keys[i]);
        utxos := utxos[o := ToInt64(FromBigEndian(kv[keys[i]]))];
        assert keys[..i + 1] == keys[..i] + [keys[i]];
      }
      forall o | Coin(a, o) in view.utxos ensures o in utxos {
        UtxoStored(kv, table, view, a, o);
        assert Encode(UtxoOf(a, o)) in keys[..|keys|];
      }
    }
  }

  /** Scanning for block accounts decodes exactly the account of the key at hand. */
  lemma BlockAccountsAre(kv: Store, table: Table, height: Int64, keys: seq<Bytes>, accounts: seq<Account>)
    requires Encodes(kv, table) && |accounts| == |keys|
    requires forall b :: b in keys <==> b in kv && BlockAccountPrefix(height) <= b
    requires forall i | 0 <= i < |keys| ::
               BlockAccountPrefix(height) <= keys[i] && accounts[i] == keys[i][|BlockAccountPrefix(height)|..]
    ensures forall a :: a in accounts <==> BlockAccount(height, a) in table
  {
    hide Encodes, Encode, BlockAccountPrefix, Clean;
    forall i | 0 <= i < |keys| ensures BlockAccount(height, accounts[i]) in table {
      assert keys[i] in keys;
      BlockAccountRecord(kv, table, height, keys[i]);
    }
    forall a | BlockAccount(height, a) in table ensures a in accounts {
      EncodesGet(kv, table, BlockAccount(height, a));
      BlockAccountScan(height, BlockAccount(height, a));
      var i :| 0 <= i < |keys| && keys[i] == Encode(BlockAccount(height, a));
      BlockAccountRecord(kv, table, height, keys[i]);
      assert accounts[i] == a;
    }
  }

  lemma BlockAccountRecord(kv: Store, table: Table, height: Int64, b: Bytes)
    requires Encodes(kv, table) && b in kv && BlockAccountPrefix(height) <= b
    ensures BlockAccount(height, b[|BlockAccountPrefix(height)|..]) in table
    ensures forall a | Encode(BlockAccount(height, a)) == b :: a == b[|BlockAccountPrefix(height)|..]
  {
    var k :| k in table && Encode(k) == b;
    BlockAccountScan(height, k);
    ExtractorsInvert(k.account, height, OutPoint(ZERO_HASH, 0, 0));
    forall a | Encode(BlockAccount(height, a)) == b ensures a == k.account {
      EncodeUnique(BlockAccount(height, a), k);
    }
  }

  /** Scanning for unspent outputs decodes exactly the coin and the amount of the record at hand. */
  lemma UtxoRecord(kv: Store, table: Table, db: Db, a: Account, b: Bytes)
    requires Encodes(kv, table) && Represents(table, db) && Clean(a) && b in kv && UtxoPrefix(a) <= b
    ensures |b| >= 37 && FromBigEndian(b[|b| - 5..|b| - 1]) < TWO_32
    ensures Coin(a, ExtractOutPoint(b)) in db.utxos
    ensures ToInt64(FromBigEndian(kv[b])) == db.utxos[Coin(a, ExtractOutPoint(b))]
    ensures forall o | Encode(UtxoOf(a, o)) == b :: o == ExtractOutPoint(b)
  {
    var k :| k in table && Encode(k) == b;
    UtxoScan(a, k);
    ExtractorsInvert(a, 0, k.outpoint);
    AmountRoundTrip(db.utxos[Coin(a, k.outpoint)]);
    forall o | Encode(UtxoOf(a, o)) == b ensures o == k.outpoint {
      EncodeUnique(UtxoOf(a, o), k);
    }
  }

  lemma UtxoStored(kv: Store, table: Table, db: Db, a: Account, o: OutPoint)
    requires Encodes(kv, table) && Represents(table, db) && Clean(a) && Coin(a, o) in db.utxos
    ensures Encode(UtxoOf(a, o)) in kv && UtxoPrefix(a) <= Encode(UtxoOf(a, o))
  {
    assert UtxoOf(a, o) in table;
    UtxoScan(a, UtxoOf(a, o));
  }

  lemma AddedRepresents(table: Table, db: Db, a: Account, o: OutPoint, amount: Int64)
    requires Represents(table, db)
    ensures Represents(table[UtxoOf(a, o) := AmountBytes(amount)], AddUtxo(db, a, o, amount))
  {
    hide AmountBytes, TipIs, BalancesAre, ProcessedAre, AccountsCover, Consistent;
    var k := UtxoOf(a, o);
    OutputsChange(table, table[k := AmountBytes(amount)], db, db.utxos[Coin(a, o) := amount]);
  }

  lemma DeletedRepresents(table: Table, db: Db, a: Account, o: OutPoint)
    requires Represents(table, db)
    ensures Represents(table - {UtxoOf(a, o)}, DelUtxo(db, a, o))
  {
    hide AmountBytes, TipIs, BalancesAre, ProcessedAre, AccountsCover, Consistent;
    OutputsChange(table, table - {UtxoOf(a, o)}, db, db.utxos - {Coin(a, o)});
  }

  /** Other records do not depend on the outputs. */
  lemma OutputsChange(before: Table, after: Table, db: Db, utxos: Utxos)
    requires Represents(before, db) && UtxosAre(after, utxos)
    requires forall k: Key | !k.UtxoOf? :: (k in after <==> k in before) && (k in after ==> after[k] == before[k])
    ensures Represents(after, db.(utxos := utxos))
  {
    hide AmountBytes, TipBytes, UtxosAre;
  }

  lemma RepresentsConsistent(table: Table, db: Db)
    requires Represents(table, db)
    ensures Consistent(db) && IsInt64(db.tipHeight)
  {
  }

  lemma RepresentsProcessed(table: Table, db: Db)
    requires Represents(table, db)
    ensures ProcessedAre(table, db.processed)
  {
  }

  /** The records written for the accounts a block changes. */
  ghost function NewRecords(changed: map<Account, Int64>, height: Int64): (r: Table)
    ensures forall k :: k in r <==> (k.BalanceAt? || k.BlockAccount?) && k.height == height && k.account in changed
    ensures forall k | k in r :: r[k] == if k.BalanceAt? then AmountBytes(changed[k.account]) else []
  {
    (map a | a in changed :: BalanceAt(a, height) := AmountBytes(changed[a])) +
    (map a | a in changed :: BlockAccount(height, a) := [])
  }

  lemma NewRecordsNone(table: Table, height: Int64)
    ensures table + NewRecords(map[], height) == table
  {
  }

  lemma NewRecordsMore(table: Table, done: map<Account, Int64>, a: Account, v: Int64, height: Int64)
    ensures (table + NewRecords(done, height))[BalanceAt(a, height) := AmountBytes(v)][BlockAccount(height, a) := []] ==
            table + NewRecords(done[a := v], height)
  {
    hide AmountBytes, NewRecords;
    var x := (table + NewRecords(done, height))[BalanceAt(a, height) := AmountBytes(v)][BlockAccount(height, a) := []];
    var y := table + NewRecords(done[a := v], height);
    assert forall k :: k in x <==> k in y;
    assert forall k | k in x :: x[k] == y[k];
  }

  lemma StoredBalances(before: Table, after: Table, balances: Balances, height: Int64, changed: map<Account, Int64>)
    requires BalancesAre(before, balances)
    requires forall k: Key | k.BalanceAt? ::
               (k in after <==> k in before + NewRecords(changed, height)) &&
               (k in after ==> after[k] == (before + NewRecords(changed, height))[k])
    requires forall e | e in balances :: e.height < height
    ensures BalancesAre(after, balances + NewEntries(changed, height))
  {
    hide AmountBytes, NewEntries, NewRecords;
    var stored := balances + NewEntries(changed, height);
    forall e | e in stored
      ensures IsInt64(e.height) && IsInt64(stored[e]) && BalanceAt(e.account, e.height) in after
      ensures after[BalanceAt(e.account, e.height)] == AmountBytes(stored[e])
    {
      if e !in balances {
        assert BalanceAt(e.account, e.height) in NewRecords(changed, height);
      } else {
        assert BalanceAt(e.account, e.height) in before;
        assert BalanceAt(e.account, e.height) !in NewRecords(changed, height);
      }
    }
    forall k | k in after && k.BalanceAt? ensures Entry(k.account, k.height) in stored {
      if k in before {
        assert Entry(k.account, k.height) in balances;
      } else {
        assert Entry(k.account, k.height) in NewEntries(changed, height);
      }
    }
  }

  lemma StoredAccounts(before: Table, after: Table, balances: Balances, height: Int64, changed: map<Account, Int64>)
    requires AccountsCover(before, balances)
    requires forall k: Key | k.BlockAccount? :: k in after <==> k in before + NewRecords(changed, height)
    ensures AccountsCover(after, balances + NewEntries(changed, height))
  {
    hide NewEntries, NewRecords;
    var stored := balances + NewEntries(changed, height);
    forall e | e in stored ensures IsInt64(e.height) && BlockAccount(e.height, e.account) in after {
      if e in balances {
        assert BlockAccount(e.height, e.account) in before;
      } else {
        assert BlockAccount(e.height, e.account) in NewRecords(changed, height);
      }
    }
  }

  lemma StoredRepresents(before: Table, after: Table, db: Db, hash: Hash, height: Int64, changed: map<Account, Int64>)
    requires Represents(before, db) && StoreBalances(db, hash, height, changed).Ok?
    requires after == (before + NewRecords(changed,
        height))[Key.Processed(height) := hash][LastBlock := TipBytes(hash, height)]
    ensures Represents(after, StoreBalances(db, hash, height, changed).value)
  {
    hide BalancesAre, AccountsCover, Consistent, NewEntries, NewRecords, UtxosAre, ProcessedAre, TipBytes;
    StoreKeepsConsistent(db, hash, height, changed);
    ConsistentBelow(db);
    StoredTable(before, after, hash, height, changed);
    StoredBalances(before, after, db.balances, height, changed);
    StoredAccounts(before, after, db.balances, height, changed);
    UtxosKept(before, after, db.utxos);
    StoredProcessed(before, after, db.processed, hash, height);
  }

  lemma StoredTable(before: Table, after: Table, hash: Hash, height: Int64, changed: map<Account, Int64>)
    requires after == (before + NewRecords(changed,
        height))[Key.Processed(height) := hash][LastBlock := TipBytes(hash, height)]
    ensures LastBlock in after && after[LastBlock] == TipBytes(hash, height)
    ensures forall k: Key | k.BalanceAt? || k.BlockAccount? ::
               (k in after <==> k in before + NewRecords(changed, height)) &&
               (k in after ==> after[k] == (before + NewRecords(changed, height))[k])
    ensures forall k: Key | k.UtxoOf? :: (k in after <==> k in before) && (k in after ==> after[k] == before[k])
    ensures forall k: Key | k.Processed? :: (k in after <==> k in before || k.height == height)
    ensures forall k: Key | k.Processed? && k in after :: after[k] == if k.height == height then hash else before[k]
  {
    hide NewRecords, TipBytes;
  }

  lemma UtxosKept(before: Table, after: Table, utxos: Utxos)
    requires UtxosAre(before, utxos)
    requires forall k: Key | k.UtxoOf? :: (k in after <==> k in before) && (k in after ==> after[k] == before[k])
    ensures UtxosAre(after, utxos)
  {
    hide AmountBytes;
  }

  lemma StoredProcessed(before: Table, after: Table, processed: map<int, Hash>, hash: Hash, height: Int64)
    requires ProcessedAre(before, processed)
    requires forall k: Key | k.Processed? :: (k in after <==> k in before || k.height == height)
    requires forall k: Key | k.Processed? && k in after :: after[k] == if k.height == height then hash else before[k]
    ensures ProcessedAre(after, processed[height := hash])
  {
  }

  lemma RolledBackRepresents(before: Table, after: Table, db: Db, accounts: seq<Account>)
    requires Represents(before, db) && RollbackTip(db, db.tipHash, db.tipHeight).Ok? && IsInt64(db.tipHeight)
    requires forall a :: a in accounts <==> BlockAccount(db.tipHeight, a) in before
    requires after == (before - (set a | a in accounts :: BalanceAt(a, db.tipHeight)) - {Key.Processed(db.tipHeight)})
                      [LastBlock := TipBytes(db.processed[db.tipHeight - 1], db.tipHeight - 1)]
    ensures Represents(after, RollbackTip(db, db.tipHash, db.tipHeight).value)
  {
    hide BalancesAre, AccountsCover, Consistent, UtxosAre, ProcessedAre, TipBytes, WithoutHeight;
    var height := db.tipHeight;
    RollbackKeepsConsistent(db, db.tipHash, height);
    RolledBackTable(before, after, db.processed[height - 1], height, accounts);
    RolledBackBalances(before, after, db.balances, height, accounts);
    UtxosKept(before, after, db.utxos);
    RolledBackProcessed(before, after, db.processed, height);
  }

  lemma RolledBackTable(before: Table, after: Table, prevHash: Hash, height: Int64, accounts: seq<Account>)
    requires IsInt64(height - 1)
    requires after == (before - (set a | a in accounts :: BalanceAt(a, height)) - {Key.Processed(height)})
                      [LastBlock := TipBytes(prevHash, height - 1)]
    ensures LastBlock in after && after[LastBlock] == TipBytes(prevHash, height - 1)
    ensures forall k: Key | k.BalanceAt? ::
               (k in after <==> k in before && !(k.height == height && k.account in accounts))
    ensures forall k: Key | k.Processed? :: (k in after <==> k in before && k.height != height)
    ensures forall k: Key | k.UtxoOf? || k.BlockAccount? :: (k in after <==> k in before)
    ensures forall k | k in after && !k.LastBlock? :: k in before && after[k] == before[k]
  {
    hide TipBytes;
  }

  lemma RolledBackBalances(before: Table, after: Table, balances: Balances, height: Int64, accounts: seq<Account>)
    requires BalancesAre(before, balances) && AccountsCover(before, balances)
    requires forall a :: a in accounts <==> BlockAccount(height, a) in before
    requires forall k: Key | k.BalanceAt? ::
               (k in after <==> k in before && !(k.height == height && k.account in accounts))
    requires forall k: Key | k.BlockAccount? :: (k in after <==> k in before)
    requires forall k: Key | k.BalanceAt? && k in after :: after[k] == before[k]
    ensures BalancesAre(after, WithoutHeight(balances, height))
    ensures AccountsCover(after, WithoutHeight(balances, height))
  {
    hide AmountBytes;
    forall k | k in after && k.BalanceAt? ensures Entry(k.account, k.height) in balances {
      assert k in before;
    }
  }

  lemma RolledBackProcessed(before: Table, after: Table, processed: map<int, Hash>, height: Int64)
    requires ProcessedAre(before, processed)
    requires forall k: Key | k.Processed? :: (k in after <==> k in before && k.height != height)
    requires forall k: Key | k.Processed? && k in after :: after[k] == before[k]
    ensures ProcessedAre(after, processed - {height})
  {
  }

  class Database {
    var kv: Store
    ghost var table: Table
    ghost var abs: Db

    ghost predicate Valid()
      reads this
    {
      Encodes(kv, table) && Represents(table, abs)
    }

    constructor ()
      ensures Valid() && abs == EMPTY
    {
      kv, table, abs := map[], map[], EMPTY;
    }

    method Begin() returns (tx: Txn)
      requires Valid()
      ensures fresh(tx) && tx.Valid() && tx.view == abs
    {
      tx := new Txn(kv, table, abs);
    }

    /** The end of a successful Update; a transaction that is not committed leaves no trace. */
    method Commit(tx: Txn)
      requires tx.Valid()
      modifies this
      ensures Valid() && abs == tx.view
    {
      kv, table, abs := tx.kv, tx.table, tx.view;
    }
  }

  lemma NothingFound(kv: Store, table: Table, balances: Balances, a: Account, height: Int64, found: Option<Bytes>)
    requires Encodes(kv, table) && BalancesAre(table, balances)
    requires forall e | e in balances :: e.height >= 0
    requires found.None? ==> forall b | b in kv :: !LexLe(b, Encode(BalanceAt(a, height)))
    requires found.Some? ==> LexLe(found.value, Encode(BalanceAt(a, height))) && !(BalancePrefix(a) <= found.value)
    requires found.Some? ==> forall b | b in kv && LexLe(b, Encode(BalanceAt(a, height))) :: LexLe(b, found.value)
    ensures Balance(balances, a, ToUint64(height)) == 0
  {
    forall h | 0 <= h <= ToUint64(height) ensures Entry(a, h) !in balances {
      if Entry(a, h) in balances {
        var k := BalanceAt(a, h);
        assert k in table && Encode(k) in kv;
        BalanceKeysSort(a, h, height);
        SeekStaysInAccount(a, h, height, found.value);
      }
    }
    BalanceIsZero(balances, a, ToUint64(height));
  }

  lemma LatestFound(kv: Store, table: Table, balances: Balances, a: Account, height: Int64, found: Bytes)
    returns (k: Key)
    requires Encodes(kv, table) && BalancesAre(table, balances) && Clean(a)
    requires forall e | e in balances :: e.height >= 0
    requires found in kv && LexLe(found, Encode(BalanceAt(a, height))) && BalancePrefix(a) <= found
    requires forall b | b in kv && LexLe(b, Encode(BalanceAt(a, height))) :: LexLe(b, found)
    ensures k in table && k.BalanceAt? && k.account == a && Encode(k) == found
    ensures Entry(a, k.height) in balances && kv[found] == AmountBytes(balances[Entry(a, k.height)])
    ensures Balance(balances, a, ToUint64(height)) == balances[Entry(a, k.height)]
  {
    k :| k in table && Encode(k) == found;
    SeekFindsAccount(a, height, k);
    assert Entry(a, k.height) in balances;
    forall h | k.height < h <= ToUint64(height) ensures Entry(a, h) !in balances {
      if Entry(a, h) in balances {
        assert BalanceAt(a, h) in table;
        BalanceKeysSort(a, h, height);
        BalanceKeysSort(a, h, k.height);
      }
    }
    BalanceIsLatest(balances, a, ToUint64(height), k.height);
  }

  /** For a negative height the reverse seek starts above all keys and finds the latest balance instead of zero. */
  lemma NegativeHeightSeesTip(db: Db, a: Account, height: Int64)
    requires Consistent(db) && db.tipHeight < TWO_63 && height < 0
    ensures Balance(db.balances, a, ToUint64(height)) == Balance(db.balances, a, db.tipHeight)
    ensures Balance(db.balances, a, height) == 0
  {
    BalanceSettles(db.balances, a, db.tipHeight, ToUint64(height));
  }
}
