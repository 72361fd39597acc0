/**
 * The in-memory database: per-account slices of balances, kept sorted by height, and a per-transaction journal.
 * The index of unspent outputs is in MemUtxos.
 */
module MemDb {
  import opened Prelude
  import opened Wire
  import opened BlockOps
  import opened BackendDb

  datatype BalanceHeight = BalanceHeight(height: int, balance: int)

  datatype ProcessedBlock = ProcessedBlock(hash: Hash, accounts: seq<Account>)

  type Slices = map<Account, seq<BalanceHeight>>

  /** A missing map entry reads as an empty slice. */
  function Slice(m: Slices, a: Account): seq<BalanceHeight> {
    if a in m then m[a] else []
  }

  lemma SliceOf(m: Slices, a: Account)
    ensures Slice(m, a) == if a in m then m[a] else []
  {
  }

  lemma SlicePut(m: Slices, a: Account, s: seq<BalanceHeight>)
    ensures forall b :: Slice(m[a := s], b) == if b == a then s else Slice(m, b)
  {
    forall b ensures Slice(m[a := s], b) == if b == a then s else Slice(m, b) {
    }
  }

  ghost predicate Increasing(s: seq<BalanceHeight>) {
    forall i, j | 0 <= i < j < |s| :: s[i].height < s[j].height
  }

  /** A slice holds exactly the recorded balances of an account, in increasing order of height. */
  ghost predicate SliceMatches(s: seq<BalanceHeight>, balances: Balances, a: Account) {
    && Increasing(s)
    && (forall i | 0 <= i < |s| ::
          Entry(a, s[i].height) in balances && balances[Entry(a, s[i].height)] == s[i].balance)
    && (forall e | e in balances && e.account == a :: exists i :: 0 <= i < |s| && s[i].height == e.height)
  }

  /** The first k elements of a slice are those at or below a height. */
  ghost predicate Splits(s: seq<BalanceHeight>, height: int, k: nat) {
    && k <= |s|
    && (forall i | 0 <= i < k :: s[i].height <= height)
    && (forall i | k <= i < |s| :: s[i].height > height)
  }

  lemma SplitIsBalance(s: seq<BalanceHeight>, balances: Balances, a: Account, height: int, k: nat)
    requires SliceMatches(s, balances, a) && Splits(s, height, k)
    requires forall e | e in balances :: e.height >= 0
    ensures Balance(balances, a, height) == if k == 0 then 0 else s[k - 1].balance
  {
    if k == 0 {
      BalanceIsZero(balances, a, height);
    } else {
      assert Entry(a, s[k - 1].height) in balances;
      forall i | 0 <= i < |s| ensures !(s[k - 1].height < s[i].height <= height) {
        assert i < k - 1 ==> s[i].height < s[k - 1].height;
      }
      forall e | e in balances && e.account == a ensures !(s[k - 1].height < e.height <= height) {
        var i :| 0 <= i < |s| && s[i].height == e.height;
      }
      BalanceIsLatest(balances, a, height, s[k - 1].height);
    }
  }

  /** sort.Search: the first element whose height is at least the given one. */
  method Search(s: seq<BalanceHeight>, height: int) returns (i: nat)
    requires Increasing(s)
    ensures i <= |s|
    ensures forall j | 0 <= j < i :: s[j].height < height
    ensures forall j | i <= j < |s| :: s[j].height >= height
  {
    i := 0;
    var j := |s|;
    while i < j
      invariant 0 <= i <= j <= |s|
      invariant forall k | 0 <= k < i :: s[k].height < height
      invariant forall k | j <= k < |s| :: s[k].height >= height
    {
      var h := (i + j) / 2;
      if !(s[h].height >= height) {
        i := h + 1;
      } else {
        j := h;
      }
    }
  }

  /** Picks the latest balance not above a height from a non-empty slice. */
  method BalanceInSlice(s: seq<BalanceHeight>, height: int) returns (balance: int, ghost k: nat)
    requires Increasing(s) && s != []
    ensures Splits(s, height, k)
    ensures forall j: nat | Splits(s, height, j) :: balance == if j == 0 then 0 else s[j - 1].balance
  {
    var i := Search(s, height);
    k := i;
    if i == |s| {
      balance := s[i - 1].balance;
    } else if s[i].height == height {
      balance := s[i].balance;
      k := i + 1;
    } else if i == 0 {
      balance := 0;
    } else {
      balance := s[i - 1].balance;
    }
  }

  /** The journal is consulted unless it is empty or starts above the height. */
  method OverlaidBalance(stored: seq<BalanceHeight>, journal: seq<BalanceHeight>, height: int)
    returns (balance: int, ghost k: nat)
    requires Increasing(stored + journal)
    ensures Splits(stored + journal, height, k)
    ensures forall j: nat | Splits(stored + journal, height, j) ::
              balance == if j == 0 then 0 else (stored + journal)[j - 1].balance
  {
    SlicesIncreasing(stored, journal);
    if |journal| == 0 || journal[0].height > height {
      balance, k := 0, 0;
      if |stored| > 0 {
        balance, k := BalanceInSlice(stored, height);
      }
      StoredSplits(stored, journal, height, k);
    } else {
      balance, k := BalanceInSlice(journal, height);
      JournalSplits(stored, journal, height, k);
      k := |stored| + k;
    }
  }

  /** What a transaction has done so far; the source supports only storing or only rolling back in one transaction. */
  datatype Mode = Fresh | Storing | RollingBack

  class Transaction {
    var balances: Slices
    var updatedBlock: bool
    var blockHash: Hash
    var blockHeight: int
    var processedBlocks: map<int, ProcessedBlock>
    ghost var view: Db
    ghost var mode: Mode

    constructor (ghost view: Db)
      ensures balances == map[] && !updatedBlock && blockHeight == 0 && processedBlocks == map[]
      ensures this.view == view && mode == Fresh
    {
      balances, updatedBlock, blockHash, blockHeight, processedBlocks := map[], false, ZERO_HASH, 0, map[];
      this.view, mode := view, Fresh;
    }
  }

  ghost predicate Matches(stored: Slices, journal: Slices, balances: Balances) {
    forall a :: SliceMatches(Slice(stored, a) + Slice(journal, a), balances, a)
  }

  /** Every recorded balance is listed by the block that recorded it, and the hashes agree. */
  ghost predicate Covers(processed: map<int, ProcessedBlock>, db: Db) {
    && processed.Keys == db.processed.Keys
    && (forall h | h in processed :: processed[h].hash == db.processed[h])
    && (forall e | e in db.balances :: e.height in processed && e.account in processed[e.height].accounts)
  }

  datatype RollbackOutcome = RolledBack | NothingToDo | Refused(error: DbError) | NilDereference

  class Database {
    var balances: Slices
    var lastBlockHash: Hash
    var lastHeight: int
    var processedBlocks: map<int, ProcessedBlock>
    ghost var abs: Db

    /** The fields represent the abstract state abs. */
    ghost predicate Valid()
      reads this
    {
      && Consistent(abs)
      && Matches(balances, map[], abs.balances)
      && Covers(processedBlocks, abs)
      && lastBlockHash == abs.tipHash && lastHeight == abs.tipHeight
    }

    /** The fields with the journal of tx laid over them represent tx's view. */
    ghost predicate ValidTx(tx: Transaction)
      reads this, tx
    {
      && Consistent(tx.view)
      && Matches(balances, tx.balances, tx.view.balances)
      && Covers(processedBlocks + tx.processedBlocks, tx.view)
      && tx.view.tipHash == (if tx.updatedBlock then tx.blockHash else lastBlockHash)
      && tx.view.tipHeight == (if tx.updatedBlock then tx.blockHeight else lastHeight)
      && match tx.mode
         case Fresh => Valid() && tx.view == abs && !tx.updatedBlock && tx.balances == map[] &&
                       tx.processedBlocks == map[] && tx.blockHeight == 0
         case Storing => Valid() && tx.updatedBlock && tx.blockHeight > lastHeight
         case RollingBack => tx.updatedBlock && tx.balances == map[] && tx.processedBlocks == map[] &&
                             tx.blockHeight >= 1
    }

    constructor ()
      ensures Valid() && abs == EMPTY
    {
      balances, lastBlockHash, lastHeight, processedBlocks := map[], ZERO_HASH, 0, map[];
      abs := EMPTY;
    }

    method Begin() returns (tx: Transaction)
      requires Valid()
      ensures fresh(tx) && ValidTx(tx) && tx.view == abs && tx.mode == Fresh
    {
      tx := new Transaction(abs);
      assert processedBlocks + map[] == processedBlocks;
    }

    method GetBalance(tx: Transaction, a: Account, height: int) returns (balance: int)
      requires ValidTx(tx)
      ensures balance == Balance(tx.view.balances, a, height)
    {
      ghost var all := Slice(balances, a) + Slice(tx.balances, a);
      assert SliceMatches(all, tx.view.balances, a);
      hide Covers, Matches, Slice;
      ghost var k;
      balance, k := OverlaidBalance(Slice(balances, a), Slice(tx.balances, a), height);
      SplitIsBalance(all, tx.view.balances, a, height, k);
    }

    method LastProcessedBlock(tx: Transaction) returns (hash: Hash, height: int)
      requires ValidTx(tx)
      ensures hash == tx.view.tipHash && height == tx.view.tipHeight
    {
      if tx.updatedBlock {
        return tx.blockHash, tx.blockHeight;
      }
      return lastBlockHash, lastHeight;
    }

    method GetProcessedBlockHash(tx: Transaction, height: int) returns (r: Result<Hash, DbError>)
      requires ValidTx(tx)
      ensures r == ProcessedBlockHash(tx.view, height)
    {
      if height in tx.processedBlocks {
        return Ok(tx.processedBlocks[height].hash);
      }
      if height in processedBlocks {
        return Ok(processedBlocks[height].hash);
      }
      return Err(ErrBlockHeightNotFound);
    }

    /** Accepts exactly the block that extends the tip; only the code of a refusal is its own. */
    method Store(tx: Transaction, hash: Hash, height: int, changed: map<Account, int>) returns (err: Option<DbError>)
      requires ValidTx(tx) && !tx.mode.RollingBack?
      modifies tx
      ensures ValidTx(tx) && !tx.mode.RollingBack?
      ensures err.None? <==> StoreBalances(old(tx.view), hash, height, changed).Ok?
      ensures err.None? ==> tx.view == StoreBalances(old(tx.view), hash, height, changed).value
      ensures err.Some? ==> tx.view == old(tx.view)
      ensures err == Some(ErrBlockAlreadyProcessed) <==> height == old(tx.view.tipHeight) || height == abs.tipHeight
      ensures err.Some? ==> err.value == ErrBlockAlreadyProcessed || err.value == ErrNotExtendingTip
    {
      hide Matches, Covers, Consistent, NewEntries, Appended;
      ConsistentBelow(tx.view);
      StoreKeepsConsistent(tx.view, hash, height, changed);
      if tx.updatedBlock && tx.blockHeight == height {
        return Some(ErrBlockAlreadyProcessed);
      }
      if lastHeight == height {
        return Some(ErrBlockAlreadyProcessed);
      }
      if tx.updatedBlock && height != tx.blockHeight + 1 {
        return Some(ErrNotExtendingTip);
      }
      if !tx.updatedBlock && height != lastHeight + 1 {
        return Some(ErrNotExtendingTip);
      }
      var journal, accounts := AppendAll(tx.balances, height, changed);
      AppendedMatches(balances, tx.balances, journal, tx.view.balances, height, changed);
      ghost var b := ProcessedBlock(hash, accounts);
      CoversStored(processedBlocks + tx.processedBlocks, tx.view, b, height, changed);
      assert processedBlocks + tx.processedBlocks[height := b] == (processedBlocks + tx.processedBlocks)[height := b];
      tx.balances := journal;
      tx.processedBlocks := tx.processedBlocks[height := ProcessedBlock(hash, accounts)];
      tx.blockHash, tx.blockHeight, tx.updatedBlock := hash, height, true;
      tx.view, tx.mode := StoreBalances(tx.view, hash, height, changed).value, Storing;
      err := None;
    }

    /** The end of a successful Update: the transaction's view becomes the database's state. */
    method Commit(tx: Transaction)
      requires ValidTx(tx)
      modifies this
      ensures Valid() && abs == tx.view
    {
      hide Matches, Covers, Consistent;
      var merged := MergeAll(balances, tx.balances);
      MergedMatches(balances, tx.balances, merged, tx.view.balances);
      balances := merged;
      processedBlocks := processedBlocks + tx.processedBlocks;
      if tx.updatedBlock {
        lastBlockHash, lastHeight := tx.blockHash, tx.blockHeight;
      }
      abs := tx.view;
    }

    /** Rolls back the tip, writing through to the stored slices before the transaction commits. */
    method Rollback(tx: Transaction, hash: Hash, height: int) returns (r: RollbackOutcome)
      requires ValidTx(tx) && !tx.mode.Storing?
      modifies this, tx
      ensures r.RolledBack? <==> RollbackTip(old(tx.view), hash, height).Ok?
      ensures r.RolledBack? ==>
                && ValidTx(tx) && tx.mode.RollingBack?
                && tx.view == RollbackTip(old(tx.view), hash, height).value
      ensures r.Refused? || r.NothingToDo? ==> ValidTx(tx) && tx.view == old(tx.view) && tx.mode == old(tx.mode)
      ensures r == Refused(ErrNotTip) <==> hash != old(tx.view.tipHash) || height != old(tx.view.tipHeight)
      ensures r.NilDereference? <==> hash == old(tx.view.tipHash) && height == old(tx.view.tipHeight) == 1
      ensures r.NothingToDo? <==> hash == old(tx.view.tipHash) && height == old(tx.view.tipHeight) == 0
    {
      hide Matches, Covers, Consistent, RollbackTip, AllIncreasing, PoppedAll;
      RollbackKeepsConsistent(tx.view, hash, height);
      var tipHash, tipHeight := tx.blockHash, tx.blockHeight;
      if tipHeight == 0 {
        tipHash, tipHeight := lastBlockHash, lastHeight;
      }
      if tipHash != hash || tipHeight != height {
        return Refused(ErrNotTip);
      }
      assert processedBlocks + tx.processedBlocks == processedBlocks;
      CoversHeights(processedBlocks, tx.view);
      if height !in processedBlocks {
        return NothingToDo;
      }
      var oldTip := processedBlocks[height];
      MatchesIncreasing(balances, tx.view.balances);
      var popped := PopAll(balances, oldTip.accounts, height);
      RolledBackMatches(balances, popped, processedBlocks, tx.view);
      balances := popped;
      processedBlocks := processedBlocks - {height};
      if height - 1 !in processedBlocks {
        return NilDereference;
      }
      tx.blockHash, tx.blockHeight, tx.updatedBlock := processedBlocks[height - 1].hash, height - 1, true;
      tx.view, tx.mode := RollbackTip(tx.view, hash, height).value, RollingBack;
      assert processedBlocks + tx.processedBlocks == processedBlocks;
      r := RolledBack;
    }
  }

  /** after appends one element at the given height to the slices of the changed accounts. */
  ghost predicate Appended(before: Slices, after: Slices, height: int, changed: map<Account, int>) {
    forall a :: Slice(after, a) ==
                Slice(before, a) + if a in changed then [BalanceHeight(height, changed[a])] else []
  }

  method AppendAll(journal: Slices, height: int, changed: map<Account, int>)
    returns (after: Slices, accounts: seq<Account>)
    ensures Appended(journal, after, height, changed)
    ensures forall a :: a in accounts <==> a in changed
  {
    hide Slice;
    after, accounts := journal, [];
    var pending := changed.Keys;
    while pending != {}
      invariant pending <= changed.Keys
      invariant forall a :: a in accounts <==> a in changed && a !in pending
      invariant forall a | a in pending || a !in changed :: Slice(after, a) == Slice(journal, a)
      invariant forall a | a in changed && a !in pending ::
                  Slice(after, a) == Slice(journal, a) + [BalanceHeight(height, changed[a])]
      decreases |pending|
    {
      var a :| a in pending;
      pending := pending - {a};
      SlicePut(after, a, Slice(after, a) + [BalanceHeight(height, changed[a])]);
      after := after[a := Slice(after, a) + [BalanceHeight(height, changed[a])]];
      accounts := accounts + [a];
    }
  }

  lemma MatchesSnoc(s: seq<BalanceHeight>, balances: Balances, a: Account, height: int, changed: map<Account, int>)
    requires SliceMatches(s, balances, a) && forall e | e in balances :: e.height < height
    ensures SliceMatches(s + if a in changed then [BalanceHeight(height, changed[a])] else [],
                         balances + NewEntries(changed, height), a)
  {
    var added := if a in changed then [BalanceHeight(height, changed[a])] else [];
    var s', after := s + added, balances + NewEntries(changed, height);
    forall i | 0 <= i < |s'|
      ensures Entry(a, s'[i].height) in after && after[Entry(a, s'[i].height)] == s'[i].balance
    {
      if i < |s| {
        assert Entry(a, s[i].height) in balances;
      }
    }
    forall e | e in after && e.account == a ensures exists i :: 0 <= i < |s'| && s'[i].height == e.height {
      if e in balances {
        var i :| 0 <= i < |s| && s[i].height == e.height;
        assert s'[i] == s[i];
      } else {
        assert s'[|s|].height == e.height;
      }
    }
    forall i, j | 0 <= i < j < |s'| ensures s'[i].height < s'[j].height {
      assert Entry(a, s[i].height) in balances;
    }
  }

  lemma AppendedMatches(stored: Slices, before: Slices, after: Slices, balances: Balances, height: int,
                        changed: map<Account, int>)
    requires Matches(stored, before, balances) && Appended(before, after, height, changed)
    requires forall e | e in balances :: e.height < height
    ensures Matches(stored, after, balances + NewEntries(changed, height))
  {
    hide SliceMatches, NewEntries, Slice;
    forall a ensures SliceMatches(Slice(stored, a) + Slice(after, a), balances + NewEntries(changed, height), a) {
      var added := if a in changed then [BalanceHeight(height, changed[a])] else [];
      MatchesSnoc(Slice(stored, a) + Slice(before, a), balances, a, height, changed);
      AppendAssociates(Slice(stored, a), Slice(before, a), added);
    }
  }

  lemma CoversStored(processed: map<int, ProcessedBlock>, db: Db, b: ProcessedBlock, height: int,
                     changed: map<Account, int>)
    requires Covers(processed, db) && StoreBalances(db, b.hash, height, changed).Ok?
    requires forall a :: a in b.accounts <==> a in changed
    requires forall e | e in db.balances :: e.height < height
    ensures Covers(processed[height := b], StoreBalances(db, b.hash, height, changed).value)
  {
    var after := StoreBalances(db, b.hash, height, changed).value;
    forall e | e in after.balances
      ensures e.height in processed[height := b] && e.account in processed[height := b][e.height].accounts
    {
      assert e !in db.balances ==> e in NewEntries(changed, height);
    }
  }

  ghost predicate Merged(stored: Slices, journal: Slices, after: Slices) {
    forall a :: Slice(after, a) == Slice(stored, a) + Slice(journal, a)
  }

  /** Committing appends every journal slice to the stored one. */
  method MergeAll(stored: Slices, journal: Slices) returns (after: Slices)
    ensures Merged(stored, journal, after)
  {
    hide Slice;
    after := stored;
    var pending := journal.Keys;
    while pending != {}
      invariant pending <= journal.Keys
      invariant forall a | a in pending || a !in journal :: Slice(after, a) == Slice(stored, a)
      invariant forall a | a in journal && a !in pending :: Slice(after, a) == Slice(stored, a) + Slice(journal, a)
      decreases |pending|
    {
      var a :| a in pending;
      pending := pending - {a};
      SliceOf(journal, a);
      SlicePut(after, a, Slice(after, a) + journal[a]);
      after := after[a := Slice(after, a) + journal[a]];
    }
    forall a ensures Slice(after, a) == Slice(stored, a) + Slice(journal, a) {
      SliceOf(journal, a);
    }
  }

  lemma MergedMatches(stored: Slices, journal: Slices, after: Slices, balances: Balances)
    requires Matches(stored, journal, balances)
    requires Merged(stored, journal, after)
    ensures Matches(after, map[], balances)
  {
    forall a ensures SliceMatches(Slice(after, a) + Slice(map[], a), balances, a) {
      assert SliceMatches(Slice(stored, a) + Slice(journal, a), balances, a);
      assert Slice(after, a) + Slice(map[], a) == Slice(after, a);
    }
  }

  /** Rolling back looks only at the last element of a slice. */
  function Popped(s: seq<BalanceHeight>, height: int): seq<BalanceHeight> {
    if s != [] && s[|s| - 1].height == height then s[..|s| - 1] else s
  }

  /** after pops the slices of the given accounts. */
  ghost predicate PoppedAll(stored: Slices, after: Slices, accounts: seq<Account>, height: int) {
    forall a :: Slice(after, a) == if a in accounts then Popped(Slice(stored, a), height) else Slice(stored, a)
  }

  ghost predicate AllIncreasing(stored: Slices) {
    forall a :: Increasing(Slice(stored, a))
  }

  method PopAll(stored: Slices, accounts: seq<Account>, height: int) returns (after: Slices)
    requires AllIncreasing(stored)
    ensures PoppedAll(stored, after, accounts, height)
  {
    after := stored;
    for i := 0 to |accounts|
      invariant forall a :: Slice(after, a) ==
                            if a in accounts[..i] then Popped(Slice(stored, a), height) else Slice(stored, a)
    {
      var acct := accounts[i];
      var bals := Slice(after, acct);
      assert Increasing(Slice(stored, acct));
      if |bals| > 0 && bals[|bals| - 1].height == height {
        after := after[acct := bals[..|bals| - 1]];
      }
    }
  }

  /** What is popped is exactly what is at the tip's height. */
  lemma PoppedBelow(s: seq<BalanceHeight>, height: int)
    requires Increasing(s) && forall i | 0 <= i < |s| :: s[i].height <= height
    ensures |Popped(s, height)| <= |s|
    ensures forall i | 0 <= i < |Popped(s, height)| :: Popped(s, height)[i] == s[i] && s[i].height < height
    ensures forall i | |Popped(s, height)| <= i < |s| :: s[i].height == height
  {
    assert forall i | 0 <= i < |s| - 1 :: s[i].height < s[|s| - 1].height;
  }

  lemma PoppedMatches(s: seq<BalanceHeight>, balances: Balances, a: Account, height: int)
    requires SliceMatches(s, balances, a) && forall e | e in balances :: e.height <= height
    ensures SliceMatches(Popped(s, height), WithoutHeight(balances, height), a)
  {
    hide Popped;
    var p, after := Popped(s, height), WithoutHeight(balances, height);
    forall i | 0 <= i < |s| ensures s[i].height <= height {
      assert Entry(a, s[i].height) in balances;
    }
    PoppedBelow(s, height);
    forall e | e in after && e.account == a ensures exists i :: 0 <= i < |p| && p[i].height == e.height {
      var i :| 0 <= i < |s| && s[i].height == e.height;
      assert p[i] == s[i];
    }
  }

  lemma NothingPopped(s: seq<BalanceHeight>, balances: Balances, a: Account, height: int)
    requires SliceMatches(s, balances, a) && Entry(a, height) !in balances
    ensures Popped(s, height) == s
  {
  }

  lemma PoppedAllMatches(stored: Slices, after: Slices, balances: Balances, accounts: seq<Account>, height: int)
    requires Matches(stored, map[], balances) && forall e | e in balances :: e.height <= height
    requires forall e | e in balances && e.height == height :: e.account in accounts
    requires PoppedAll(stored, after, accounts, height)
    ensures Matches(after, map[], WithoutHeight(balances, height))
  {
    forall a ensures SliceMatches(Slice(after, a) + Slice(map[], a), WithoutHeight(balances, height), a) {
      assert SliceMatches(Slice(stored, a) + Slice(map[], a), balances, a);
      assert Slice(stored, a) + Slice(map[], a) == Slice(stored, a);
      PoppedMatches(Slice(stored, a), balances, a, height);
      assert Slice(after, a) + Slice(map[], a) == Slice(after, a);
      if a !in accounts {
        assert Entry(a, height) !in balances;
        NothingPopped(Slice(stored, a), balances, a, height);
      }
    }
  }

  lemma MatchesIncreasing(stored: Slices, balances: Balances)
    requires Matches(stored, map[], balances)
    ensures AllIncreasing(stored)
  {
    forall a ensures Increasing(Slice(stored, a)) {
      assert SliceMatches(Slice(stored, a) + Slice(map[], a), balances, a);
      assert Slice(stored, a) + Slice(map[], a) == Slice(stored, a);
    }
  }

  lemma CoversHeights(processed: map<int, ProcessedBlock>, db: Db)
    requires Covers(processed, db) && Consistent(db)
    ensures 0 <= db.tipHeight && forall h :: h in processed <==> 1 <= h <= db.tipHeight
  {
  }

  /** Popping the accounts of the tip represents the state below the tip. */
  lemma RolledBackMatches(stored: Slices, after: Slices, processed: map<int, ProcessedBlock>, db: Db)
    requires Matches(stored, map[], db.balances) && Covers(processed, db) && Consistent(db) && db.tipHeight in processed
    requires PoppedAll(stored, after, processed[db.tipHeight].accounts, db.tipHeight)
    ensures var r := RollbackTip(db, db.tipHash, db.tipHeight);
            r.Ok? ==>
              && Matches(after, map[], r.value.balances)
              && Covers(processed - {db.tipHeight}, r.value)
              && r.value.tipHeight == db.tipHeight - 1 && db.tipHeight - 1 in processed
              && r.value.tipHash == processed[db.tipHeight - 1].hash
  {
    hide Matches, PoppedAll;
    PoppedAllMatches(stored, after, db.balances, processed[db.tipHeight].accounts, db.tipHeight);
    if RollbackTip(db, db.tipHash, db.tipHeight).Ok? {
      CoversRolledBack(processed, db);
    }
  }

  lemma CoversRolledBack(processed: map<int, ProcessedBlock>, db: Db)
    requires Covers(processed, db) && RollbackTip(db, db.tipHash, db.tipHeight).Ok?
    ensures var after := RollbackTip(db, db.tipHash, db.tipHeight).value;
            && Covers(processed - {db.tipHeight}, after)
            && after.balances == WithoutHeight(db.balances, db.tipHeight)
            && after.tipHeight == db.tipHeight - 1 && db.tipHeight - 1 in processed
            && after.tipHash == processed[db.tipHeight - 1].hash
  {
  }

  lemma StoredSplits(x: seq<BalanceHeight>, y: seq<BalanceHeight>, height: int, k: nat)
    requires Increasing(x + y) && Splits(x, height, k) && (y == [] || y[0].height > height)
    ensures Splits(x + y, height, k)
  {
    SlicesIncreasing(x, y);
  }

  lemma JournalSplits(x: seq<BalanceHeight>, y: seq<BalanceHeight>, height: int, k: nat)
    requires Increasing(x + y) && Splits(y, height, k) && k > 0
    ensures Splits(x + y, height, |x| + k)
  {
    SlicesIncreasing(x, y);
    assert y[0].height <= height;
  }

  lemma SlicesIncreasing(x: seq<BalanceHeight>, y: seq<BalanceHeight>)
    requires Increasing(x + y)
    ensures Increasing(x) && Increasing(y)
    ensures forall i, j | 0 <= i < |x| && 0 <= j < |y| :: x[i].height < y[j].height
  {
    var s := x + y;
    forall i, j | 0 <= i < j < |x| ensures x[i].height < x[j].height {
      assert s[i].height < s[j].height;
    }
    forall i, j | 0 <= i < j < |y| ensures y[i].height < y[j].height {
      assert s[|x| + i].height < s[|x| + j].height;
    }
    forall i, j | 0 <= i < |x| && 0 <= j < |y| ensures x[i].height < y[j].height {
      assert s[i].height < s[|x| + j].height;
    }
  }
}
