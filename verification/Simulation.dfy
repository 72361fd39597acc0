/** Both databases follow the same abstract one, transaction by transaction. */
module Simulation {
  import opened Prelude
  import opened Wire
  import opened BlockOps
  import opened BackendDb
  import opened BadgerKeys
  import MemDb
  import BadgerDb

  datatype Block = Block(hash: Hash, height: Int64, changed: map<Account, Int64>)

  /** A transaction either only stores blocks or only rolls blocks back. */
  datatype Update = Storing(blocks: seq<Block>) | RollingBack(blocks: seq<Block>)

  ghost predicate CleanBlocks(blocks: seq<Block>) {
    forall i, a | 0 <= i < |blocks| && a in blocks[i].changed :: Clean(a)
  }

  /** Storing blocks in one transaction: all of them or none. */
  function StoreAll(db: Db, blocks: seq<Block>): Result<Db, DbError> {
    if blocks == [] then Ok(db) else
      var b := blocks[|blocks| - 1];
      match StoreAll(db, blocks[..|blocks| - 1])
      case Err(e) => Err(e)
      case Ok(db') => StoreBalances(db', b.hash, b.height, b.changed)
  }

  function RollbackAll(db: Db, blocks: seq<Block>): Result<Db, DbError> {
    if blocks == [] then Ok(db) else
      var b := blocks[|blocks| - 1];
      match RollbackAll(db, blocks[..|blocks| - 1])
      case Err(e) => Err(e)
      case Ok(db') => RollbackTip(db', b.hash, b.height)
  }

  /** The outcome of an Update: a refused one changes nothing. */
  function Applied(db: Db, u: Update): Db {
    var r := if u.Storing? then StoreAll(db, u.blocks) else RollbackAll(db, u.blocks);
    if r.Ok? then r.value else db
  }

  function AppliedAll(db: Db, us: seq<Update>): Db {
    if us == [] then db else Applied(AppliedAll(db, us[..|us| - 1]), us[|us| - 1])
  }

  /** Accounts are clean and every rollback succeeds. */
  ghost predicate Supported(db: Db, us: seq<Update>) {
    forall i | 0 <= i < |us| ::
      && CleanBlocks(us[i].blocks)
      && (us[i].RollingBack? ==> RollbackAll(AppliedAll(db, us[..i]), us[i].blocks).Ok?)
  }

  lemma {:induction false} RefusedStays(db: Db, blocks: seq<Block>, i: nat)
    requires i <= |blocks|
    ensures StoreAll(db, blocks[..i]).Err? ==> StoreAll(db, blocks).Err?
    ensures RollbackAll(db, blocks[..i]).Err? ==> RollbackAll(db, blocks).Err?
    decreases |blocks| - i
  {
    if i == |blocks| {
      assert blocks[..i] == blocks;
    } else {
      assert blocks[..i + 1][..i] == blocks[..i];
      RefusedStays(db, blocks, i + 1);
    }
  }

  /** Both databases accept or refuse a storing transaction together. */
  method StoreBoth(mem: MemDb.Database, badger: BadgerDb.Database, blocks: seq<Block>) returns (ok: bool)
    requires mem.Valid() && badger.Valid() && mem.abs == badger.abs && CleanBlocks(blocks)
    modifies mem, badger
    ensures mem.Valid() && badger.Valid() && mem.abs == badger.abs == Applied(old(mem.abs), Storing(blocks))
    ensures ok <==> StoreAll(old(mem.abs), blocks).Ok?
  {
    hide MemDb.Matches, MemDb.Covers, Consistent, BadgerDb.Encodes, BadgerDb.Represents, StoreBalances;
    ghost var db := mem.abs;
    var mtx := mem.Begin();
    var btx := badger.Begin();
    for i := 0 to |blocks|
      invariant mem.Valid() && badger.Valid() && mem.abs == badger.abs == db
      invariant mem.ValidTx(mtx) && !mtx.mode.RollingBack? && btx.Valid()
      invariant StoreAll(db, blocks[..i]) == Ok(mtx.view) && mtx.view == btx.view
    {
      assert blocks[..i + 1][..i] == blocks[..i];
      var b := blocks[i];
      var merr := mem.Store(mtx, b.hash, b.height, b.changed);
      var berr := btx.StoreBlock(b.hash, b.height, b.changed);
      if merr.Some? || berr.Some? {
        assert merr.Some? && berr.Some?;
        RefusedStays(db, blocks, i + 1);
        return false;
      }
    }
    assert blocks[..|blocks|] == blocks;
    mem.Commit(mtx);
    badger.Commit(btx);
    ok := true;
  }

  /** Both databases roll back the same blocks. */
  method RollbackBoth(mem: MemDb.Database, badger: BadgerDb.Database, blocks: seq<Block>)
    requires mem.Valid() && badger.Valid() && mem.abs == badger.abs && RollbackAll(mem.abs, blocks).Ok?
    modifies mem, badger
    ensures mem.Valid() && badger.Valid() && mem.abs == badger.abs == Applied(old(mem.abs), RollingBack(blocks))
  {
    hide MemDb.Matches, MemDb.Covers, Consistent, BadgerDb.Encodes, BadgerDb.Represents, RollbackTip;
    ghost var db := mem.abs;
    var mtx := mem.Begin();
    var btx := badger.Begin();
    for i := 0 to |blocks|
      invariant badger.Valid() && badger.abs == db
      invariant mem.ValidTx(mtx) && !mtx.mode.Storing? && btx.Valid()
      invariant RollbackAll(db, blocks[..i]) == Ok(mtx.view) && mtx.view == btx.view
    {
      assert blocks[..i + 1][..i] == blocks[..i];
      var b := blocks[i];
      RefusedStays(db, blocks, i + 1);
      var r := mem.Rollback(mtx, b.hash, b.height);
      var berr := btx.RollbackBlock(b.hash, b.height);
      assert r.RolledBack? && berr.None?;
    }
    assert blocks[..|blocks|] == blocks;
    mem.Commit(mtx);
    badger.Commit(btx);
  }

  /** Over every supported sequence of transactions both databases reach the same abstract state. */
  method RunBoth(us: seq<Update>) returns (mem: MemDb.Database, badger: BadgerDb.Database)
    requires Supported(EMPTY, us)
    ensures mem.Valid() && badger.Valid() && mem.abs == badger.abs == AppliedAll(EMPTY, us)
  {
    hide MemDb.Matches, MemDb.Covers, Consistent, BadgerDb.Encodes, BadgerDb.Represents, Applied, RollbackAll,
      CleanBlocks;
    mem := new MemDb.Database();
    badger := new BadgerDb.Database();
    for i := 0 to |us|
      invariant fresh(mem) && fresh(badger)
      invariant mem.Valid() && badger.Valid() && mem.abs == badger.abs == AppliedAll(EMPTY, us[..i])
    {
      assert us[..i + 1][..i] == us[..i];
      match us[i] {
        case Storing(blocks) => var ok := StoreBoth(mem, badger, blocks);
        case RollingBack(blocks) => RollbackBoth(mem, badger, blocks);
      }
    }
    assert us[..|us|] == us;
  }

  /** In equal states both databases answer every question the same way, for non-negative heights. */
  method AskBoth(mem: MemDb.Database, badger: BadgerDb.Database, a: Account, height: Int64)
    returns (m: (int, Hash, int, Result<Hash, DbError>), b: (int, Hash, int, Result<Hash, DbError>))
    requires mem.Valid() && badger.Valid() && mem.abs == badger.abs && Clean(a)
    ensures m.1 == b.1 == mem.abs.tipHash && m.2 == b.2 == mem.abs.tipHeight
    ensures m.3 == b.3 == ProcessedBlockHash(mem.abs, height)
    ensures height >= 0 ==> m.0 == b.0 == Balance(mem.abs.balances, a, height)
  {
    hide MemDb.Matches, MemDb.Covers, Consistent, BadgerDb.Encodes, BadgerDb.Represents, Balance;
    var mtx := mem.Begin();
    var btx := badger.Begin();
    var mbalance := mem.GetBalance(mtx, a, height);
    var bbalance := btx.GetBalance(a, height);
    var mhash, mheight := mem.LastProcessedBlock(mtx);
    var bhash, bheight := btx.LastProcessedBlock();
    var mprocessed := mem.GetProcessedBlockHash(mtx, height);
    var bprocessed := btx.GetProcessedBlockHash(height);
    m, b := (mbalance, mhash, mheight, mprocessed), (bbalance, bhash, bheight, bprocessed);
  }

  /**
   * Asked within a storing transaction for a block that does not extend its tip, both databases refuse. MemDB compares
   * with the transaction's tip and with the stored tip only, so the codes differ exactly for the other heights below
   * the
   * tip, and for height 0 while nothing is stored.
   */
  method RefuseInTx(mem: MemDb.Database, mtx: MemDb.Transaction, btx: BadgerDb.Txn, block: Block)
    returns (memCode: DbError, badgerCode: DbError)
    requires mem.ValidTx(mtx) && !mtx.mode.RollingBack? && btx.Valid() && mtx.view == btx.view && CleanBlocks([block])
    requires block.height != mtx.view.tipHeight + 1
    modifies mtx, btx
    ensures mem.ValidTx(mtx) && btx.Valid() && mtx.view == btx.view == old(mtx.view)
    ensures memCode != badgerCode <==>
            || (1 <= block.height < old(mtx.view).tipHeight && block.height != mem.abs.tipHeight)
            || block.height == mem.abs.tipHeight == 0
  {
    hide MemDb.Matches, MemDb.Covers, BadgerDb.Encodes, BadgerDb.Represents;
    assert [block][0] == block;
    StoreKeepsConsistent(mtx.view, block.hash, block.height, block.changed);
    var memErr := mem.Store(mtx, block.hash, block.height, block.changed);
    var badgerErr := btx.StoreBlock(block.hash, block.height, block.changed);
    memCode, badgerCode := memErr.value, badgerErr.value;
  }

  /**
   * Asked at the start of a transaction for a block that does not extend the tip, both databases refuse; the codes
   * they give differ exactly for heights below the tip and for height 0 on an empty database.
   */
  method RefuseBoth(mem: MemDb.Database, badger: BadgerDb.Database, block: Block)
    returns (memCode: DbError, badgerCode: DbError)
    requires mem.Valid() && badger.Valid() && mem.abs == badger.abs && CleanBlocks([block])
    requires block.height != mem.abs.tipHeight + 1
    ensures memCode != badgerCode <==> 1 <= block.height < mem.abs.tipHeight || block.height == mem.abs.tipHeight == 0
    ensures memCode == (if block.height == mem.abs.tipHeight then ErrBlockAlreadyProcessed else ErrNotExtendingTip)
    ensures badgerCode ==
        (if 1 <= block.height <= mem.abs.tipHeight then ErrBlockAlreadyProcessed else ErrNotExtendingTip)
  {
    hide MemDb.Matches, MemDb.Covers, BadgerDb.Encodes, BadgerDb.Represents;
    var mtx := mem.Begin();
    var btx := badger.Begin();
    assert [block][0] == block;
    StoreKeepsConsistent(mem.abs, block.hash, block.height, block.changed);
    var memErr := mem.Store(mtx, block.hash, block.height, block.changed);
    var badgerErr := btx.StoreBlock(block.hash, block.height, block.changed);
    memCode, badgerCode := memErr.value, badgerErr.value;
  }
}
