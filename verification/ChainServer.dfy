/** The server: committed database states, reorganisations and the handling of block notifications. */
module ChainServer {
  import opened Prelude
  import opened Wire
  import opened BlockOps
  import opened Coins
  import opened BackendDb
  import opened Chain
  import opened Consensus
  import opened Forks
  import opened Dcrd
  import opened Sync

  /** A state that was committed, with the block it belongs to and all moves of the run until then. */
  datatype Commit = Commit(db: Db, tip: Hash, moves: seq<Move>)

  /** A notification: the hash and height of the connected or disconnected block's header. */
  datatype Notification = BlockConnected(hash: Hash, height: int) | BlockDisconnected(hash: Hash, height: int)

  /**
   * Every state ever committed, including those between the steps of one reorganisation, is a chain's state, and
   * follows from the state before by connecting one block or by rolling back some; the last one is db.
   */
  ghost predicate ValidLog(n: Node, log: seq<Commit>, db: Db): (r: bool)
    ensures r ==> log != [] && log[|log| - 1].db == db
    ensures r ==> OnChain(n, db, log[|log| - 1].tip, log[|log| - 1].moves)
  {
    && log != []
    && log[|log| - 1].db == db
    && log[0] == Commit(EMPTY, n.genesis, [])
    && Linked(n, log)
    && AllOnChain(n, log)
  }

  ghost predicate Linked(n: Node, log: seq<Commit>) {
    forall i | 0 < i < |log| :: Follows(n, log[i - 1], log[i])
  }

  ghost predicate AllOnChain(n: Node, log: seq<Commit>) {
    forall i | 0 <= i < |log| :: OnChain(n, log[i].db, log[i].tip, log[i].moves)
  }

  lemma LinkedSnoc(n: Node, log: seq<Commit>, c: Commit)
    requires Linked(n, log) && log != [] && Follows(n, log[|log| - 1], c)
    ensures Linked(n, log + [c])
  {
    hide Follows;
    var l := log + [c];
    forall i | 0 < i < |l| ensures Follows(n, l[i - 1], l[i]) {
      assert l[i - 1] == log[i - 1] && l[i] == if i < |log| then log[i] else c;
    }
  }

  lemma AllOnChainSnoc(n: Node, log: seq<Commit>, c: Commit)
    requires AllOnChain(n, log) && OnChain(n, c.db, c.tip, c.moves)
    ensures AllOnChain(n, log + [c])
  {
    hide OnChain;
    var l := log + [c];
    forall i | 0 <= i < |l| ensures OnChain(n, l[i].db, l[i].tip, l[i].moves) {
      assert l[i] == if i < |log| then log[i] else c;
    }
  }

  lemma ValidLogSnoc(n: Node, log: seq<Commit>, db: Db, c: Commit)
    requires ValidLog(n, log, db) && OnChain(n, c.db, c.tip, c.moves) && Follows(n, log[|log| - 1], c)
    ensures ValidLog(n, log + [c], c.db)
  {
    hide OnChain, Follows, Linked, AllOnChain;
    LinkedSnoc(n, log, c);
    AllOnChainSnoc(n, log, c);
  }

  lemma LogStates(n: Node, log: seq<Commit>, db: Db)
    requires ValidLog(n, log, db)
    ensures forall i | 0 <= i < |log| :: OnChain(n, log[i].db, log[i].tip, log[i].moves) && Consistent(log[i].db)
  {
    hide OnChain, Follows, Consistent;
    forall i | 0 <= i < |log| ensures OnChain(n, log[i].db, log[i].tip, log[i].moves) && Consistent(log[i].db) {
      OnChainConsistent(n, log[i].db, log[i].tip, log[i].moves);
    }
  }

  class Server {
    const rpc: Connection
    var db: Db
    ghost var log: seq<Commit>

    ghost predicate Valid(): (r: bool)
      reads this
      ensures r ==> log != []
    {
      ValidLog(rpc.node, log, db)
    }

    ghost function Tip(): Hash
      requires log != []
      reads this
    {
      log[|log| - 1].tip
    }

    /** The moves so far. */
    ghost function Moves(): seq<Move>
      requires log != []
      reads this
    {
      log[|log| - 1].moves
    }

    lemma ValidTip()
      requires Valid()
      ensures log != [] && Tip() == log[|log| - 1].tip && OnChain(rpc.node, db, Tip(), Moves())
    {
    }

    constructor (rpc: Connection)
      requires ValidNode(rpc.node)
      ensures Valid() && this.rpc == rpc && db == EMPTY && Tip() == rpc.node.genesis && Moves() == []
    {
      this.rpc := rpc;
      db := EMPTY;
      log := [Commit(EMPTY, rpc.node.genesis, [])];
      new;
      EmptyOnChain(rpc.node);
    }

    /** Update's successful end: the working copy becomes the database. */
    method CommitTx(tx: WriteTx, ghost t: Hash)
      requires Valid() && OnChain(rpc.node, tx.state, t, tx.moves)
      requires Follows(rpc.node, log[|log| - 1], Commit(tx.state, t, tx.moves))
      modifies this
      ensures Valid() && db == tx.state && log == old(log) + [Commit(tx.state, t, tx.moves)]
      ensures Tip() == t && Moves() == tx.moves
    {
      hide OnChain, Follows, ValidLog;
      ValidLogSnoc(rpc.node, log, db, Commit(tx.state, t, tx.moves));
      db := tx.state;
      log := log + [Commit(tx.state, t, tx.moves)];
    }

    /** Processes a block that extends the tip, in one Update. */
    method PreProcessAccountBlock(bh: Hash, b: Block, prev: Option<Block>, cache: UtxoCache?)
      returns (err: Option<SyncError>)
      requires Valid() && bh in rpc.node.blocks && b == rpc.node.blocks[bh]
      requires prev == if db.tipHeight > 0 then Some(rpc.node.blocks[Tip()]) else None
      requires cache != null ==> Agrees(rpc.node.txs, cache.entries)
      modifies this, rpc, cache
      ensures Valid()
      ensures rpc.failures >= old(rpc.failures)
      ensures err.None? ==> rpc.failures == old(rpc.failures)
      ensures cache != null ==> Agrees(rpc.node.txs, cache.entries)
      ensures err.None? ==>
                && Height(rpc.node, bh) > 0 && old(Tip()) == Parent(rpc.node, bh)
                && Translation(rpc.node, bh).err.None?
                && log == old(log) + [Commit(db, bh, old(Moves()) + [Up(bh)])]
      ensures err == Some(ErrDoesNotExtendTip) <==>
                Height(rpc.node, bh) == 0 || old(Tip()) != Parent(rpc.node, bh)
      ensures err.Some? ==>
                && db == old(db) && log == old(log)
                && (|| rpc.failures > old(rpc.failures)
                    || Height(rpc.node, bh) == 0 || old(Tip()) != Parent(rpc.node, bh)
                    || Translation(rpc.node, bh).err.Some?)
    {
      hide OnChain, Follows, ValidLog, Processable, Translation, ValidNode, Parent, Connected;
      ValidTip();
      ExtendsTip(rpc.node, bh, Tip());
      var tx := new WriteTx(db, Moves());
      var tipHash, tipHeight := db.tipHash, db.tipHeight;
      if tipHash == ZERO_HASH && tipHeight == 0 {
        tipHash := rpc.node.genesis;
      }
      if tipHeight != b.height - 1 || tipHash != b.prevBlock {
        return Some(ErrDoesNotExtendTip);
      }
      err := ConnectBlock(rpc, tx, bh, b, prev, cache, Tip());
      if err.None? {
        FollowsUp(rpc.node, log[|log| - 1], Commit(tx.state, bh, tx.moves));
        CommitTx(tx, bh);
      }
    }

    /** Processes a missing block of height i of target's chain, on top of that chain's block below. */
    method ProcessMissingBlock(h: Hash, prev: Option<Block>, ghost target: Hash, ghost i: nat)
      returns (r: Result<Block, SyncError>)
      requires Valid() && InNode(rpc.node, target) && 0 < i <= Height(rpc.node, target)
      requires h == Ancestor(rpc.node, target, i) && Tip() == Ancestor(rpc.node, target, i - 1)
      requires prev == if i > 1 then Some(rpc.node.blocks[Tip()]) else None
      modifies this, rpc
      ensures Valid()
      ensures rpc.failures >= old(rpc.failures)
      ensures r.Ok? ==> rpc.failures == old(rpc.failures)
      ensures r.Ok? ==> Tip() == h && log == old(log) + [Commit(db, h,
          old(Moves()) + [Up(h)])] && r.value == rpc.node.blocks[h]
      ensures r.Err? ==> log == old(log) && (rpc.failures > old(rpc.failures) || !Processable(rpc.node, target))
    {
      hide OnChain, Follows, ValidLog, Translation;
      ParentOfAncestor(rpc.node, target, i);
      if Processable(rpc.node, target) {
        AncestorProcessable(rpc.node, target, i);
      }
      var b := rpc.GetBlock(h);
      if b.None? {
        return Err(ErrRpc);
      }
      var err := PreProcessAccountBlock(h, b.value, prev, null);
      r := if err.Some? then Err(err.value) else Ok(b.value);
    }

    /** Processes the missing blocks on top of the fork point f, oldest first. */
    method ProcessMissing(missing: seq<Hash>, ghost target: Hash, ghost f: Hash)
      returns (r: Result<Option<Block>, SyncError>)
      requires Valid() && Tip() == f && InNode(rpc.node, target) && IsAncestor(rpc.node, f, target)
      requires missing == PathDown(rpc.node, target, Height(rpc.node, f))
      modifies this, rpc
      ensures Valid()
      ensures rpc.failures >= old(rpc.failures)
      ensures r.Ok? ==> rpc.failures == old(rpc.failures)
      ensures old(log) <= log && StepsUp(rpc.node, log, |old(log)| - 1)
      ensures r.Ok? ==> Tip() == target
      ensures r.Ok? ==> r.value == if Height(rpc.node, target) > 0 then Some(rpc.node.blocks[target]) else None
      ensures r.Err? ==> rpc.failures > old(rpc.failures) || !Processable(rpc.node, target)
    {
      hide OnChain, Processable, PathDown, Ancestor, ValidNode, StepsUp, Translation, ValidLog, IsAncestor, Height,
        Valid;
      ValidTip();
      IsAncestorIs(rpc.node, f, target);
      StepsUpFromLast(rpc.node, log);
      ghost var height := Height(rpc.node, target);
      var prev: Option<Block> := None;
      if db.tipHeight > 0 {
        prev := rpc.GetBlock(db.tipHash);
        if prev.None? {
          return Err(ErrRpc);
        }
      }
      for i := |missing| downto 0
        invariant Valid() && old(log) <= log
        invariant rpc.failures == old(rpc.failures)
        invariant StepsUp(rpc.node, log, |old(log)| - 1)
        invariant Tip() == Ancestor(rpc.node, target, height - i)
        invariant prev == if height - i > 0 then Some(rpc.node.blocks[Tip()]) else None
      {
        PathDownIs(rpc.node, target, Height(rpc.node, f), i);
        ParentOfAncestor(rpc.node, target, height - i);
        ghost var before := log;
        var b := ProcessMissingBlock(missing[i], prev, target, height - i);
        if b.Err? {
          return Err(b.error);
        }
        StepsUpSnoc(rpc.node, before, |old(log)| - 1, log[|log| - 1]);
        prev := Some(b.value);
      }
      r := Ok(prev);
      AncestorSelf(rpc.node, target);
    }

    /** The first Update of a reorganisation: rolls back to the fork point t of the tip's chain and target's. */
    method RollbackToCommon(target: Hash, targetHeight: nat)
      returns (err: Option<SyncError>, missing: seq<Hash>, ghost t: Hash)
      requires Valid()
      requires if target in rpc.node.blocks then rpc.node.blocks[target].height == targetHeight
               else db.tipHeight < targetHeight
      modifies this, rpc
      ensures Valid() && rpc.failures >= old(rpc.failures)
      ensures err.None? ==> rpc.failures == old(rpc.failures)
      ensures err.None? ==>
                && InNode(rpc.node, target) && InNode(rpc.node, old(Tip())) && InNode(rpc.node, t)
                && t == ForkPoint(rpc.node, old(Tip()), target) && IsAncestor(rpc.node, t, target)
                && missing == PathDown(rpc.node, target, Height(rpc.node, t))
                && (Height(rpc.node, old(Tip())) > 0 ==> Height(rpc.node, t) > 0)
                && Tip() == t
                && log == old(log) + [Commit(db, t, old(Moves()) + Dropped(rpc.node, old(Tip()), Height(rpc.node, t)))]
      ensures err.Some? ==> log == old(log) && db == old(db)
      ensures err.Some? && InNode(rpc.node, target) && InNode(rpc.node, old(Tip())) ==>
                || rpc.failures > old(rpc.failures)
                || Height(rpc.node, ForkPoint(rpc.node, old(Tip()), target)) == 0 < Height(rpc.node, old(Tip()))
    {
      hide OnChain, Processable, PathDown, ForkPoint, Ancestor, ValidNode, IsAncestor, Translation, ValidLog, Dropped,
        Follows;
      ValidTip();
      var tx := new WriteTx(db, Moves());
      if target in rpc.node.blocks {
        ForkPointIsHighest(rpc.node, Tip(), target, target);
      }
      err, missing, t := RollbackDbChain(rpc, tx, target, targetHeight, Tip());
      if err.None? {
        FollowsDown(rpc.node, log[|log| - 1], Commit(tx.state, t, tx.moves));
        CommitTx(tx, t);
      }
    }

    /** Rolls back to where the chains of the tip and of b's parent fork, and processes up to that parent. */
    method ReorgToParentOf(bh: Hash, b: Block) returns (r: Result<Option<Block>, SyncError>)
      requires Valid() && bh in rpc.node.blocks && b == rpc.node.blocks[bh]
      modifies this, rpc
      ensures Valid()
      ensures rpc.failures >= old(rpc.failures)
      ensures r.Ok? ==> rpc.failures == old(rpc.failures)
      ensures old(log) <= log
      ensures Height(rpc.node, bh) == 0 ==> r.Err? && log == old(log)
      ensures Height(rpc.node, bh) > 0 ==>
                var p := Parent(rpc.node, bh);
                ReorgOutcome(rpc.node, old(log), log, ForkPoint(rpc.node, old(Tip()), p), p, r.Ok?,
                             rpc.failures > old(rpc.failures))
      ensures r.Ok? ==> r.value == if db.tipHeight > 0 then Some(rpc.node.blocks[Tip()]) else None
    {
      hide OnChain, Processable, PathDown, ForkPoint, Ancestor, ValidNode, StepsUp, IsAncestor, Translation,
        ReorgOutcome, ValidLog, Parent, Dropped, Follows;
      ValidTip();
      ParentTarget(rpc.node, bh, Tip());
      var target, targetHeight := b.prevBlock, (b.height - 1) % TWO_32;
      var err, missing;
      ghost var t;
      err, missing, t := RollbackToCommon(target, targetHeight);
      if err.Some? {
        if Height(rpc.node, bh) > 0 {
          ReorgRefused(rpc.node, log, ForkPoint(rpc.node, Tip(), target), target, rpc.failures > old(rpc.failures));
        }
        return Err(err.value);
      }
      r := ProcessMissing(missing, target, t);
      ValidTip();
      ReorgFromParts(rpc.node, old(log), log, t, target, r.Ok?, rpc.failures > old(rpc.failures));
    }

    /** Switches the database to the chain that ends in b, whatever chain it held before. */
    method SwitchChainTo(bh: Hash, b: Block, cache: UtxoCache?) returns (err: Option<SyncError>)
      requires Valid() && bh in rpc.node.blocks && b == rpc.node.blocks[bh]
      requires cache != null ==> Agrees(rpc.node.txs, cache.entries)
      modifies this, rpc, cache
      ensures Valid()
      ensures rpc.failures >= old(rpc.failures)
      ensures err.None? ==> rpc.failures == old(rpc.failures)
      ensures cache != null ==> Agrees(rpc.node.txs, cache.entries)
      ensures old(log) <= log
      ensures Height(rpc.node, bh) == 0 ==> err.Some? && log == old(log)
      ensures Height(rpc.node, bh) > 0 ==>
                ReorgOutcome(rpc.node, old(log), log, ForkPoint(rpc.node, old(Tip()), Parent(rpc.node, bh)), bh,
                             err.None?, rpc.failures > old(rpc.failures))
      ensures err.None? ==> Tip() == bh
    {
      hide OnChain, Processable, ForkPoint, StepsUp, Translation, ValidNode, ReorgOutcome, ValidLog, Parent;
      ValidTip();
      var prev := ReorgToParentOf(bh, b);
      ghost var mid, failed := log, rpc.failures > old(rpc.failures);
      if prev.Err? {
        if Height(rpc.node, bh) > 0 {
          FailedReorg(rpc.node, old(log), log, ForkPoint(rpc.node, old(Tip()), Parent(rpc.node, bh)), bh,
              rpc.failures > old(rpc.failures));
        }
        return Some(prev.error);
      }
      assert Tip() == Parent(rpc.node, bh) by {
        ReorgReached(rpc.node, old(log), log, ForkPoint(rpc.node, old(Tip()), Parent(rpc.node, bh)),
                     Parent(rpc.node, bh), rpc.failures > old(rpc.failures));
      }
      err := PreProcessAccountBlock(bh, b, prev.value, cache);
      ReorgThenConnect(rpc.node, old(log), mid, log, ForkPoint(rpc.node, old(Tip()), Parent(rpc.node, bh)), bh,
                       err.None?, failed, rpc.failures > old(rpc.failures));
    }

    /** Handles a connected block: blocks below the tip are ignored, all others become the tip. */
    method HandleBlockConnected(hash: Hash, height: int) returns (err: Option<SyncError>)
      requires Valid() && (hash in rpc.node.blocks ==> rpc.node.blocks[hash].height == height)
      modifies this, rpc
      ensures Valid()
      ensures rpc.failures >= old(rpc.failures)
      ensures err.None? ==> rpc.failures == old(rpc.failures)
      ensures old(log) <= log
      ensures height < old(db.tipHeight) ==> err.None? && log == old(log)
      ensures height >= old(db.tipHeight) && err.None? ==> Tip() == hash
      ensures height >= old(db.tipHeight) && (hash !in rpc.node.blocks || Height(rpc.node, hash) == 0) ==>
                err.Some? && log == old(log)
      ensures err.Some? ==>
                && height >= old(db.tipHeight)
                && (rpc.failures > old(rpc.failures) || SwitchRefused(rpc.node, old(Tip()), hash))
      ensures height >= old(db.tipHeight) && hash in rpc.node.blocks && Height(rpc.node, hash) > 0 ==>
                ReorgOutcome(rpc.node, old(log), log, ForkPoint(rpc.node, old(Tip()), Parent(rpc.node, hash)), hash,
                             err.None?, rpc.failures > old(rpc.failures))
    {
      hide OnChain, Follows, ValidLog, ForkPoint, StepsUp, ValidNode, ReorgOutcome, Translation, Processable;
      ValidTip();
      if height < db.tipHeight {
        return None;
      }
      var b := rpc.GetBlock(hash);
      if b.None? {
        if hash in rpc.node.blocks && Height(rpc.node, hash) > 0 {
          ReorgRefused(rpc.node, log, ForkPoint(rpc.node, Tip(), Parent(rpc.node, hash)), hash, true);
        }
        return Some(ErrRpc);
      }
      err := SwitchChainTo(hash, b.value, null);
      if err.Some? {
        ReorgFailed(rpc.node, old(log), log, hash, rpc.failures > old(rpc.failures));
      }
    }

    /** Handles a disconnected block: rolls it back if it is the tip and changes nothing otherwise. */
    method HandleBlockDisconnected(hash: Hash, height: int) returns (err: Option<SyncError>)
      requires Valid() && hash != ZERO_HASH
      modifies this, rpc
      ensures Valid() && old(log) <= log
      ensures rpc.failures >= old(rpc.failures)
      ensures err.None? ==> rpc.failures == old(rpc.failures)
      ensures hash != old(db.tipHash) || height != old(db.tipHeight) ==>
                err.None? && db == old(db) && Tip() == old(Tip()) && Moves() == old(Moves())
      ensures err.Some? ==> db == old(db) && log == old(log) && (rpc.failures > old(rpc.failures) || height == 1)
      ensures err.None? && height == old(db.tipHeight) ==> db.tipHash != hash
      ensures hash == old(db.tipHash) && height == old(db.tipHeight) && err.None? ==>
                Height(rpc.node, hash) > 1 && Tip() == Parent(rpc.node, hash) && Moves() == old(Moves()) + [Down(hash)]
    {
      hide OnChain, ForkPoint, ValidNode, Processable, Translation, Follows, ValidLog, Disconnected;
      ValidTip();
      var tx := new WriteTx(db, Moves());
      if tx.state.tipHash != hash || tx.state.tipHeight != height {
        FollowsSame(rpc.node, log[|log| - 1], Commit(tx.state, Tip(), tx.moves));
        CommitTx(tx, Tip());
        return None;
      }
      DisconnectedOnChainIfHigh(rpc.node, tx.state, Tip(), tx.moves);
      err := RollbackTipBlock(rpc, tx, hash, height, Tip());
      if err.None? {
        FollowsOne(rpc.node, log[|log| - 1], Commit(tx.state, Parent(rpc.node, hash), tx.moves));
        CommitTx(tx, Parent(rpc.node, hash));
      }
    }

    /**
     * Start-up: leaves a stale chain if needed, then processes the main chain's next blocks with a cache, whose last
     * contents are cached.
     */
    method PreProcessAccounts(mainAtTip: Option<Hash>, next: seq<Hash>)
      returns (err: Option<SyncError>, ghost cached: map<OutPoint, PrevOutput>)
      requires Valid()
      requires mainAtTip.Some? ==> mainAtTip.value in rpc.node.blocks
      requires forall i | 0 <= i < |next| :: next[i] in rpc.node.blocks
      modifies this, rpc
      ensures Valid() && old(log) <= log && rpc.failures >= old(rpc.failures)
      ensures err.None? ==> rpc.failures == old(rpc.failures)
      ensures Agrees(rpc.node.txs, cached)
      ensures err.None? ==> mainAtTip.Some?
      ensures err.Some? ==>
                || mainAtTip.None?
                || rpc.failures > old(rpc.failures)
                || (&& old(db.tipHeight) > 0 && mainAtTip.value != old(Tip())
                    && SwitchRefused(rpc.node, old(Tip()), mainAtTip.value))
                || NextRefused(rpc.node, if old(db.tipHeight) > 0 then mainAtTip.value else old(Tip()), next)
      ensures err.None? && next != [] ==> Tip() == next[|next| - 1]
      ensures err.None? && next == [] && old(db.tipHeight) > 0 ==> Tip() == mainAtTip.value
      ensures err.None? && next == [] && (old(db.tipHeight) == 0 || mainAtTip.value == old(Tip())) ==> log == old(log)
    {
      hide *;
      cached := map[];
      ValidTip();
      EmptyAgrees();
      if mainAtTip.None? {
        return Some(ErrRpc), cached;
      }
      err := LeaveStaleChain(mainAtTip.value);
      if err.None? {
        err, cached := ProcessNext(next);
      }
    }

    lemma EmptyAgrees()
      ensures Agrees(rpc.node.txs, map[])
    {
    }

    /** Switches to the main chain's block at the tip's height if the tip is another block. */
    method LeaveStaleChain(mainAtTip: Hash) returns (err: Option<SyncError>)
      requires Valid() && mainAtTip in rpc.node.blocks
      modifies this, rpc
      ensures Valid() && old(log) <= log && rpc.failures >= old(rpc.failures)
      ensures err.None? ==> rpc.failures == old(rpc.failures)
      ensures err.None? && old(db.tipHeight) > 0 ==> Tip() == mainAtTip
      ensures old(db.tipHeight) == 0 || mainAtTip == old(Tip()) ==> err.None? && log == old(log) && Tip() == old(Tip())
      ensures err.Some? ==>
                || rpc.failures > old(rpc.failures)
                || (mainAtTip != old(Tip()) && SwitchRefused(rpc.node, old(Tip()), mainAtTip))
    {
      hide OnChain, Follows, ValidLog, ForkPoint, StepsUp, ValidNode, ReorgOutcome, Translation, Processable;
      ValidTip();
      err := None;
      if mainAtTip != db.tipHash && db.tipHeight > 0 {
        var b := rpc.GetBlock(mainAtTip);
        if b.None? {
          return Some(ErrRpc);
        }
        err := SwitchChainTo(mainAtTip, b.value, null);
        if err.Some? {
          ReorgFailed(rpc.node, old(log), log, mainAtTip, rpc.failures > old(rpc.failures));
        }
      }
    }

    /** Processes blocks one after the other, with a cache of the outputs they create. */
    method ProcessNext(next: seq<Hash>) returns (err: Option<SyncError>, ghost cached: map<OutPoint, PrevOutput>)
      requires Valid() && forall i | 0 <= i < |next| :: next[i] in rpc.node.blocks
      modifies this, rpc
      ensures Valid() && old(log) <= log && rpc.failures >= old(rpc.failures) && Agrees(rpc.node.txs, cached)
      ensures err.None? ==> rpc.failures == old(rpc.failures)
      ensures err.None? && next != [] ==> Tip() == next[|next| - 1]
      ensures next == [] ==> err.None? && log == old(log) && Tip() == old(Tip())
      ensures err.Some? ==> rpc.failures > old(rpc.failures) || NextRefused(rpc.node, old(Tip()), next)
    {
      hide OnChain, Follows, ValidLog, ForkPoint, StepsUp, ValidNode, ReorgOutcome, Translation, Processable;
      var cache := new UtxoCache();
      cached, err := map[], None;
      for i := 0 to |next|
        invariant Valid() && old(log) <= log && err.None? && rpc.failures == old(rpc.failures)
        invariant Agrees(rpc.node.txs, cache.entries) && cached == cache.entries
        invariant if i > 0 then Tip() == next[i - 1] else log == old(log)
      {
        ghost var before := log;
        var b := rpc.GetBlock(next[i]);
        if b.None? {
          return Some(ErrRpc), cached;
        }
        err := SwitchChainTo(next[i], b.value, cache);
        cached := cache.entries;
        if err.Some? {
          ReorgFailed(rpc.node, before, log, next[i], rpc.failures > old(rpc.failures));
          NextRefusedAt(rpc.node, old(Tip()), next, i, rpc.failures > old(rpc.failures));
          return;
        }
      }
    }

    /** In every committed state of a consensus-valid chain without harmful blocks, balances are sums of outputs. */
    lemma CommitsConserve(i: nat, a: Account)
      requires Valid() && i < |log| && ConsensusValid(rpc.node) && a != TREASURY
      requires HarmlessTo(rpc.node, log[i].tip) && AllRollBack(rpc.node, log[i].moves)
      ensures Balance(log[i].db.balances, a, log[i].db.tipHeight) == Sum(ListUtxos(log[i].db.utxos, a))
    {
      hide OnChain, ValidNode, ConsensusValid, HarmlessTo, AllRollBack;
      Conservation(rpc.node, log[i].db, log[i].tip, log[i].moves, a);
    }

    /** The headers of notifications are those of the node's blocks. */
    ghost predicate ProperNotification(ntfn: Notification) {
      && ntfn.hash != ZERO_HASH
      && (ntfn.hash in rpc.node.blocks ==> rpc.node.blocks[ntfn.hash].height == ntfn.height)
    }

    method HandleNotification(ntfn: Notification) returns (err: Option<SyncError>)
      requires Valid() && ProperNotification(ntfn)
      modifies this, rpc
      ensures Valid() && old(log) <= log
      ensures rpc.failures >= old(rpc.failures)
      ensures err.None? ==> rpc.failures == old(rpc.failures) && HandledAs(rpc.node, old(Tip()), ntfn, Tip())
      ensures err.Some? ==> FailedOn(rpc.node, old(Tip()), ntfn, rpc.failures > old(rpc.failures))
    {
      hide OnChain, Follows, ValidLog, ForkPoint, StepsUp, ValidNode, ReorgOutcome, Translation, Processable,
        SwitchRefused;
      ValidTip();
      TipIs(rpc.node, db, Tip(), Moves());
      match ntfn {
        case BlockConnected(hash, height) => err := HandleBlockConnected(hash, height);
        case BlockDisconnected(hash, height) => err := HandleBlockDisconnected(hash, height);
      }
    }

    /**
     * Handles notifications in order until one fails; handled counts those that did not, and tips are the tips before,
     * between and after them.
     */
    method HandleNotifications(ntfns: seq<Notification>) returns (handled: nat, ghost tips: seq<Hash>)
      requires Valid() && forall i | 0 <= i < |ntfns| :: ProperNotification(ntfns[i])
      modifies this, rpc
      ensures handled <= |ntfns|
      ensures Valid() && old(log) <= log
      ensures forall i | 0 <= i < |log| ::
                OnChain(rpc.node, log[i].db, log[i].tip, log[i].moves) && Consistent(log[i].db)
      ensures |tips| == handled + 1 && tips[0] == old(Tip())
      ensures forall i | 0 <= i < handled :: HandledAs(rpc.node, tips[i], ntfns[i], tips[i + 1])
      ensures handled == |ntfns| ==> Tip() == tips[handled] && rpc.failures == old(rpc.failures)
      ensures handled < |ntfns| ==>
                FailedOn(rpc.node, tips[handled], ntfns[handled], rpc.failures > old(rpc.failures))
    {
      hide *;
      handled, tips := 0, [Tip()];
      var err: Option<SyncError> := None;
      while handled < |ntfns| && err.None?
        invariant handled <= |ntfns| && Valid() && old(log) <= log
        invariant err.Some? ==> handled < |ntfns|
        invariant |tips| == handled + 1 && tips[0] == old(Tip())
        invariant forall i | 0 <= i < handled :: HandledAs(rpc.node, tips[i], ntfns[i], tips[i + 1])
        invariant err.None? ==> Tip() == tips[handled] && rpc.failures == old(rpc.failures)
        invariant err.Some? ==>
                    FailedOn(rpc.node, tips[handled], ntfns[handled], rpc.failures > old(rpc.failures))
        decreases |ntfns| - handled, err.None?
      {
        err := HandleNotification(ntfns[handled]);
        if err.None? {
          handled, tips := handled + 1, tips + [Tip()];
        }
      }
      CommittedStates();
    }

    lemma CommittedStates()
      requires Valid()
      ensures forall i | 0 <= i < |log| ::
                OnChain(rpc.node, log[i].db, log[i].tip, log[i].moves) && Consistent(log[i].db)
    {
      LogStates(rpc.node, log, db);
    }
  }

  /**
   * Switching from tip t to block h cannot succeed: h is unknown or genesis, the first block would have to be rolled
   * back, or some block of h's chain cannot be translated.
   */
  ghost predicate SwitchRefused(n: Node, t: Hash, h: Hash) {
    || h !in n.blocks
    || (&& InNode(n, h) && InNode(n, t)
        && (|| Height(n, h) == 0
            || Height(n, ForkPoint(n, t, Parent(n, h))) == 0 < Height(n, t)
            || !Processable(n, h)))
  }

  /** Following the blocks of next from block start, one switch is refused. */
  ghost predicate NextRefused(n: Node, start: Hash, next: seq<Hash>) {
    exists i: nat :: i < |next| && RefusedAt(n, start, next, i)
  }

  ghost predicate RefusedAt(n: Node, start: Hash, next: seq<Hash>, i: nat)
    requires i < |next|
  {
    SwitchRefused(n, if i > 0 then next[i - 1] else start, next[i])
  }

  lemma NextRefusedAt(n: Node, start: Hash, next: seq<Hash>, i: nat, failed: bool)
    requires i < |next| && (failed || SwitchRefused(n, if i > 0 then next[i - 1] else start, next[i]))
    ensures failed || NextRefused(n, start, next)
  {
    hide SwitchRefused;
    if !failed {
      assert RefusedAt(n, start, next, i);
    }
  }

  /** A failed reorganisation has a cause. */
  lemma ReorgFailed(n: Node, before: seq<Commit>, after: seq<Commit>, h: Hash, failed: bool)
    requires before != [] && InNode(n, h) && InNode(n, before[|before| - 1].tip)
    requires Height(n, h) > 0 ==>
               ReorgOutcome(n, before, after, ForkPoint(n, before[|before| - 1].tip, Parent(n, h)), h, false, failed)
    ensures failed || SwitchRefused(n, before[|before| - 1].tip, h)
  {
    hide Processable, ValidNode, StepsUp, ForkPoint, Dropped;
  }

  /** What a notification does to the tip. */
  ghost predicate HandledAs(n: Node, before: Hash, ntfn: Notification, after: Hash) {
    && InNode(n, before)
    && match ntfn
       case BlockConnected(hash, height) => after == if height >= Height(n, before) then hash else before
       case BlockDisconnected(hash, height) =>
         if before == hash && Height(n, before) > 0 then Height(n, before) > 1 && after == Parent(n, before)
         else after == before
  }

  /** Why a notification fails: a request did, the switch is refused, or the first block would have to go. */
  ghost predicate FailedOn(n: Node, before: Hash, ntfn: Notification, failed: bool) {
    && InNode(n, before)
    && match ntfn
       case BlockConnected(hash, height) => height >= Height(n, before) && (failed || SwitchRefused(n, before, hash))
       case BlockDisconnected(hash, height) =>
         before == hash && Height(n, before) > 0 && (failed || Height(n, before) == 1)
  }

  /** A disconnected block is the database's tip exactly if it is the tip of the chain and not genesis. */
  lemma TipIs(n: Node, db: Db, t: Hash, moves: seq<Move>)
    requires OnChain(n, db, t, moves)
    ensures InNode(n, t) && db.tipHeight == Height(n, t)
    ensures Height(n, t) > 0 ==> db.tipHash == t && n.blocks[t].height == Height(n, t)
    ensures Height(n, t) == 0 ==> db.tipHash == ZERO_HASH
  {
  }

  /** b connects one block to the state of a, or rolls back some blocks, in order, in one transaction. */
  ghost predicate Follows(n: Node, a: Commit, b: Commit) {
    && InNode(n, a.tip) && InNode(n, b.tip)
    && (|| (Height(n, b.tip) > 0 && a.tip == Parent(n, b.tip) && b.moves == a.moves + [Up(b.tip)])
        || (&& IsAncestor(n, b.tip, a.tip) && (Height(n, a.tip) > 0 ==> Height(n, b.tip) > 0)
            && b.moves == a.moves + Dropped(n, a.tip, Height(n, b.tip))))
  }

  lemma FollowsUp(n: Node, a: Commit, b: Commit)
    requires InNode(n, b.tip) && Height(n, b.tip) > 0 && a.tip == Parent(n, b.tip) && b.moves == a.moves + [Up(b.tip)]
    ensures Follows(n, a, b)
  {
  }

  lemma FollowsDown(n: Node, a: Commit, b: Commit)
    requires InNode(n, a.tip) && InNode(n, b.tip) && IsAncestor(n, b.tip, a.tip)
    requires Height(n, a.tip) > 0 ==> Height(n, b.tip) > 0
    requires b.moves == a.moves + Dropped(n, a.tip, Height(n, b.tip))
    ensures Follows(n, a, b)
  {
  }

  lemma FollowsOne(n: Node, a: Commit, b: Commit)
    requires InNode(n, a.tip) && Height(n, a.tip) > 1 && b.tip == Parent(n, a.tip) && b.moves == a.moves + [Down(a.tip)]
    ensures Follows(n, a, b)
  {
    AncestorSelf(n, a.tip);
    AncestorSelf(n, b.tip);
    NoneDropped(n, b.tip);
    assert Dropped(n, a.tip, Height(n, b.tip)) == [Down(a.tip)] + Dropped(n, b.tip, Height(n, b.tip));
  }

  lemma FollowsSame(n: Node, a: Commit, b: Commit)
    requires InNode(n, a.tip) && b.tip == a.tip && b.moves == a.moves
    ensures Follows(n, a, b)
  {
    AncestorSelf(n, a.tip);
    NoneDropped(n, a.tip);
    assert a.moves + [] == a.moves;
  }

  /** A block extends the tip exactly when its header says so; genesis, as a tip, has height 0. */
  lemma ExtendsTip(n: Node, h: Hash, t: Hash)
    requires InNode(n, h) && InNode(n, t)
    ensures Height(n, h) > 0 && Parent(n, h) == t <==>
            Height(n, t) == n.blocks[h].height - 1 && n.blocks[h].prevBlock == t
    ensures Height(n, t) == 0 ==> t == n.genesis
    ensures Height(n, t) > 0 ==> t != ZERO_HASH
  {
  }

  lemma ParentTarget(n: Node, h: Hash, t: Hash)
    requires InNode(n, h) && InNode(n, t)
    ensures Height(n, h) > 0 ==> Parent(n, h) == n.blocks[h].prevBlock
    ensures Height(n, h) > 0 ==> Height(n, Parent(n, h)) == (n.blocks[h].height - 1) % TWO_32
    ensures Height(n, h) == 0 ==> n.blocks[h].prevBlock !in n.blocks
    ensures Height(n, h) == 0 ==> Height(n, t) < (n.blocks[h].height - 1) % TWO_32
  {
  }

  /** From entry from on, every commit connects one block to the state of the commit before it. */
  ghost predicate StepsUp(n: Node, log: seq<Commit>, from: int) {
    forall k | 0 <= from < k < |log| ::
      && InNode(n, log[k].tip) && Height(n, log[k].tip) > 0 && log[k - 1].tip == Parent(n, log[k].tip)
      && log[k].moves == log[k - 1].moves + [Up(log[k].tip)]
  }

  lemma StepsUpFromLast(n: Node, log: seq<Commit>)
    ensures StepsUp(n, log, |log| - 1)
  {
  }

  lemma StepsUpSnoc(n: Node, log: seq<Commit>, from: int, c: Commit)
    requires StepsUp(n, log, from) && log != []
    requires InNode(n, c.tip) && Height(n, c.tip) > 0 && log[|log| - 1].tip == Parent(n, c.tip)
    requires c.moves == log[|log| - 1].moves + [Up(c.tip)]
    ensures StepsUp(n, log + [c], from)
  {
    hide ValidNode;
    var l := log + [c];
    forall k | 0 <= from < k < |l|
      ensures InNode(n, l[k].tip) && Height(n, l[k].tip) > 0 && l[k - 1].tip == Parent(n, l[k].tip)
      ensures l[k].moves == l[k - 1].moves + [Up(l[k].tip)]
    {
      assert l[k - 1] == log[k - 1] && l[k] == if k < |log| then log[k] else c;
    }
  }

  /**
   * Moving from the last commit of before to target goes to block f first, rolling back exactly the old chain's
   * blocks above f, then up block by block. Without a failed
   * request it succeeds exactly when that does not mean rolling back the first block and all of target's chain can
   * be translated.
   */
  ghost predicate ReorgOutcome(n: Node, before: seq<Commit>, after: seq<Commit>, f: Hash, target: Hash, ok: bool,
                               failed: bool) {
    && before != [] && before <= after
    && InNode(n, target) && InNode(n, f) && InNode(n, before[|before| - 1].tip)
    && var t := before[|before| - 1].tip;
    && (|after| > |before| ==>
          && after[|before|].tip == f && StepsUp(n, after, |before|)
          && after[|before|].moves == before[|before| - 1].moves + Dropped(n, t, Height(n, f)))
    && (ok ==> |after| > |before| && after[|after| - 1].tip == target)
    && (ok ==> (Height(n, t) > 0 ==> Height(n, f) > 0) && Processable(n, target))
    && (!ok ==> failed || Height(n, f) == 0 < Height(n, t) || !Processable(n, target))
  }

  lemma ReorgRefused(n: Node, log: seq<Commit>, f: Hash, target: Hash, failed: bool)
    requires log != [] && InNode(n, target) && InNode(n, f) && InNode(n, log[|log| - 1].tip)
    requires failed || Height(n, f) == 0 < Height(n, log[|log| - 1].tip)
    ensures ReorgOutcome(n, log, log, f, target, false, failed)
  {
  }

  lemma ReorgFromParts(n: Node, before: seq<Commit>, after: seq<Commit>, f: Hash, target: Hash, ok: bool, failed: bool)
    requires before != [] && before < after && after[|before|].tip == f && StepsUp(n, after, |before|)
    requires InNode(n, target) && InNode(n, f) && InNode(n, before[|before| - 1].tip)
    requires after[|before|].moves == before[|before| - 1].moves + Dropped(n, before[|before| - 1].tip, Height(n, f))
    requires Height(n, before[|before| - 1].tip) > 0 ==> Height(n, f) > 0
    requires ok ==> after[|after| - 1].tip == target && Processable(n, target)
    requires !ok ==> failed || !Processable(n, target)
    ensures ReorgOutcome(n, before, after, f, target, ok, failed)
  {
    hide Processable, ValidNode, StepsUp;
  }

  lemma ReorgReached(n: Node, before: seq<Commit>, after: seq<Commit>, f: Hash, target: Hash, failed: bool)
    requires ReorgOutcome(n, before, after, f, target, true, failed)
    ensures after != [] && after[|after| - 1].tip == target
  {
  }

  lemma FailedReorg(n: Node, before: seq<Commit>, after: seq<Commit>, f: Hash, h: Hash, failed: bool)
    requires InNode(n, h) && Height(n, h) > 0 && ReorgOutcome(n, before, after, f, Parent(n, h), false, failed)
    ensures ReorgOutcome(n, before, after, f, h, false, failed)
  {
    hide Translation, ValidNode;
  }

  /** Connecting h on top of its parent completes a reorganisation to that parent. */
  lemma ReorgThenConnect(n: Node, before: seq<Commit>, mid: seq<Commit>, after: seq<Commit>, f: Hash, h: Hash,
                         ok: bool, failedBefore: bool, failed: bool)
    requires InNode(n, h) && Height(n, h) > 0 && ReorgOutcome(n, before, mid, f, Parent(n, h), true, failedBefore)
    requires ok ==> |after| == |mid| + 1 && after[..|mid|] == mid && after[|mid|].tip == h
    requires ok ==> after[|mid|].moves == mid[|mid| - 1].moves + [Up(h)]
    requires ok ==> Translation(n, h).err.None?
    requires !ok ==> after == mid && (failed || Translation(n, h).err.Some?)
    ensures ReorgOutcome(n, before, after, f, h, ok, failed)
  {
    hide Translation, ValidNode;
    if ok {
      StepsUpSnoc(n, mid, |before|, after[|mid|]);
      assert after == mid + [after[|mid|]];
    }
  }
}
