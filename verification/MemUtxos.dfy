/** The in-memory index of unspent outputs: three buckets per account and a per-transaction journal. */
module MemUtxos {
  import opened Prelude
  import opened Wire
  import opened BlockOps

  datatype Utxo = Utxo(outp: OutPoint, amt: int)

  type UtxoMap = map<OutPoint, int>

  /** The size from which on an account's outputs are kept in a map instead of a slice. */
  const FEW_UTXO_LIMIT := 12

  /* ----- Slices as maps ----- */

  /** Listing a slice lets later elements overwrite earlier ones. */
  function SliceMap(s: seq<Utxo>): UtxoMap {
    if s == [] then map[] else SliceMap(s[..|s| - 1])[s[|s| - 1].outp := s[|s| - 1].amt]
  }

  ghost predicate Distinct(s: seq<Utxo>) {
    forall i, j | 0 <= i < j < |s| :: s[i].outp != s[j].outp
  }

  ghost predicate Occurs(s: seq<Utxo>, o: OutPoint) {
    exists i :: 0 <= i < |s| && s[i].outp == o
  }

  lemma {:induction false} SliceMapKeys(s: seq<Utxo>, o: OutPoint)
    ensures o in SliceMap(s) <==> Occurs(s, o)
  {
    if s != [] {
      var front := s[..|s| - 1];
      SliceMapKeys(front, o);
      if Occurs(front, o) {
        var i :| 0 <= i < |front| && front[i].outp == o;
        assert s[i].outp == o;
      }
      if Occurs(s, o) && s[|s| - 1].outp != o {
        var i :| 0 <= i < |s| && s[i].outp == o;
        assert front[i].outp == o;
      }
      assert s[|s| - 1].outp == o ==> Occurs(s, o);
    }
  }

  lemma {:induction false} SliceMapAt(s: seq<Utxo>, i: nat)
    requires Distinct(s) && i < |s|
    ensures s[i].outp in SliceMap(s) && SliceMap(s)[s[i].outp] == s[i].amt
  {
    if i < |s| - 1 {
      SliceMapAt(s[..|s| - 1], i);
    }
  }

  lemma {:induction false} SliceMapSize(s: seq<Utxo>)
    requires Distinct(s)
    ensures |SliceMap(s)| == |s|
  {
    if s != [] {
      var front, u := s[..|s| - 1], s[|s| - 1];
      SliceMapSize(front);
      SliceMapKeys(front, u.outp);
      assert SliceMap(s).Keys == SliceMap(front).Keys + {u.outp};
    }
  }

  /** m is the map of a slice without repetitions. */
  lemma SliceMapIs(s: seq<Utxo>, m: UtxoMap)
    requires Distinct(s)
    requires forall i | 0 <= i < |s| :: s[i].outp in m && m[s[i].outp] == s[i].amt
    requires forall o | o in m :: Occurs(s, o)
    ensures SliceMap(s) == m
  {
    hide SliceMap, Distinct;
    forall o ensures o in SliceMap(s) <==> o in m {
      SliceMapKeys(s, o);
      if Occurs(s, o) {
        var i :| 0 <= i < |s| && s[i].outp == o;
      }
    }
    forall o | o in m ensures o in SliceMap(s) && SliceMap(s)[o] == m[o] {
      var i :| 0 <= i < |s| && s[i].outp == o;
      SliceMapAt(s, i);
    }
  }

  lemma SliceMapSnoc(s: seq<Utxo>, u: Utxo)
    ensures SliceMap(s + [u]) == SliceMap(s)[u.outp := u.amt]
    ensures Distinct(s + [u]) <==> Distinct(s) && u.outp !in SliceMap(s)
  {
    assert (s + [u])[..|s|] == s;
    SliceMapKeys(s, u.outp);
    if Distinct(s + [u]) {
      forall i, j | 0 <= i < j < |s| ensures s[i].outp != s[j].outp {
        assert (s + [u])[i].outp != (s + [u])[j].outp;
      }
      forall i | 0 <= i < |s| ensures s[i].outp != u.outp {
        assert (s + [u])[i].outp != (s + [u])[|s|].outp;
      }
    }
  }

  /** Removes the element at i by moving the last one into its place. */
  function SwapRemoveAt(s: seq<Utxo>, i: nat): seq<Utxo>
    requires i < |s|
  {
    s[i := s[|s| - 1]][..|s| - 1]
  }

  /** Where the scan for an outpoint stops: its first occurrence, or the length of the slice. */
  ghost predicate FirstAt(s: seq<Utxo>, o: OutPoint, i: nat) {
    && i <= |s|
    && (forall j | 0 <= j < i :: s[j].outp != o)
    && (i < |s| ==> s[i].outp == o)
  }

  /** Deletes one occurrence of an outpoint from a slice. */
  method SwapRemove(s: seq<Utxo>, o: OutPoint) returns (r: seq<Utxo>)
    ensures forall i: nat | FirstAt(s, o, i) :: r == if i < |s| then SwapRemoveAt(s, i) else s
  {
    var k := 0;
    while k < |s|
      invariant 0 <= k <= |s|
      invariant forall j | 0 <= j < k :: s[j].outp != o
    {
      if s[k].outp == o {
        r := s[k := s[|s| - 1]];
        r := r[..|s| - 1];
        return;
      }
      k := k + 1;
    }
    r := s;
  }

  function IndexOf(s: seq<Utxo>, o: OutPoint, from: nat := 0): (i: nat)
    requires from <= |s| && forall j | 0 <= j < from :: s[j].outp != o
    ensures FirstAt(s, o, i)
    decreases |s| - from
  {
    if from == |s| || s[from].outp == o then from else IndexOf(s, o, from + 1)
  }

  /** Without repetitions, swap-removal removes the outpoint and nothing else. */
  lemma SwapRemoveDistinct(s: seq<Utxo>, o: OutPoint, i: nat)
    requires Distinct(s) && FirstAt(s, o, i)
    ensures var r := if i < |s| then SwapRemoveAt(s, i) else s;
            Distinct(r) && |r| <= |s| && SliceMap(r) == SliceMap(s) - {o}
  {
    var r := if i < |s| then SwapRemoveAt(s, i) else s;
    var m := SliceMap(s) - {o};
    var n := |s| - 1;
    forall j | 0 <= j < |r| ensures r[j].outp in m && m[r[j].outp] == r[j].amt {
      var j' := if i < |s| && j == i then n else j;
      assert r[j] == s[j'];
      SliceMapAt(s, j');
      assert s[j'].outp != o;
    }
    forall p | p in m ensures Occurs(r, p) {
      SliceMapKeys(s, p);
      var j :| 0 <= j < |s| && s[j].outp == p;
      if i < |s| && j == n {
        assert r[i].outp == p;
      } else {
        assert r[j].outp == p;
      }
    }
    SliceMapIs(r, m);
  }

  ghost predicate Repeats(s: seq<Utxo>, o: OutPoint) {
    exists i, j :: 0 <= i < j < |s| && s[i].outp == o && s[j].outp == o
  }

  /** One deletion removes an outpoint from the listing exactly when the slice does not repeat it. */
  lemma SwapRemoveKeeps(s: seq<Utxo>, o: OutPoint, i: nat)
    requires FirstAt(s, o, i)
    ensures o in SliceMap(if i < |s| then SwapRemoveAt(s, i) else s) <==> Repeats(s, o)
  {
    hide SliceMap, SwapRemoveAt, Repeats;
    SliceMapKeys(if i < |s| then SwapRemoveAt(s, i) else s, o);
    if i < |s| {
      SwapRemoveOccurs(s, o, i);
    } else {
      NoOccurrence(s, o);
    }
  }

  lemma NoOccurrence(s: seq<Utxo>, o: OutPoint)
    requires forall j | 0 <= j < |s| :: s[j].outp != o
    ensures !Occurs(s, o) && !Repeats(s, o)
  {
  }

  lemma SwapRemoveOccurs(s: seq<Utxo>, o: OutPoint, i: nat)
    requires FirstAt(s, o, i) && i < |s|
    ensures Occurs(SwapRemoveAt(s, i), o) <==> Repeats(s, o)
  {
    var r := SwapRemoveAt(s, i);
    if Repeats(s, o) {
      var x, y :| 0 <= x < y < |s| && s[x].outp == o && s[y].outp == o;
      assert r[if y == |s| - 1 then i else y].outp == o;
    }
    if Occurs(r, o) {
      var k :| 0 <= k < |r| && r[k].outp == o;
      var k' := if k == i then |s| - 1 else k;
      assert s[k'].outp == o && i < k';
    }
  }

  lemma DistinctMeansNoRepeat(s: seq<Utxo>)
    ensures Distinct(s) <==> forall o :: !Repeats(s, o)
  {
    if !Distinct(s) {
      var i, j :| 0 <= i < j < |s| && s[i].outp == s[j].outp;
      assert Repeats(s, s[i].outp);
    }
  }

  /** Deleting one occurrence of o neither creates nor removes repetitions of another outpoint. */
  lemma SwapRemoveRepeats(s: seq<Utxo>, o: OutPoint, i: nat, p: OutPoint)
    requires FirstAt(s, o, i) && i < |s| && p != o
    ensures Repeats(SwapRemoveAt(s, i), p) <==> Repeats(s, p)
  {
    var r, n := SwapRemoveAt(s, i), |s| - 1;
    assert forall j | 0 <= j < n :: r[j] == s[if j == i then n else j];
    if Repeats(r, p) {
      var x, y :| 0 <= x < y < n && r[x].outp == p && r[y].outp == p;
      RepeatsAt(s, p, if x == i then n else x, if y == i then n else y);
    }
    if Repeats(s, p) {
      var x, y :| 0 <= x < y < |s| && s[x].outp == p && s[y].outp == p;
      RepeatsAt(r, p, if x == n then i else x, if y == n then i else y);
    }
  }

  lemma SwapRemoveLeaves(s: seq<Utxo>, o: OutPoint, i: nat, p: OutPoint)
    requires FirstAt(s, o, i) && i < |s| && p != o
    ensures Occurs(SwapRemoveAt(s, i), p) <==> Occurs(s, p)
  {
    var r, n := SwapRemoveAt(s, i), |s| - 1;
    assert forall j | 0 <= j < n :: r[j] == s[if j == i then n else j];
    if Occurs(s, p) {
      var x :| 0 <= x < |s| && s[x].outp == p;
      assert r[if x == n then i else x].outp == p;
    }
  }

  lemma RepeatsAt(s: seq<Utxo>, o: OutPoint, x: nat, y: nat)
    requires x < |s| && y < |s| && x != y && s[x].outp == o && s[y].outp == o
    ensures Repeats(s, o)
  {
    if y < x {
      assert s[y].outp == o && s[x].outp == o;
    }
  }

  lemma SwapRemoveSingle(s: seq<Utxo>, o: OutPoint, i: nat)
    requires FirstAt(s, o, i) && i < |s| && !Repeats(s, o)
    ensures !Repeats(SwapRemoveAt(s, i), o)
  {
    SwapRemoveOccurs(s, o, i);
  }

  /* ----- The buckets of one account ----- */

  datatype Buckets = Buckets(single: Option<Utxo>, few: Option<seq<Utxo>>, many: Option<UtxoMap>) {
    /** What ListUtxos reads from the three buckets. */
    function Stored(): UtxoMap {
      (if single.Some? then map[single.value.outp := single.value.amt] else map[]) +
      (if few.Some? then SliceMap(few.value) else map[]) +
      (if many.Some? then many.value else map[])
    }

    /** At most one bucket is used, and the slice is short. */
    ghost predicate OneBucket() {
      && (single.Some? ==> few.None? && many.None?)
      && (few.Some? ==> many.None? && |few.value| < FEW_UTXO_LIMIT)
    }

    /** Moreover, the slice is free of repetitions. */
    ghost predicate Valid() {
      OneBucket() && (few.Some? ==> Distinct(few.value))
    }

    /** Outpoint o occurs more than once in the slice. */
    ghost predicate Repeating(o: OutPoint) {
      few.Some? && Repeats(few.value, o)
    }

    lemma ValidMeansNoRepeat()
      ensures Valid() <==> OneBucket() && forall o :: !Repeating(o)
    {
      if few.Some? {
        DistinctMeansNoRepeat(few.value);
        assert forall o :: Repeating(o) <==> Repeats(few.value, o);
      } else {
        assert forall o :: !Repeating(o);
      }
    }

    /** after is what adding staged outputs makes of these buckets. */
    ghost predicate Added(after: Buckets, staged: UtxoMap) {
      && after.Stored() == Stored() + staged
      && after.OneBucket()
      && (after.Valid() <==> BecomesMany(staged) || staged.Keys !! Stored().Keys)
      && (forall o | after.Repeating(o) :: o in staged)
      && (after.many.Some? <==> BecomesMany(staged))
    }

    /** after is what deleting outputs that are not repeated makes of these buckets. */
    ghost predicate Removed(after: Buckets, dels: set<OutPoint>) {
      && after.OneBucket()
      && (forall o :: after.Repeating(o) <==> Repeating(o))
      && after.Stored().Keys == Stored().Keys - dels
      && (Valid() ==> after.Valid() && after.Stored() == Stored() - dels)
      && (after.many.Some? <==> many.Some?)
    }

    /** Outside of the map bucket, the size is that of the listing. */
    lemma SizeIs()
      requires Valid() && many.None?
      ensures Size() == |Stored()|
    {
      if few.Some? {
        SliceMapSize(few.value);
        assert Stored() == SliceMap(few.value);
      }
    }

    /** A commit that touches neither bucket of an account. */
    lemma Untouched()
      requires Valid()
      ensures Added(this, map[])
    {
      ValidMeansNoRepeat();
      assert Stored() + map[] == Stored();
    }

    lemma NothingRemoved()
      requires OneBucket()
      ensures Removed(this, {})
    {
      assert Stored() - {} == Stored();
    }

    /** Adding and then deleting other outputs lists the view; repetitions remain exactly if additions were not new. */
    lemma AddedThenRemoved(mid: Buckets, after: Buckets, staged: UtxoMap, dels: set<OutPoint>)
      requires Added(mid, staged) && mid.Removed(after, dels)
      ensures after.OneBucket() && after.Stored().Keys == (Stored() + staged - dels).Keys
      ensures after.Valid() <==> BecomesMany(staged) || staged.Keys !! Stored().Keys
      ensures after.Valid() ==> after.Stored() == Stored() + staged - dels
      ensures after.many.Some? <==> BecomesMany(staged)
    {
      hide Stored, OneBucket, Valid, Repeating, BecomesMany;
      mid.ValidMeansNoRepeat();
      after.ValidMeansNoRepeat();
    }

    function Size(): nat {
      (if single.Some? then 1 else 0) + if few.Some? then |few.value| else 0
    }

    /** Whether adding staged outputs puts the account into the map bucket. */
    predicate BecomesMany(staged: UtxoMap) {
      many.Some? || |staged| + Size() >= FEW_UTXO_LIMIT
    }
  }

  /** The index of unspent outputs of the database. */
  class Index {
    var singleUtxos: map<Account, Utxo>
    var fewUtxos: map<Account, seq<Utxo>>
    var utxos: map<Account, UtxoMap>

    constructor ()
      ensures Valid() && forall a :: At(a) == Buckets(None, None, None)
    {
      singleUtxos, fewUtxos, utxos := map[], map[], map[];
    }

    function At(a: Account): Buckets
      reads this
    {
      Buckets(if a in singleUtxos then Some(singleUtxos[a]) else None,
              if a in fewUtxos then Some(fewUtxos[a]) else None,
              if a in utxos then Some(utxos[a]) else None)
    }

    ghost predicate Valid()
      reads this
    {
      forall a :: At(a).Valid()
    }

    lemma AllUntouched(touched: set<Account>, tx: Journal)
      requires Valid() && touched == tx.utxos.Keys
      ensures forall a :: At(a).Valid()
      ensures forall a | a !in touched :: At(a).Added(At(a), tx.Staged(a))
    {
      hide Buckets.Added;
      forall a | a !in touched ensures At(a).Added(At(a), tx.Staged(a)) {
        At(a).Untouched();
      }
    }

    lemma NoneRemoved(tx: Journal)
      requires forall a :: At(a).OneBucket()
      ensures forall a | a !in tx.delUtxos :: At(a).Removed(At(a), tx.Deleted(a))
    {
      hide Buckets.Removed;
      forall a | a !in tx.delUtxos ensures At(a).Removed(At(a), tx.Deleted(a)) {
        At(a).NothingRemoved();
      }
    }

    /** Adds the staged outputs of an account; the slice stays free of repetitions iff none was stored already. */
    method CommitAdds(acct: Account, staged: UtxoMap)
      requires At(acct).Valid()
      modifies this
      ensures forall a | a != acct :: At(a) == old(At(a))
      ensures old(At(acct)).Added(At(acct), staged)
      ensures !old(At(acct)).BecomesMany(staged) ==>
                At(acct).many.None? && At(acct).Size() == old(At(acct).Size()) + |staged|
      ensures At(acct).many.Some? <==> old(At(acct)).many.Some? || |staged| + old(|At(acct).Stored()|) >= 12
      ensures At(acct).few.Some? ==> |At(acct).few.value| < 12
      ensures At(acct).single.Some? <==> old(At(acct)) == Buckets(None, None, None) && |staged| == 1
    {
      var b := At(acct);
      At(acct).ValidMeansNoRepeat();
      if b.many.None? {
        b.SizeIs();
      }
      if b.many.None? && b.few.None? && b.single.None? && |staged| == 1 {
        AddSingle(acct, staged);
      } else if b.many.None? && |staged| + b.Size() < FEW_UTXO_LIMIT {
        AddFew(acct, staged);
      } else {
        AddMany(acct, staged);
      }
    }

    /** The first output of an account nothing is stored for. */
    method AddSingle(acct: Account, staged: UtxoMap)
      requires |staged| == 1 && At(acct) == Buckets(None, None, None)
      modifies this
      ensures forall a | a != acct :: At(a) == old(At(a))
      ensures At(acct).Valid() && At(acct).Stored() == staged && At(acct).many.None? && At(acct).Size() == 1
      ensures At(acct).single.Some?
    {
      var o :| o in staged;
      assert |staged.Keys - {o}| == 0;
      assert staged.Keys == {o};
      assert staged == map[o := staged[o]];
      singleUtxos := singleUtxos[acct := Utxo(o, staged[o])];
    }

    /** Keeps all outputs of an account in a slice. */
    method AddFew(acct: Account, staged: UtxoMap)
      requires At(acct).Valid() && At(acct).many.None? && |staged| + At(acct).Size() < FEW_UTXO_LIMIT
      modifies this
      ensures forall a | a != acct :: At(a) == old(At(a))
      ensures At(acct).Stored() == old(At(acct).Stored()) + staged
      ensures At(acct).Valid() <==> staged.Keys !! old(At(acct).Stored()).Keys
      ensures At(acct).OneBucket() && At(acct).many.None? && At(acct).Size() == old(At(acct).Size()) + |staged|
      ensures At(acct).few.Some?
      ensures forall o | At(acct).Repeating(o) :: o in staged
    {
      hide SliceMap, Distinct, Buckets.Stored;
      var b := At(acct);
      var few := if b.few.Some? then b.few.value else [];
      if b.single.Some? {
        few := few + [b.single.value];
        singleUtxos := singleUtxos - {acct};
      }
      FewOf(b, few);
      DistinctMeansNoRepeat(few);
      few := AppendStaged(few, staged);
      fewUtxos := fewUtxos[acct := few];
      assert At(acct) == Buckets(None, Some(few), None);
      FewBuckets(few);
    }

    /** Moves an account's outputs to the map bucket. */
    method AddMany(acct: Account, staged: UtxoMap)
      requires At(acct).Valid()
      modifies this
      ensures forall a | a != acct :: At(a) == old(At(a))
      ensures At(acct).Valid() && At(acct).Stored() == old(At(acct).Stored()) + staged && At(acct).many.Some?
    {
      hide Distinct, SliceMap;
      var b := At(acct);
      var many: UtxoMap := if b.many.Some? then b.many.value else map[];
      if b.single.Some? {
        many := many[b.single.value.outp := b.single.value.amt];
        singleUtxos := singleUtxos - {acct};
      }
      if b.few.Some? {
        many := CopyFew(many, b.few.value);
        fewUtxos := fewUtxos - {acct};
      }
      utxos := utxos[acct := many + staged];
      assert many == b.Stored();
      assert At(acct) == Buckets(None, None, Some(many + staged));
    }

    /** Removes outputs of an account from whatever bucket holds them. */
    method CommitDels(acct: Account, dels: set<OutPoint>)
      requires At(acct).OneBucket() && forall o | o in dels :: !At(acct).Repeating(o)
      modifies this
      ensures forall a | a != acct :: At(a) == old(At(a))
      ensures old(At(acct)).Removed(At(acct), dels)
    {
      hide SliceMap, Distinct, Repeats, Buckets.Stored, Buckets.Repeating, Buckets.Valid, Buckets.OneBucket;
      var pending := dels;
      while pending != {}
        invariant pending <= dels
        invariant forall a | a != acct :: At(a) == old(At(a))
        invariant old(At(acct)).Removed(At(acct), dels - pending)
        decreases |pending|
      {
        var o :| o in pending;
        pending := pending - {o};
        CommitDel(acct, o);
      }
    }

    /** Deletes one output; it stays listed exactly when the account's slice repeated it. */
    method CommitDel(acct: Account, o: OutPoint)
      requires At(acct).OneBucket()
      modifies this
      ensures forall a | a != acct :: At(a) == old(At(a))
      ensures At(acct).OneBucket()
      ensures old(At(acct).Valid()) ==> At(acct).Valid() && At(acct).Stored() == old(At(acct).Stored()) - {o}
      ensures o in At(acct).Stored() <==> old(At(acct).Repeating(o))
      ensures forall p | p != o :: p in At(acct).Stored() <==> p in old(At(acct).Stored())
      ensures forall p | p != o || !old(At(acct).Repeating(o)) :: At(acct).Repeating(p) <==> old(At(acct).Repeating(p))
      ensures At(acct).many.Some? <==> old(At(acct)).many.Some?
    {
      hide SliceMap, SwapRemoveAt, Distinct, Repeats, FirstAt;
      ghost var b := At(acct);
      if acct in utxos {
        utxos := utxos[acct := utxos[acct] - {o}];
      }
      if acct in singleUtxos && singleUtxos[acct].outp == o {
        singleUtxos := singleUtxos - {acct};
      }
      if acct in fewUtxos {
        var s := fewUtxos[acct];
        var r := SwapRemove(s, o);
        ghost var i := IndexOf(s, o);
        if Distinct(s) {
          SwapRemoveDistinct(s, o, i);
        }
        SwapRemoveKeeps(s, o, i);
        SwapRemoveOthers(s, o, i, r);
        fewUtxos := fewUtxos[acct := r];
        FewBuckets(s);
        FewBuckets(r);
        assert At(acct) == Buckets(None, Some(r), None) && b == Buckets(None, Some(s), None);
      }
    }
  }

  lemma SwapRemoveOthers(s: seq<Utxo>, o: OutPoint, i: nat, r: seq<Utxo>)
    requires FirstAt(s, o, i) && r == if i < |s| then SwapRemoveAt(s, i) else s
    ensures forall p | p != o || !Repeats(s, o) :: Repeats(r, p) <==> Repeats(s, p)
    ensures forall p | p != o :: p in SliceMap(r) <==> p in SliceMap(s)
    ensures |r| <= |s|
  {
    forall p | p != o ensures p in SliceMap(r) <==> p in SliceMap(s) {
      SliceMapKeys(s, p);
      SliceMapKeys(r, p);
      if i < |s| {
        SwapRemoveLeaves(s, o, i, p);
      }
    }
    forall p | p != o || !Repeats(s, o) ensures Repeats(r, p) <==> Repeats(s, p) {
      if i < |s| {
        if p == o {
          SwapRemoveSingle(s, o, i);
        } else {
          SwapRemoveRepeats(s, o, i, p);
        }
      }
    }
  }

  lemma FewBuckets(few: seq<Utxo>)
    ensures Buckets(None, Some(few), None).Stored() == SliceMap(few)
  {
  }

  lemma FewOf(b: Buckets, few: seq<Utxo>)
    requires b.Valid() && b.many.None?
    requires few == (if b.few.Some? then b.few.value else []) + if b.single.Some? then [b.single.value] else []
    ensures SliceMap(few) == b.Stored() && Distinct(few) && |few| == b.Size()
  {
    if b.single.Some? {
      assert few == [b.single.value];
      SliceMapSnoc([], b.single.value);
      assert [] + [b.single.value] == [b.single.value];
    } else if b.few.Some? {
      assert few == b.few.value;
    }
  }

  lemma RepeatsSnoc(s: seq<Utxo>, u: Utxo)
    ensures forall o | Repeats(s + [u], o) :: Repeats(s, o) || o == u.outp
  {
    forall o | Repeats(s + [u], o) && o != u.outp ensures Repeats(s, o) {
      var i, j :| 0 <= i < j < |s + [u]| && (s + [u])[i].outp == o && (s + [u])[j].outp == o;
      assert s[i].outp == o && s[j].outp == o;
    }
  }

  /** Appends staged outputs to a slice in some order. */
  method AppendStaged(few: seq<Utxo>, staged: UtxoMap) returns (r: seq<Utxo>)
    ensures |r| == |few| + |staged|
    ensures AppendsTo(few, r, staged)
  {
    hide AppendsTo;
    r := few;
    var pending := staged.Keys;
    AppendsNothing(few);
    assert staged - pending == map[];
    while pending != {}
      invariant pending <= staged.Keys
      invariant |r| == |few| + |staged| - |pending|
      invariant AppendsTo(few, r, staged - pending)
      decreases |pending|
    {
      var o :| o in pending;
      AppendsToSnoc(few, r, staged - pending, o, staged[o]);
      assert (staged - pending)[o := staged[o]] == staged - (pending - {o});
      pending := pending - {o};
      r := r + [Utxo(o, staged[o])];
    }
    assert staged - pending == staged;
  }

  ghost predicate AppendsTo(few: seq<Utxo>, r: seq<Utxo>, added: UtxoMap) {
    && SliceMap(r) == SliceMap(few) + added
    && (Distinct(r) <==> Distinct(few) && added.Keys !! SliceMap(few).Keys)
    && (forall o | Repeats(r, o) :: Repeats(few, o) || o in added)
  }

  lemma AppendsNothing(few: seq<Utxo>)
    ensures AppendsTo(few, few, map[])
  {
    assert SliceMap(few) + map[] == SliceMap(few);
  }

  lemma AppendsToSnoc(few: seq<Utxo>, r: seq<Utxo>, added: UtxoMap, o: OutPoint, amt: int)
    requires AppendsTo(few, r, added) && o !in added
    ensures AppendsTo(few, r + [Utxo(o, amt)], added[o := amt])
  {
    hide SliceMap, Distinct, Repeats;
    SliceMapSnoc(r, Utxo(o, amt));
    RepeatsSnoc(r, Utxo(o, amt));
  }

  method CopyFew(many: UtxoMap, few: seq<Utxo>) returns (r: UtxoMap)
    ensures r == many + SliceMap(few)
  {
    r := many;
    for i := 0 to |few|
      invariant r == many + SliceMap(few[..i])
    {
      assert few[..i + 1][..i] == few[..i];
      r := r[few[i].outp := few[i].amt];
    }
    assert few[..|few|] == few;
  }

  /* ----- The journal of a transaction ----- */

  class Journal {
    var utxos: map<Account, UtxoMap>
    var delUtxos: map<Account, set<OutPoint>>

    constructor ()
      ensures Valid() && utxos == map[] && delUtxos == map[]
    {
      utxos, delUtxos := map[], map[];
    }

    function Staged(a: Account): UtxoMap
      reads this
    {
      if a in utxos then utxos[a] else map[]
    }

    function Deleted(a: Account): set<OutPoint>
      reads this
    {
      if a in delUtxos then delUtxos[a] else {}
    }

    lemma StagedIs(a: Account)
      ensures a in utxos ==> Staged(a) == utxos[a]
    {
    }

    lemma DeletedIs(a: Account)
      ensures a in delUtxos ==> Deleted(a) == delUtxos[a]
    {
    }

    /** No output is both staged and scheduled for deletion. */
    ghost predicate Valid()
      reads this
    {
      forall a, o :: o in Staged(a) ==> o !in Deleted(a)
    }

    /** The stored outputs of an account as this transaction has changed them. */
    function View(a: Account, stored: UtxoMap): UtxoMap
      reads this
    {
      stored + Staged(a) - Deleted(a)
    }

    method AddUtxo(acct: Account, o: OutPoint, amt: int)
      requires Valid()
      modifies this
      ensures Valid()
      ensures forall a, stored :: View(a, stored) == if a == acct then old(View(a,
          stored))[o := amt] else old(View(a, stored))
      ensures forall a :: Staged(a) == if a == acct then old(Staged(a))[o := amt] else old(Staged(a))
    {
      utxos := utxos[acct := Staged(acct)[o := amt]];
      if acct in delUtxos {
        delUtxos := delUtxos[acct := delUtxos[acct] - {o}];
      }
      forall a, p | p in Staged(a) ensures p !in Deleted(a) {
        if a == acct && p == o {
          assert o !in Deleted(a);
        } else {
          assert p in old(Staged(a)) && p !in old(Deleted(a));
        }
      }
    }

    method DelUtxo(acct: Account, o: OutPoint)
      requires Valid()
      modifies this
      ensures Valid()
      ensures forall a, stored :: View(a, stored) == if a == acct then old(View(a, stored)) - {o} else old(View(a,
          stored))
      ensures forall a :: Staged(a) == if a == acct then old(Staged(a)) - {o} else old(Staged(a))
    {
      if acct in utxos {
        utxos := utxos[acct := utxos[acct] - {o}];
      }
      delUtxos := delUtxos[acct := Deleted(acct) + {o}];
      forall a, p | p in Staged(a) ensures p !in Deleted(a) {
        assert p in old(Staged(a));
      }
    }
  }

  /** Lists an account's outputs as seen inside a transaction. */
  method ListUtxos(db: Index, tx: Journal, acct: Account) returns (res: UtxoMap)
    ensures res == tx.View(acct, db.At(acct).Stored())
  {
    res := map[];
    if acct in db.singleUtxos {
      res := res[db.singleUtxos[acct].outp := db.singleUtxos[acct].amt];
    }
    if acct in db.fewUtxos {
      res := CopyFew(res, db.fewUtxos[acct]);
    }
    if acct in db.utxos {
      res := res + db.utxos[acct];
    }
    res := res + tx.Staged(acct);
    res := res - tx.Deleted(acct);
  }

  /** Every staged output is new to its account, or the account's outputs end up in the map bucket. */
  ghost predicate AddsNew(db: Index, tx: Journal)
    reads db, tx
  {
    forall a :: db.At(a).BecomesMany(tx.Staged(a)) || tx.Staged(a).Keys !! db.At(a).Stored().Keys
  }

  /** First half of a commit: adds the staged outputs of all accounts. */
  method CommitAllAdds(db: Index, tx: Journal)
    requires db.Valid()
    modifies db
    ensures forall a :: old(db.At(a)).Added(db.At(a), tx.Staged(a))
  {
    hide *;
    db.AllUntouched(tx.utxos.Keys, tx);
    var pending := tx.utxos.Keys;
    while pending != {}
      invariant pending <= tx.utxos.Keys
      invariant forall a | a in pending :: db.At(a) == old(db.At(a))
      invariant forall a | a !in pending :: old(db.At(a)).Added(db.At(a), tx.Staged(a))
      decreases |pending|
    {
      var a :| a in pending;
      pending := pending - {a};
      tx.StagedIs(a);
      db.CommitAdds(a, tx.utxos[a]);
    }
  }

  /** Second half of a commit: removes the outputs scheduled for deletion. */
  method CommitAllDels(db: Index, tx: Journal)
    requires forall a :: db.At(a).OneBucket()
    requires forall a, o | o in tx.Deleted(a) :: !db.At(a).Repeating(o)
    modifies db
    ensures forall a :: old(db.At(a)).Removed(db.At(a), tx.Deleted(a))
  {
    hide *;
    db.NoneRemoved(tx);
    var pending := tx.delUtxos.Keys;
    while pending != {}
      invariant pending <= tx.delUtxos.Keys
      invariant forall a | a in pending :: db.At(a) == old(db.At(a))
      invariant forall a | a !in pending :: old(db.At(a)).Removed(db.At(a), tx.Deleted(a))
      decreases |pending|
    {
      var a :| a in pending;
      pending := pending - {a};
      tx.DeletedIs(a);
      db.CommitDels(a, tx.delUtxos[a]);
    }
  }

  /**
   * Committing lists, for every account, exactly the outpoints of the transaction's view. The index stays free of
   * repetitions if and only if the additions were new, and then the amounts are those of the view as well.
   */
  method Commit(db: Index, tx: Journal)
    requires db.Valid() && tx.Valid()
    modifies db
    ensures db.Valid() <==> old(AddsNew(db, tx))
    ensures forall a :: db.At(a).OneBucket()
    ensures forall a :: db.At(a).Stored().Keys == tx.View(a, old(db.At(a).Stored())).Keys
    ensures db.Valid() ==> forall a :: db.At(a).Stored() == tx.View(a, old(db.At(a).Stored()))
    ensures forall a :: db.At(a).many.Some? <==> old(db.At(a)).BecomesMany(tx.Staged(a))
  {
    hide Buckets.Stored, Buckets.OneBucket, Buckets.Repeating, Buckets.Valid, Buckets.Removed, Buckets.BecomesMany,
      Index.At, Journal.Staged, Journal.Deleted;
    CommitAllAdds(db, tx);
    label mid:
    forall a ensures db.At(a).OneBucket() && forall o | o in tx.Deleted(a) :: !db.At(a).Repeating(o) {
    }
    hide Buckets.Added;
    CommitAllDels(db, tx);
    forall a
      ensures db.At(a).OneBucket() && db.At(a).Stored().Keys == tx.View(a, old(db.At(a).Stored())).Keys
      ensures db.At(a).Valid() <==>
              old(db.At(a)).BecomesMany(tx.Staged(a)) || tx.Staged(a).Keys !! old(db.At(a).Stored()).Keys
      ensures db.At(a).Valid() ==> db.At(a).Stored() == tx.View(a, old(db.At(a).Stored()))
      ensures db.At(a).many.Some? <==> old(db.At(a)).BecomesMany(tx.Staged(a))
    {
      old(db.At(a)).AddedThenRemoved(old@mid(db.At(a)), db.At(a), tx.Staged(a), tx.Deleted(a));
    }
  }

  /** Adding an output, adding it again in a later transaction and deleting it in a third leaves it listed. */
  method ReaddedOutputSurvives(acct: Account, o: OutPoint, amt: int) returns (listed: UtxoMap)
    ensures o in listed
  {
    var db := new Index();
    var staged: UtxoMap := map[o := amt];
    assert |staged| == 1 && o in staged.Keys;
    db.CommitAdds(acct, staged);
    assert o in db.At(acct).Stored().Keys && db.At(acct).Size() == 1;
    db.CommitAdds(acct, staged);
    ghost var b := db.At(acct);
    TwoElements(b, o);
    db.CommitDel(acct, o);
    var tx := new Journal();
    listed := ListUtxos(db, tx, acct);
  }

  lemma TwoElements(b: Buckets, o: OutPoint)
    requires b.OneBucket() && !b.Valid() && b.Size() == 2 && b.Stored().Keys == {o}
    ensures b.few.Some? && Repeats(b.few.value, o)
  {
    var s := b.few.value;
    SliceMapKeys(s, s[0].outp);
    assert Occurs(s, s[0].outp);
    assert s[0].outp in b.Stored();
    assert s[0].outp == o && s[1].outp == o;
  }
}
