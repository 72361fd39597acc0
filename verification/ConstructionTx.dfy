/** The binary format that carries an unsigned transaction and the outputs it spends between API calls. */
module ConstructionTx {
  import opened Prelude
  import opened Wire
  import opened Encoding

  /** The encoders of the wire package: transactions and variable-length integers. */
  datatype Codec = Codec(encodeTx: Tx -> Bytes, decodeTx: Bytes -> Option<(Tx, Bytes)>, txSize: Tx -> nat,
                         encodeVarInt: nat -> Bytes, decodeVarInt: Bytes -> Option<(nat, Bytes)>,
                             varIntSize: nat -> nat)

  /** Decoders undo encoders and leave what follows; sizes are what is written. */
  ghost predicate Lawful(c: Codec, tx: Tx) {
    && (forall rest :: c.decodeTx(c.encodeTx(tx) + rest) == Some((tx, rest)))
    && |c.encodeTx(tx)| == c.txSize(tx)
    && LawfulVarInts(c)
  }

  ghost predicate LawfulVarInts(c: Codec) {
    && (forall n: nat, rest | n < TWO_64 :: c.decodeVarInt(c.encodeVarInt(n) + rest) == Some((n, rest)))
    && (forall n: nat | n < TWO_64 :: |c.encodeVarInt(n)| == c.varIntSize(n))
  }

  datatype ConstructionTx = ConstructionTx(tx: Tx, prevOuts: map<OutPoint, PrevOutput>)

  datatype CtrError = WrongNbPrevOuts | PrevOutNotFound | InvalidVersionRead | InvalidVersion | InvalidTx |
      UnexpectedEnd
                      | AllocationPanics

  /** The longest slice the runtime can allocate; asking for a longer one panics. */
  const MAX_ALLOC: nat := 0x1_0000_0000_0000

  /** Values fit the integer types of the source. */
  ghost predicate Fits(t: ConstructionTx) {
    && |t.tx.ins| < TWO_64
    && forall o | o in t.prevOuts ::
         -TWO_63 <= t.prevOuts[o].amount < TWO_63 && |t.prevOuts[o].pkScript| <= MAX_ALLOC
  }

  /** What the source's types hold fits: 64-bit amounts, slices of up to 2^48 bytes. */
  lemma TypesFit(t: ConstructionTx)
    requires |t.tx.ins| < 0x1_0000_0000_0000_0000
    requires forall o | o in t.prevOuts ::
               && -0x8000_0000_0000_0000 <= t.prevOuts[o].amount < 0x8000_0000_0000_0000
               && |t.prevOuts[o].pkScript| <= 0x1_0000_0000_0000
    ensures Fits(t)
  {
  }

  /** The checks serialize makes before writing. */
  predicate Accepts(t: ConstructionTx) {
    && |t.tx.ins| == |t.prevOuts|
    && forall i | 0 <= i < |t.tx.ins| :: t.tx.ins[i].prevOut in t.prevOuts
  }

  ghost predicate DistinctInputs(tx: Tx) {
    DistinctUpTo(tx, |tx.ins|)
  }

  function AmountBytes(x: int): (r: Bytes)
    ensures |r| == 8
  {
    LittleEndian(if x < 0 then (x + TWO_64) % TWO_64 else x % TWO_64, 8)
  }

  function Record(c: Codec, p: PrevOutput): Bytes {
    AmountBytes(p.amount) + LittleEndian(p.version, 2) + c.encodeVarInt(|p.pkScript|) + p.pkScript
  }

  function RecordSize(c: Codec, p: PrevOutput): nat {
    8 + 2 + c.varIntSize(|p.pkScript|) + |p.pkScript|
  }

  /** The records of the first n inputs, in input order. */
  function Records(c: Codec, t: ConstructionTx, n: nat): Bytes
    requires Accepts(t) && n <= |t.tx.ins|
  {
    if n == 0 then [] else Records(c, t, n - 1) + Record(c, t.prevOuts[t.tx.ins[n - 1].prevOut])
  }

  function Serialized(c: Codec, t: ConstructionTx): Bytes
    requires Accepts(t)
  {
    [1] + c.encodeTx(t.tx) + c.encodeVarInt(|t.prevOuts|) + Records(c, t, |t.tx.ins|)
  }

  /** The size computed before writing, over the map of previous outputs in any order. */
  method SerializedSize(c: Codec, t: ConstructionTx) returns (size: nat)
    ensures size == 1 + c.txSize(t.tx) + c.varIntSize(|t.prevOuts|) + Sum(Sizes(c, t.prevOuts))
  {
    size := 1 + c.txSize(t.tx) + c.varIntSize(|t.prevOuts|);
    var pending := t.prevOuts.Keys;
    ghost var done := map[];
    ghost var base := size;
    while pending != {}
      invariant pending <= t.prevOuts.Keys && done == t.prevOuts - pending
      invariant size == base + Sum(Sizes(c, done))
      decreases |pending|
    {
      var o :| o in pending;
      pending := pending - {o};
      SizesGrow(c, done, o, t.prevOuts[o]);
      done := done[o := t.prevOuts[o]];
      size := size + RecordSize(c, t.prevOuts[o]);
    }
    assert done == t.prevOuts;
  }

  ghost function Sizes(c: Codec, prevOuts: map<OutPoint, PrevOutput>): map<OutPoint, int> {
    map o | o in prevOuts :: RecordSize(c, prevOuts[o])
  }

  method Serialize(c: Codec, t: ConstructionTx) returns (r: Result<Bytes, CtrError>, size: nat)
    requires Lawful(c, t.tx) && Fits(t)
    ensures r.Ok? <==> Accepts(t)
    ensures r.Err? ==> r.error == if |t.tx.ins| != |t.prevOuts| then WrongNbPrevOuts else PrevOutNotFound
    ensures r.Ok? ==> r.value == Serialized(c, t)
    ensures r.Ok? && DistinctInputs(t.tx) ==> size == |r.value|
  {
    hide DistinctInputs, Records, LawfulVarInts, Fits;
    size := 0;
    if |t.tx.ins| != |t.prevOuts| {
      return Err(WrongNbPrevOuts), size;
    }
    for i := 0 to |t.tx.ins|
      invariant forall j | 0 <= j < i :: t.tx.ins[j].prevOut in t.prevOuts
    {
      if t.tx.ins[i].prevOut !in t.prevOuts {
        return Err(PrevOutNotFound), size;
      }
    }
    size := SerializedSize(c, t);
    var b: Bytes := [1];
    b := b + c.encodeTx(t.tx);
    b := b + c.encodeVarInt(|t.prevOuts|);
    b := WriteRecords(c, t, b);
    if DistinctInputs(t.tx) {
      SizeIsExact(c, t);
    }
    r := Ok(b);
  }

  /** Appends the records of all inputs to a buffer. */
  method WriteRecords(c: Codec, t: ConstructionTx, header: Bytes) returns (b: Bytes)
    requires Accepts(t)
    ensures b == header + Records(c, t, |t.tx.ins|)
  {
    hide AmountBytes, LittleEndian;
    b := header;
    for i := 0 to |t.tx.ins|
      invariant b == header + Records(c, t, i)
    {
      var p := t.prevOuts[t.tx.ins[i].prevOut];
      RecordAppends(c, p, b);
      AppendAssociates(header, Records(c, t, i), Record(c, p));
      b := b + AmountBytes(p.amount);
      b := b + LittleEndian(p.version, 2);
      b := b + c.encodeVarInt(|p.pkScript|);
      b := b + p.pkScript;
    }
  }

  /** The layout of a record: amount and version least significant byte first, then the script's length and bytes. */
  lemma RecordLayout(c: Codec, p: PrevOutput)
    requires -0x8000_0000_0000_0000 <= p.amount < 0x8000_0000_0000_0000
    ensures var r := Record(c, p);
            var amount := if p.amount < 0 then p.amount + 0x1_0000_0000_0000_0000 else p.amount;
            && |r| >= 10
            && (forall i | 0 <= i < 8 :: r[i] as int == amount / Pow256(i) % 256)
            && r[8] as int == p.version % 256 && r[9] as int == p.version / 256 % 256
            && r[10..] == c.encodeVarInt(|p.pkScript|) + p.pkScript
  {
    hide LittleEndian;
    var amount := if p.amount < 0 then p.amount + 0x1_0000_0000_0000_0000 else p.amount;
    SmallRemainder(amount, 0x1_0000_0000_0000_0000);
    forall i | 0 <= i < 8 ensures AmountBytes(p.amount)[i] as int == amount / Pow256(i) % 256 {
      LittleEndianAt(amount, 8, i);
    }
    LittleEndianAt(p.version, 2, 0);
    LittleEndianAt(p.version, 2, 1);
    Widths();
  }

  lemma RecordAppends(c: Codec, p: PrevOutput, b: Bytes)
    ensures b + AmountBytes(p.amount) + LittleEndian(p.version, 2) + c.encodeVarInt(|p.pkScript|) + p.pkScript ==
            b + Record(c, p)
  {
    hide AmountBytes, LittleEndian;
  }

  /* ----- Reading ----- */

  /** Reads one previous output; the script's space is allocated before it is known to be there. */
  function ReadRecord(c: Codec, b: Bytes): Result<(PrevOutput, Bytes), CtrError> {
    if |b| < 8 then Err(UnexpectedEnd) else
      var amount := ToInt64(FromLittleEndian(b[..8]));
      var b := b[8..];
      if |b| < 2 then Err(UnexpectedEnd) else
        var version := (Widths(); FromLittleEndian(b[..2]));
        match c.decodeVarInt(b[2..])
        case None => Err(UnexpectedEnd)
        case Some((n, b)) =>
          if n > MAX_ALLOC then Err(AllocationPanics)
          else if |b| < n then Err(UnexpectedEnd)
          else Ok((PrevOutput(b[..n], version, amount), b[n..]))
  }

  /** Reads the previous outputs of the inputs from i on. */
  function ReadRecords(c: Codec, tx: Tx, i: nat, b: Bytes, read: map<OutPoint, PrevOutput>)
    : Result<map<OutPoint, PrevOutput>, CtrError>
    requires i <= |tx.ins|
    decreases |tx.ins| - i
  {
    if i == |tx.ins| then Ok(read) else
      match ReadRecord(c, b)
      case Err(e) => Err(e)
      case Ok((p, rest)) => ReadRecords(c, tx, i + 1, rest, read[tx.ins[i].prevOut := p])
  }

  /* ----- The layout of the bytes, independent of the reading functions ----- */

  /** What follows one well-formed record: 8 bytes of amount, 2 of version, a length and that many bytes of script. */
  function AfterRecord(c: Codec, b: Bytes): Option<Bytes> {
    if |b| < 10 then None else
      match c.decodeVarInt(b[10..])
      case None => None
      case Some((n, rest)) => if n <= 0x1_0000_0000_0000 && n <= |rest| then Some(rest[n..]) else None
  }

  function AfterRecords(c: Codec, b: Bytes, k: nat): Option<Bytes>
    decreases k
  {
    if k == 0 then Some(b) else
      match AfterRecord(c, b)
      case None => None
      case Some(rest) => AfterRecords(c, rest, k - 1)
  }

  /** A record announces a script that no slice can hold. */
  predicate Oversized(c: Codec, b: Bytes) {
    |b| >= 10 &&
    match c.decodeVarInt(b[10..])
    case None => false
    case Some((n, _)) => n > 0x1_0000_0000_0000
  }

  /** The bytes end within a record. */
  predicate Truncated(c: Codec, b: Bytes) {
    || |b| < 10
    || match c.decodeVarInt(b[10..])
       case None => true
       case Some((n, rest)) => n <= 0x1_0000_0000_0000 && |rest| < n
  }

  /** Some record among the first count ones is cut short, or announces too long a script. */
  ghost predicate CutShort(c: Codec, b: Bytes, count: nat) {
    exists k: nat :: k < count && AfterRecords(c, b, k).Some? && Truncated(c, AfterRecords(c, b, k).value)
  }

  ghost predicate Overlong(c: Codec, b: Bytes, count: nat) {
    exists k: nat :: k < count && AfterRecords(c, b, k).Some? && Oversized(c, AfterRecords(c, b, k).value)
  }

  lemma ReadRecordIs(c: Codec, b: Bytes)
    ensures ReadRecord(c, b).Ok? <==> AfterRecord(c, b).Some?
    ensures ReadRecord(c, b).Ok? ==> ReadRecord(c, b).value.1 == AfterRecord(c, b).value
    ensures ReadRecord(c, b) == Err(UnexpectedEnd) <==> Truncated(c, b)
    ensures ReadRecord(c, b) == Err(AllocationPanics) <==> Oversized(c, b)
  {
    assert |b| >= 10 ==> b[8..][2..] == b[10..];
  }

  lemma OverFirst(c: Codec, b: Bytes, count: nat)
    requires count > 0
    ensures CutShort(c, b, count) <==>
            Truncated(c, b) || (AfterRecord(c, b).Some? && CutShort(c, AfterRecord(c, b).value, count - 1))
    ensures Overlong(c, b, count) <==>
            Oversized(c, b) || (AfterRecord(c, b).Some? && Overlong(c, AfterRecord(c, b).value, count - 1))
  {
    hide Truncated, Oversized, AfterRecord;
    assert AfterRecords(c, b, 0) == Some(b);
    if AfterRecord(c, b).Some? {
      var rest := AfterRecord(c, b).value;
      assert forall k: nat :: AfterRecords(c, b, k + 1) == AfterRecords(c, rest, k);
      if k: nat :| k < count && AfterRecords(c, b, k).Some? && Truncated(c, AfterRecords(c, b, k).value) {
        assert k > 0 ==> AfterRecords(c, rest, k - 1) == AfterRecords(c, b, k);
      }
      if k: nat :| k < count && AfterRecords(c, b, k).Some? && Oversized(c, AfterRecords(c, b, k).value) {
        assert k > 0 ==> AfterRecords(c, rest, k - 1) == AfterRecords(c, b, k);
      }
      if k: nat :| k < count - 1 && AfterRecords(c, rest, k).Some? && Truncated(c, AfterRecords(c, rest, k).value) {
        assert AfterRecords(c, b, k + 1) == AfterRecords(c, rest, k);
      }
      if k: nat :| k < count - 1 && AfterRecords(c, rest, k).Some? && Oversized(c, AfterRecords(c, rest, k).value) {
        assert AfterRecords(c, b, k + 1) == AfterRecords(c, rest, k);
      }
    }
  }

  /** Reading records fails with the first one that is cut short or too long, and only then. */
  lemma {:induction false} ReadRecordsIs(c: Codec, tx: Tx, i: nat, b: Bytes, read: map<OutPoint, PrevOutput>)
    requires i <= |tx.ins|
    ensures var r := ReadRecords(c, tx, i, b, read);
            && (r.Ok? <==> AfterRecords(c, b, |tx.ins| - i).Some?)
            && (r == Err(UnexpectedEnd) <==> CutShort(c, b, |tx.ins| - i))
            && (r == Err(AllocationPanics) <==> Overlong(c, b, |tx.ins| - i))
    decreases |tx.ins| - i
  {
    if i < |tx.ins| {
      hide ReadRecord, AfterRecord, Truncated, Oversized, CutShort, Overlong;
      ReadRecordIs(c, b);
      OverFirst(c, b, |tx.ins| - i);
      if AfterRecord(c, b).Some? {
        var p := ReadRecord(c, b).value.0;
        ReadRecordsIs(c, tx, i + 1, AfterRecord(c, b).value, read[tx.ins[i].prevOut := p]);
      }
    }
  }

  /** The version byte is right and a transaction follows. */
  predicate HasTx(c: Codec, bytes: Bytes) {
    |bytes| > 0 && bytes[0] == 1 && c.decodeTx(bytes[1..]).Some?
  }

  function TxOf(c: Codec, bytes: Bytes): (Tx, Bytes)
    requires HasTx(c, bytes)
  {
    c.decodeTx(bytes[1..]).value
  }

  /** A count follows the transaction. */
  predicate HasCount(c: Codec, bytes: Bytes) {
    HasTx(c, bytes) && c.decodeVarInt(TxOf(c, bytes).1).Some?
  }

  function CountOf(c: Codec, bytes: Bytes): (nat, Bytes)
    requires HasCount(c, bytes)
  {
    c.decodeVarInt(TxOf(c, bytes).1).value
  }

  /** The count is that of the inputs, and records should follow. */
  predicate HasRecords(c: Codec, bytes: Bytes) {
    HasCount(c, bytes) && CountOf(c, bytes).0 == |TxOf(c, bytes).0.ins|
  }

  lemma {:induction false} ReadRecordsErrors(c: Codec, tx: Tx, i: nat, b: Bytes, read: map<OutPoint, PrevOutput>)
    requires i <= |tx.ins|
    ensures var r := ReadRecords(c, tx, i, b, read);
            r.Err? ==> r.error == UnexpectedEnd || r.error == AllocationPanics
    decreases |tx.ins| - i
  {
    if i < |tx.ins| {
      hide AfterRecord, Truncated, Oversized;
      var r := ReadRecord(c, b);
      if r.Ok? {
        ReadRecordsErrors(c, tx, i + 1, r.value.1, read[tx.ins[i].prevOut := r.value.0]);
      }
    }
  }

  /** Each outcome of reading, by the layout of the bytes alone. */
  method Deserialize(c: Codec, bytes: Bytes) returns (r: Result<ConstructionTx, CtrError>)
    ensures r == Deserialized(c, bytes)
    ensures r == Err(InvalidVersionRead) <==> bytes == []
    ensures r == Err(InvalidVersion) <==> |bytes| > 0 && bytes[0] != 1
    ensures r == Err(InvalidTx) <==> |bytes| > 0 && bytes[0] == 1 && c.decodeTx(bytes[1..]).None?
    ensures r == Err(WrongNbPrevOuts) <==> HasCount(c, bytes) && CountOf(c, bytes).0 != |TxOf(c, bytes).0.ins|
    ensures r == Err(UnexpectedEnd) <==>
            || (HasTx(c, bytes) && c.decodeVarInt(TxOf(c, bytes).1).None?)
            || (HasRecords(c, bytes) && CutShort(c, CountOf(c, bytes).1, CountOf(c, bytes).0))
    ensures r == Err(AllocationPanics) <==>
            HasRecords(c, bytes) && Overlong(c, CountOf(c, bytes).1, CountOf(c, bytes).0)
    ensures r.Ok? <==> HasRecords(c, bytes) && AfterRecords(c, CountOf(c, bytes).1, CountOf(c, bytes).0).Some?
    ensures r.Ok? ==> r.value.tx == TxOf(c, bytes).0
  {
    hide ReadRecord, AfterRecord, AfterRecords, CutShort, Overlong, Truncated, Oversized;
    if |bytes| == 0 {
      return Err(InvalidVersionRead);
    }
    if bytes[0] != 1 {
      return Err(InvalidVersion);
    }
    var decoded := c.decodeTx(bytes[1..]);
    if decoded.None? {
      return Err(InvalidTx);
    }
    var tx, b := decoded.value.0, decoded.value.1;
    var nb := c.decodeVarInt(b);
    if nb.None? {
      return Err(UnexpectedEnd);
    }
    if nb.value.0 != |tx.ins| {
      return Err(WrongNbPrevOuts);
    }
    b := nb.value.1;
    var prevOuts: map<OutPoint, PrevOutput> := map[];
    ghost var all := ReadRecords(c, tx, 0, b, prevOuts);
    ReadRecordsErrors(c, tx, 0, b, prevOuts);
    ReadRecordsIs(c, tx, 0, b, prevOuts);
    for i := 0 to |tx.ins|
      invariant ReadRecords(c, tx, i, b, prevOuts) == all
    {
      var p := ReadRecord(c, b);
      if p.Err? {
        return Err(p.error);
      }
      prevOuts := prevOuts[tx.ins[i].prevOut := p.value.0];
      b := p.value.1;
    }
    r := Ok(ConstructionTx(tx, prevOuts));
  }

  function Deserialized(c: Codec, bytes: Bytes): Result<ConstructionTx, CtrError> {
    if |bytes| == 0 then Err(InvalidVersionRead)
    else if bytes[0] != 1 then Err(InvalidVersion)
    else
      match c.decodeTx(bytes[1..])
      case None => Err(InvalidTx)
      case Some((tx, b)) =>
        match c.decodeVarInt(b)
        case None => Err(UnexpectedEnd)
        case Some((nb, b)) =>
          if nb != |tx.ins| then Err(WrongNbPrevOuts)
          else
            match ReadRecords(c, tx, 0, b, map[])
            case Err(e) => Err(e)
            case Ok(prevOuts) => Ok(ConstructionTx(tx, prevOuts))
  }

  /* ----- Round trip ----- */

  lemma AmountRoundTrip(x: int)
    requires -TWO_63 <= x < TWO_63
    ensures ToInt64(FromLittleEndian(AmountBytes(x))) == x
  {
    Widths();
    LittleEndianRoundTrip(if x < 0 then (x + TWO_64) % TWO_64 else x % TWO_64, 8);
  }

  lemma RecordRoundTrip(c: Codec, p: PrevOutput, rest: Bytes)
    requires LawfulVarInts(c) && -TWO_63 <= p.amount < TWO_63 && |p.pkScript| <= MAX_ALLOC
    ensures ReadRecord(c, Record(c, p) + rest) == Ok((p, rest))
  {
    hide AmountBytes, LittleEndian, FromLittleEndian;
    var b := Record(c, p) + rest;
    var n := c.encodeVarInt(|p.pkScript|);
    assert b[..8] == AmountBytes(p.amount);
    AmountRoundTrip(p.amount);
    assert b[8..][..2] == LittleEndian(p.version, 2);
    Widths();
    LittleEndianRoundTrip(p.version, 2);
    assert b[8..][2..] == n + (p.pkScript + rest);
    assert (p.pkScript + rest)[..|p.pkScript|] == p.pkScript;
    assert (p.pkScript + rest)[|p.pkScript|..] == rest;
  }

  /**
   * A record is read back if its script has up to 2^48 bytes, the longest slice there can be; announcing a longer
   * script panics, whatever follows.
   */
  lemma ScriptLimit(c: Codec, p: PrevOutput, n: nat, rest: Bytes)
    requires LawfulVarInts(c) && -0x8000_0000_0000_0000 <= p.amount < 0x8000_0000_0000_0000 && n < TWO_64
    ensures |p.pkScript| <= 0x1_0000_0000_0000 ==> ReadRecord(c, Record(c, p) + rest) == Ok((p, rest))
    ensures n > 0x1_0000_0000_0000 ==>
              ReadRecord(c, AmountBytes(p.amount) + LittleEndian(p.version, 2) + c.encodeVarInt(n) + rest) ==
              Err(AllocationPanics)
  {
    if |p.pkScript| <= 0x1_0000_0000_0000 {
      RecordRoundTrip(c, p, rest);
    }
    hide AmountBytes, LittleEndian;
    var b := AmountBytes(p.amount) + LittleEndian(p.version, 2) + c.encodeVarInt(n) + rest;
    assert b[8..][2..] == c.encodeVarInt(n) + rest;
  }

  /** The records of the inputs from i on. */
  function RecordsFrom(c: Codec, t: ConstructionTx, i: nat): Bytes
    requires Accepts(t) && i <= |t.tx.ins|
    decreases |t.tx.ins| - i
  {
    if i == |t.tx.ins| then [] else Record(c, t.prevOuts[t.tx.ins[i].prevOut]) + RecordsFrom(c, t, i + 1)
  }

  lemma {:induction false} RecordsSplit(c: Codec, t: ConstructionTx, i: nat)
    requires Accepts(t) && i <= |t.tx.ins|
    ensures Records(c, t, |t.tx.ins|) == Records(c, t, i) + RecordsFrom(c, t, i)
    decreases |t.tx.ins| - i
  {
    if i < |t.tx.ins| {
      RecordsSplit(c, t, i + 1);
    }
  }

  /** The previous outputs of the first n inputs. */
  ghost function OfInputs(t: ConstructionTx, n: nat): map<OutPoint, PrevOutput>
    requires Accepts(t) && n <= |t.tx.ins|
  {
    if n == 0 then map[]
    else OfInputs(t, n - 1)[t.tx.ins[n - 1].prevOut := t.prevOuts[t.tx.ins[n - 1].prevOut]]
  }

  lemma {:induction false} ReadRecordsBack(c: Codec, t: ConstructionTx, i: nat)
    requires Lawful(c, t.tx) && Fits(t) && Accepts(t) && i <= |t.tx.ins|
    ensures ReadRecords(c, t.tx, i, RecordsFrom(c, t, i), OfInputs(t, i)) == Ok(OfInputs(t, |t.tx.ins|))
    decreases |t.tx.ins| - i
  {
    if i < |t.tx.ins| {
      RecordRoundTrip(c, t.prevOuts[t.tx.ins[i].prevOut], RecordsFrom(c, t, i + 1));
      ReadRecordsBack(c, t, i + 1);
    }
  }

  /** Reading what was written gives the transaction back, with the previous outputs of exactly its inputs. */
  lemma SerializedReadsBack(c: Codec, t: ConstructionTx)
    requires Lawful(c, t.tx) && Fits(t) && Accepts(t)
    ensures Deserialized(c, Serialized(c, t)) == Ok(ConstructionTx(t.tx, OfInputs(t, |t.tx.ins|)))
  {
    var bytes := Serialized(c, t);
    var records := Records(c, t, |t.tx.ins|);
    var counted := c.encodeVarInt(|t.prevOuts|) + records;
    assert bytes[1..] == c.encodeTx(t.tx) + counted;
    assert c.decodeTx(bytes[1..]) == Some((t.tx, counted));
    assert c.decodeVarInt(counted) == Some((|t.prevOuts|, records));
    RecordsSplit(c, t, 0);
    assert records == RecordsFrom(c, t, 0);
    ReadRecordsBack(c, t, 0);
  }

  /* ----- Which byte strings are accepted ----- */

  /** Decoders accept nothing but what encoders write. */
  ghost predicate Canonical(c: Codec) {
    && (forall b, tx, rest :: c.decodeTx(b) == Some((tx, rest)) ==> b == c.encodeTx(tx) + rest)
    && (forall b, n, rest :: c.decodeVarInt(b) == Some((n, rest)) ==> b == c.encodeVarInt(n) + rest)
  }

  /** The records of a list of previous outputs. */
  function AllRecords(c: Codec, ps: seq<PrevOutput>): Bytes {
    if ps == [] then [] else Record(c, ps[0]) + AllRecords(c, ps[1..])
  }

  ghost predicate Allocatable(ps: seq<PrevOutput>) {
    forall i | 0 <= i < |ps| :: -TWO_63 <= ps[i].amount < TWO_63 && |ps[i].pkScript| <= MAX_ALLOC
  }

  /** The previous outputs ps of the inputs from i on, added to those read before; a later input wins. */
  function Collected(tx: Tx, i: nat, ps: seq<PrevOutput>, read: map<OutPoint, PrevOutput>): map<OutPoint, PrevOutput>
    requires i + |ps| <= |tx.ins|
    decreases |ps|
  {
    if ps == [] then read else Collected(tx, i + 1, ps[1..], read[tx.ins[i].prevOut := ps[0]])
  }

  /** The bytes are version, transaction, count and one record per input, followed by anything. */
  ghost predicate Written(c: Codec, bytes: Bytes, tx: Tx, ps: seq<PrevOutput>, rest: Bytes) {
    && |ps| == |tx.ins| && Allocatable(ps)
    && bytes == [1] + (c.encodeTx(tx) + (c.encodeVarInt(|ps|) + (AllRecords(c, ps) + rest)))
  }

  lemma AmountInverse(b: Bytes)
    requires |b| == 8
    ensures -TWO_63 <= ToInt64(FromLittleEndian(b)) < TWO_63 && AmountBytes(ToInt64(FromLittleEndian(b))) == b
  {
    hide LittleEndian, FromLittleEndian;
    Widths();
    LittleEndianInverse(b);
    AmountBytesOf(FromLittleEndian(b));
  }

  lemma AmountBytesOf(x: nat)
    requires x < TWO_64
    ensures -TWO_63 <= ToInt64(x) < TWO_63 && AmountBytes(ToInt64(x)) == LittleEndian(x, 8)
  {
    hide LittleEndian;
    SmallRemainder(x, TWO_64);
    if x >= TWO_63 {
      assert ToInt64(x) == x - TWO_64;
      assert AmountBytes(x - TWO_64) == LittleEndian(x % TWO_64, 8);
    }
  }

  lemma SmallRemainder(x: nat, m: nat)
    requires x < m
    ensures x % m == x
  {
  }

  lemma ReadRecordSound(c: Codec, b: Bytes)
    requires Canonical(c) && ReadRecord(c, b).Ok?
    ensures var (p, rest) := ReadRecord(c, b).value;
            && b == Record(c, p) + rest
            && -TWO_63 <= p.amount < TWO_63 && |p.pkScript| <= MAX_ALLOC
  {
    hide AmountBytes, LittleEndian, FromLittleEndian, ToInt64;
    var (p, rest) := ReadRecord(c, b).value;
    AmountInverse(b[..8]);
    LittleEndianInverse(b[8..][..2]);
    var more := c.decodeVarInt(b[8..][2..]).value.1;
    assert b[8..][2..] == c.encodeVarInt(|p.pkScript|) + more;
    assert more == p.pkScript + rest;
    assert b == b[..8] + b[8..][..2] + b[8..][2..];
    RecordAppends(c, p, []);
    assert b == AmountBytes(p.amount) + LittleEndian(p.version,
        2) + (c.encodeVarInt(|p.pkScript|) + (p.pkScript + rest));
  }

  lemma {:induction false} ReadRecordsSound(c: Codec, tx: Tx, i: nat, b: Bytes, read: map<OutPoint, PrevOutput>)
    returns (ps: seq<PrevOutput>, rest: Bytes)
    requires Canonical(c) && i <= |tx.ins| && ReadRecords(c, tx, i, b, read).Ok?
    ensures |ps| == |tx.ins| - i && Allocatable(ps) && b == AllRecords(c, ps) + rest
    ensures ReadRecords(c, tx, i, b, read).value == Collected(tx, i, ps, read)
    decreases |tx.ins| - i
  {
    if i == |tx.ins| {
      ps, rest := [], b;
    } else {
      hide ReadRecord, Record, Canonical;
      ReadRecordSound(c, b);
      var (p, more) := ReadRecord(c, b).value;
      var qs;
      qs, rest := ReadRecordsSound(c, tx, i + 1, more, read[tx.ins[i].prevOut := p]);
      ps := [p] + qs;
      assert ps[1..] == qs;
      AppendAssociates(Record(c, p), AllRecords(c, qs), rest);
    }
  }

  lemma {:induction false} ReadRecordsComplete(c: Codec, tx: Tx, i: nat, ps: seq<PrevOutput>, rest: Bytes,
                                               read: map<OutPoint, PrevOutput>)
    requires LawfulVarInts(c) && Allocatable(ps) && i + |ps| == |tx.ins|
    ensures ReadRecords(c, tx, i, AllRecords(c, ps) + rest, read) == Ok(Collected(tx, i, ps, read))
    decreases |ps|
  {
    if ps != [] {
      hide ReadRecord, Record, LawfulVarInts;
      var more := AllRecords(c, ps[1..]) + rest;
      RecordRoundTrip(c, ps[0], more);
      AppendAssociates(Record(c, ps[0]), AllRecords(c, ps[1..]), rest);
      ReadRecordsComplete(c, tx, i + 1, ps[1..], rest, read[tx.ins[i].prevOut := ps[0]]);
    }
  }

  /** Bytes written for a transaction and one previous output per input are accepted, with anything after them. */
  lemma WrittenIsAccepted(c: Codec, bytes: Bytes, tx: Tx, ps: seq<PrevOutput>, rest: Bytes)
    requires Lawful(c, tx) && |tx.ins| < TWO_64 && Written(c, bytes, tx, ps, rest)
    ensures Deserialized(c, bytes) == Ok(ConstructionTx(tx, Collected(tx, 0, ps, map[])))
  {
    hide ReadRecords, AllRecords;
    var records := AllRecords(c, ps) + rest;
    var counted := c.encodeVarInt(|ps|) + records;
    assert bytes[1..] == c.encodeTx(tx) + counted;
    assert c.decodeTx(bytes[1..]) == Some((tx, counted));
    assert c.decodeVarInt(counted) == Some((|ps|, records));
    ReadRecordsComplete(c, tx, 0, ps, rest, map[]);
  }

  /** Nothing else is accepted. */
  lemma AcceptedIsWritten(c: Codec, bytes: Bytes) returns (tx: Tx, ps: seq<PrevOutput>, rest: Bytes)
    requires Canonical(c) && Deserialized(c, bytes).Ok?
    ensures Written(c, bytes, tx, ps, rest)
    ensures Deserialized(c, bytes) == Ok(ConstructionTx(tx, Collected(tx, 0, ps, map[])))
  {
    hide ReadRecords, AllRecords;
    var decoded := c.decodeTx(bytes[1..]).value;
    tx := decoded.0;
    var counted := c.decodeVarInt(decoded.1).value;
    ps, rest := ReadRecordsSound(c, tx, 0, counted.1, map[]);
    assert bytes == [1] + bytes[1..];
  }

  /* ----- Pigeonhole ----- */

  ghost function InputSet(tx: Tx, n: nat): set<OutPoint>
    requires n <= |tx.ins|
  {
    set i | 0 <= i < n :: tx.ins[i].prevOut
  }

  ghost predicate DistinctUpTo(tx: Tx, n: nat)
    requires n <= |tx.ins|
  {
    forall i, j | 0 <= i < j < n :: tx.ins[i].prevOut != tx.ins[j].prevOut
  }

  lemma DistinctNext(tx: Tx, n: nat)
    requires n < |tx.ins|
    ensures DistinctUpTo(tx, n + 1) <==> DistinctUpTo(tx, n) && tx.ins[n].prevOut !in InputSet(tx, n)
    ensures InputSet(tx, n + 1) == InputSet(tx, n) + {tx.ins[n].prevOut}
  {
    var o := tx.ins[n].prevOut;
    if o in InputSet(tx, n) {
      var i :| 0 <= i < n && tx.ins[i].prevOut == o;
    }
    assert forall i | 0 <= i < n :: tx.ins[i].prevOut in InputSet(tx, n);
  }

  lemma {:induction false} InputSetSize(tx: Tx, n: nat)
    requires n <= |tx.ins|
    ensures |InputSet(tx, n)| <= n
    ensures |InputSet(tx, n)| == n <==> DistinctUpTo(tx, n)
  {
    if n > 0 {
      hide DistinctUpTo, InputSet;
      InputSetSize(tx, n - 1);
      DistinctNext(tx, n - 1);
      var o, s := tx.ins[n - 1].prevOut, InputSet(tx, n - 1);
      if o in s {
        assert s + {o} == s;
      }
    } else {
      assert InputSet(tx, 0) == {};
    }
  }

  lemma {:induction false} OfInputsIs(t: ConstructionTx, n: nat)
    requires Accepts(t) && n <= |t.tx.ins|
    ensures OfInputs(t, n).Keys == InputSet(t.tx, n) <= t.prevOuts.Keys
    ensures forall o | o in OfInputs(t, n) :: OfInputs(t, n)[o] == t.prevOuts[o]
  {
    if n > 0 {
      OfInputsIs(t, n - 1);
      assert InputSet(t.tx, n) == InputSet(t.tx, n - 1) + {t.tx.ins[n - 1].prevOut};
    }
  }

  lemma SubsetOfSameSize<T>(a: set<T>, b: set<T>)
    requires a <= b && |a| == |b|
    ensures a == b
  {
    assert b == a + (b - a);
    assert |b - a| == 0;
  }

  /** Accepted inputs are all previous outputs exactly when no input repeats another. */
  lemma OfInputsIsAll(t: ConstructionTx)
    requires Accepts(t)
    ensures OfInputs(t, |t.tx.ins|) == t.prevOuts <==> DistinctInputs(t.tx)
  {
    var n := |t.tx.ins|;
    OfInputsIs(t, n);
    InputSetSize(t.tx, n);
    if DistinctInputs(t.tx) {
      SubsetOfSameSize(InputSet(t.tx, n), t.prevOuts.Keys);
    }
  }

  /** The round trip holds for an accepted construction transaction if and only if its inputs are distinct. */
  lemma RoundTrip(c: Codec, t: ConstructionTx)
    requires Lawful(c, t.tx) && Fits(t) && Accepts(t)
    ensures Deserialized(c, Serialized(c, t)) == Ok(t) <==> DistinctInputs(t.tx)
  {
    SerializedReadsBack(c, t);
    OfInputsIsAll(t);
  }

  /** Two inputs that spend the same output, and previous outputs for it and for an unrelated one. */
  function Doubled(): ConstructionTx {
    var o, other := OutPoint(ZERO_HASH, 0, 0), OutPoint(ZERO_HASH, 1, 0);
    ConstructionTx(Tx(ZERO_HASH, Regular, [TxIn(o, 0), TxIn(o, 0)], []),
                   map[o := PrevOutput([], 0, 0), other := PrevOutput([], 0, 0)])
  }

  /** An accepted transaction with a repeated input does not survive: the unrelated previous output is lost. */
  lemma RepeatedInputLoses(c: Codec)
    requires Lawful(c, Doubled().tx)
    ensures Accepts(Doubled()) && !DistinctInputs(Doubled().tx)
    ensures Deserialized(c, Serialized(c, Doubled())) != Ok(Doubled())
  {
    var t := Doubled();
    assert t.prevOuts.Keys == {OutPoint(ZERO_HASH, 0, 0), OutPoint(ZERO_HASH, 1, 0)};
    assert t.tx.ins[0].prevOut == t.tx.ins[1].prevOut;
    RoundTrip(c, t);
  }

  lemma RecordLength(c: Codec, p: PrevOutput)
    requires LawfulVarInts(c) && |p.pkScript| < TWO_64
    ensures |Record(c, p)| == RecordSize(c, p)
  {
  }

  lemma SizesGrow(c: Codec, m: map<OutPoint, PrevOutput>, o: OutPoint, p: PrevOutput)
    requires o !in m
    ensures Sum(Sizes(c, m[o := p])) == Sum(Sizes(c, m)) + RecordSize(c, p)
  {
    SumWith(Sizes(c, m), o, RecordSize(c, p));
    assert Sizes(c, m[o := p]) == Sizes(c, m)[o := RecordSize(c, p)];
  }

  lemma InputIsNew(tx: Tx, n: nat)
    requires DistinctInputs(tx) && n < |tx.ins|
    ensures tx.ins[n].prevOut !in InputSet(tx, n)
  {
  }

  lemma RecordsStep(c: Codec, t: ConstructionTx, n: nat)
    requires Accepts(t) && 0 < n <= |t.tx.ins|
    ensures var o := t.tx.ins[n - 1].prevOut;
            && Records(c, t, n) == Records(c, t, n - 1) + Record(c, t.prevOuts[o])
            && OfInputs(t, n) == OfInputs(t, n - 1)[o := t.prevOuts[o]]
  {
  }

  lemma {:induction false} RecordsSize(c: Codec, t: ConstructionTx, n: nat)
    requires Lawful(c, t.tx) && Fits(t) && Accepts(t) && DistinctInputs(t.tx) && n <= |t.tx.ins|
    ensures |Records(c, t, n)| == Sum(Sizes(c, OfInputs(t, n)))
  {
    hide Record, Sizes, RecordSize, Sum, InputSet, DistinctInputs, LawfulVarInts, Records, OfInputs, Lawful;
    if n == 0 {
      NoRecords(c, t);
    } else {
      RecordsSize(c, t, n - 1);
      RecordsStep(c, t, n);
      var o := t.tx.ins[n - 1].prevOut;
      OfInputsIs(t, n - 1);
      InputIsNew(t.tx, n - 1);
      SizesGrow(c, OfInputs(t, n - 1), o, t.prevOuts[o]);
      LawfulMeans(c, t.tx);
      RecordLength(c, t.prevOuts[o]);
    }
  }

  lemma NoRecords(c: Codec, t: ConstructionTx)
    requires Accepts(t)
    ensures Records(c, t, 0) == [] && Sum(Sizes(c, OfInputs(t, 0))) == 0
  {
    assert Sizes(c, map[]) == map[];
  }

  lemma LawfulMeans(c: Codec, tx: Tx)
    requires Lawful(c, tx)
    ensures LawfulVarInts(c)
  {
  }

  /** For distinct inputs the precomputed size is the number of bytes written. */
  lemma SizeIsExact(c: Codec, t: ConstructionTx)
    requires Lawful(c, t.tx) && Fits(t) && Accepts(t) && DistinctInputs(t.tx)
    ensures |Serialized(c, t)| == 1 + c.txSize(t.tx) + c.varIntSize(|t.prevOuts|) + Sum(Sizes(c, t.prevOuts))
  {
    RecordsSize(c, t, |t.tx.ins|);
    OfInputsIsAll(t);
  }
}
