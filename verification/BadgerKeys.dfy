/** The byte keys of the Badger database: their families, their order and what prefix scans and seeks find. */
module BadgerKeys {
  import opened Prelude
  import opened Wire
  import opened BlockOps
  import opened Encoding

  /** The bytes of "act/", "pb/", "bac/", "autxos/" and "last-processed-block". */
  const BALANCES: Bytes := [97, 99, 116, 47]
  const PROCESSED: Bytes := [112, 98, 47]
  const BLOCK_ACCOUNTS: Bytes := [98, 97, 99, 47]
  const UTXOS: Bytes := [97, 117, 116, 120, 111, 115, 47]
  const LAST_BLOCK: Bytes :=
    [108, 97, 115, 116, 45, 112, 114, 111, 99, 101, 115, 115, 101, 100, 45, 98, 108, 111, 99, 107]

  const SLASH: byte := 47

  /** Account strings contain neither NUL nor '/'. */
  predicate Clean(a: Account) {
    forall i | 0 <= i < |a| :: a[i] != 0 && a[i] != SLASH
  }

  /** Letters and digits, as in base58 and hexadecimal addresses, and the name of the treasury are clean. */
  lemma AccountsAreClean(a: Account)
    requires a == TREASURY || forall i | 0 <= i < |a| ::
               '0' <= a[i] as char <= '9' || 'A' <= a[i] as char <= 'Z' || 'a' <= a[i] as char <= 'z'
    ensures Clean(a)
  {
    forall i | 0 <= i < |a| ensures a[i] != 0 && a[i] != SLASH {
    }
  }

  datatype Key =
    | LastBlock
    | BalanceAt(account: Account, height: Int64)
    | Processed(height: Int64)
    | BlockAccount(height: Int64, account: Account)
    | UtxoOf(account: Account, outpoint: OutPoint)

  ghost predicate CleanKey(k: Key) {
    (k.BalanceAt? || k.UtxoOf?) ==> Clean(k.account)
  }

  function HeightBytes(height: Int64): (r: Bytes)
    ensures |r| == 8
  {
    BigEndian(ToUint64(height), 8)
  }

  function OutPointBytes(o: OutPoint): (r: Bytes)
    ensures |r| == 37
  {
    o.hash + BigEndian(o.index, 4) + [ToByte(o.tree)]
  }

  function Encode(k: Key): Bytes {
    match k
    case LastBlock => LAST_BLOCK
    case BalanceAt(a, h) => BALANCES + a + [0] + HeightBytes(h)
    case Processed(h) => PROCESSED + HeightBytes(h)
    case BlockAccount(h, a) => BLOCK_ACCOUNTS + HeightBytes(h) + a
    case UtxoOf(a, o) => UTXOS + a + [SLASH] + OutPointBytes(o)
  }

  /** The prefix of all balance keys that fetchAccountBalanceAt accepts. */
  function BalancePrefix(a: Account): Bytes {
    BALANCES + a
  }

  function UtxoPrefix(a: Account): Bytes {
    UTXOS + a + [SLASH]
  }

  function BlockAccountPrefix(h: Int64): Bytes {
    BLOCK_ACCOUNTS + HeightBytes(h)
  }

  /* ----- Layout ----- */

  ghost predicate Spells(b: Bytes, s: string) {
    |b| == |s| && forall i | 0 <= i < |b| :: b[i] as char == s[i]
  }

  /** Every key starts with the name of its family; numbers follow most significant byte first. */
  lemma KeyLayout(a: Account, h: Int64, o: OutPoint)
    ensures Spells(Encode(LastBlock), "last-processed-block")
    ensures var k := Encode(BalanceAt(a, h));
            && Spells(k[..4], "act/") && k[4..|k| - 9] == a && k[|k| - 9] == 0 && IsHeight(k[|k| - 8..], h)
    ensures var k := Encode(Key.Processed(h)); Spells(k[..3], "pb/") && IsHeight(k[3..], h)
    ensures var k := Encode(BlockAccount(h, a)); Spells(k[..4], "bac/") && IsHeight(k[4..12], h) && k[12..] == a
  {
    hide IsHeight, BigEndian;
    HeightLayout(h);
    BalanceKeyParts(a, h, Encode(BalanceAt(a, h)));
    ProcessedKeyParts(h, Encode(Key.Processed(h)));
    BlockAccountKeyParts(h, a, Encode(BlockAccount(h, a)));
  }

  lemma UtxoKeyLayout(a: Account, o: OutPoint)
    ensures var k := Encode(UtxoOf(a, o));
            && |k| == |a| + 45 && Spells(k[..7], "autxos/") && k[7..|k| - 38] == a && k[|k| - 38] as char == '/'
            && k[|k| - 37..|k| - 5] == o.hash
            && (forall i | 0 <= i < 4 :: k[|k| - 2 - i] as int == o.index / Pow256(i) % 256)
            && k[|k| - 1] as int == (if o.tree < 0 then o.tree + 256 else o.tree)
  {
    hide BigEndian, Pow256;
    var k := Encode(UtxoOf(a, o));
    UtxoKeyParts(a, o, k);
    assert k[|k| - 37..] == OutPointBytes(o) && k[|k| - 38] == SLASH;
    forall i | 0 <= i < 4 ensures k[|k| - 2 - i] as int == o.index / Pow256(i) % 256 {
      BigEndianAt(o.index, 4, i);
      assert k[|k| - 2 - i] == OutPointBytes(o)[35 - i] == BigEndian(o.index, 4)[3 - i];
    }
  }

  /** The 64-bit two's complement of a height, most significant byte first. */
  ghost predicate IsHeight(b: Bytes, h: Int64) {
    var u := if h < 0 then h + 0x1_0000_0000_0000_0000 else h;
    |b| == 8 && forall i | 0 <= i < 8 :: b[7 - i] as int == u / Pow256(i) % 256
  }

  lemma HeightLayout(h: Int64)
    ensures IsHeight(HeightBytes(h), h)
  {
    var u := ToUint64(h);
    forall i | 0 <= i < 8 ensures HeightBytes(h)[7 - i] as int == u / Pow256(i) % 256 {
      BigEndianAt(u, 8, i);
    }
  }

  /* ----- Extractors ----- */

  function ExtractHeight(k: Bytes): int
    requires |k| >= 8
  {
    ToInt64(FromBigEndian(k[|k| - 8..]))
  }

  function ExtractOutPoint(k: Bytes): (r: OutPoint)
    requires |k| >= 37 && FromBigEndian(k[|k| - 5..|k| - 1]) < TWO_32
  {
    var b := k[|k| - 37..];
    OutPoint(b[..32], FromBigEndian(k[|k| - 5..|k| - 1]), ToInt8(b[36]))
  }

  lemma HeightRoundTrip(h: Int64)
    ensures FromBigEndian(HeightBytes(h)) == ToUint64(h)
    ensures ToInt64(FromBigEndian(HeightBytes(h))) == h
  {
    Widths();
    BigEndianRoundTrip(ToUint64(h), 8);
  }

  lemma OutPointRoundTrip(o: OutPoint, p: Bytes)
    ensures var k := p + OutPointBytes(o);
            FromBigEndian(k[|k| - 5..|k| - 1]) < TWO_32 && ExtractOutPoint(k) == o
  {
    var k := p + OutPointBytes(o);
    Widths();
    BigEndianRoundTrip(o.index, 4);
    assert k[|k| - 5..|k| - 1] == BigEndian(o.index, 4);
    assert k[|k| - 37..] == OutPointBytes(o);
    assert OutPointBytes(o)[..32] == o.hash;
    assert OutPointBytes(o)[36] == ToByte(o.tree);
  }

  /** The extractors give back what the keys were built from. */
  lemma ExtractorsInvert(a: Account, h: Int64, o: OutPoint)
    ensures ExtractHeight(Encode(BalanceAt(a, h))) == h
    ensures var k := Encode(UtxoOf(a, o));
            FromBigEndian(k[|k| - 5..|k| - 1]) < TWO_32 && ExtractOutPoint(k) == o
    ensures Encode(BlockAccount(h, a))[|BlockAccountPrefix(h)|..] == a
  {
    var k := Encode(BalanceAt(a, h));
    assert k[|k| - 8..] == HeightBytes(h);
    HeightRoundTrip(h);
    OutPointRoundTrip(o, UTXOS + a + [SLASH]);
  }

  /* ----- Families never collide and keys are unique ----- */

  lemma BalanceKeyParts(a: Account, h: Int64, k: Bytes)
    requires k == Encode(BalanceAt(a, h))
    ensures |k| == |a| + 13 && k[..4] == BALANCES && k[4..|k| - 9] == a && k[|k| - 8..] == HeightBytes(h)
  {
  }

  lemma UtxoKeyParts(a: Account, o: OutPoint, k: Bytes)
    requires k == Encode(UtxoOf(a, o))
    ensures |k| == |a| + 45 && k[..7] == UTXOS && k[7..|k| - 38] == a && k[|k| - 37..] == OutPointBytes(o)
  {
  }

  lemma BlockAccountKeyParts(h: Int64, a: Account, k: Bytes)
    requires k == Encode(BlockAccount(h, a))
    ensures |k| == |a| + 12 && k[..4] == BLOCK_ACCOUNTS && k[4..12] == HeightBytes(h) && k[12..] == a
  {
  }

  lemma ProcessedKeyParts(h: Int64, k: Bytes)
    requires k == Encode(Processed(h))
    ensures |k| == 11 && k[..3] == PROCESSED && k[3..] == HeightBytes(h)
  {
  }

  /** The first two bytes of a key name its family. */
  function Family(k: Key): (byte, byte) {
    match k
    case LastBlock => (108, 97)
    case BalanceAt(_, _) => (97, 99)
    case Processed(_) => (112, 98)
    case BlockAccount(_, _) => (98, 97)
    case UtxoOf(_, _) => (97, 117)
  }

  lemma FamilyOf(k: Key)
    ensures |Encode(k)| >= 2 && (Encode(k)[0], Encode(k)[1]) == Family(k)
  {
  }

  lemma OutPointBytesUnique(o: OutPoint, p: OutPoint)
    requires OutPointBytes(o) == OutPointBytes(p)
    ensures o == p
  {
    OutPointRoundTrip(o, []);
    OutPointRoundTrip(p, []);
  }

  /** Different keys have different bytes, within and across families. */
  lemma EncodeUnique(k: Key, l: Key)
    requires Encode(k) == Encode(l)
    ensures k == l
  {
    FamilyOf(k);
    FamilyOf(l);
    var b := Encode(k);
    match k {
      case LastBlock =>
      case BalanceAt(a, h) =>
        BalanceKeyParts(a, h, b);
        BalanceKeyParts(l.account, l.height, b);
        HeightRoundTrip(h);
        HeightRoundTrip(l.height);
      case Processed(h) =>
        ProcessedKeyParts(h, b);
        ProcessedKeyParts(l.height, b);
        HeightRoundTrip(h);
        HeightRoundTrip(l.height);
      case BlockAccount(h, a) =>
        BlockAccountKeyParts(h, a, b);
        BlockAccountKeyParts(l.height, l.account, b);
        HeightRoundTrip(h);
        HeightRoundTrip(l.height);
      case UtxoOf(a, o) =>
        UtxoKeyParts(a, o, b);
        UtxoKeyParts(l.account, l.outpoint, b);
        OutPointBytesUnique(o, l.outpoint);
    }
  }

  /* ----- Prefix scans and reverse seeks ----- */

  /** The block-account scan finds the accounts of exactly the asked height. */
  lemma BlockAccountScan(h: Int64, k: Key)
    ensures BlockAccountPrefix(h) <= Encode(k) <==> k.BlockAccount? && k.height == h
  {
    var b := Encode(k);
    FamilyOf(k);
    if BlockAccountPrefix(h) <= b {
      assert b[0] == BlockAccountPrefix(h)[0] && b[1] == BlockAccountPrefix(h)[1];
      BlockAccountKeyParts(k.height, k.account, b);
      assert b[4..12] == BlockAccountPrefix(h)[4..12] == HeightBytes(h);
      HeightRoundTrip(h);
      HeightRoundTrip(k.height);
    }
  }

  /** The utxo scan finds the outputs of exactly the asked account, even if one account string starts another. */
  lemma UtxoScan(a: Account, k: Key)
    requires Clean(a) && CleanKey(k)
    ensures UtxoPrefix(a) <= Encode(k) <==> k.UtxoOf? && k.account == a
  {
    var b, p := Encode(k), UtxoPrefix(a);
    FamilyOf(k);
    if p <= b {
      assert b[0] == p[0] && b[1] == p[1];
      UtxoKeyParts(k.account, k.outpoint, b);
      SeparatorMeets(UTXOS, a, k.account, SLASH, b);
    }
  }

  /** Two separator-free strings, each followed by the separator in the same key, are equal. */
  lemma SeparatorMeets(family: Bytes, a: Account, a': Account, sep: byte, b: Bytes)
    requires forall i | 0 <= i < |a| :: a[i] != sep
    requires forall i | 0 <= i < |a'| :: a'[i] != sep
    requires family + a + [sep] <= b && family + a' + [sep] <= b
    ensures a == a'
  {
    var n := |family|;
    assert forall j | n <= j < n + |a| :: b[j] == a[j - n];
    assert forall j | n <= j < n + |a'| :: b[j] == a'[j - n];
    assert b[n + |a|] == (family + a + [sep])[n + |a|] == sep;
    assert b[n + |a'|] == (family + a' + [sep])[n + |a'|] == sep;
    assert |a| == |a'|;
    assert forall i | 0 <= i < |a| :: a[i] == b[n + i];
  }

  /** Balance keys of one account sort by height. */
  lemma BalanceKeysSort(a: Account, g: Int64, h: Int64)
    ensures LexLe(Encode(BalanceAt(a, g)), Encode(BalanceAt(a, h))) <==> ToUint64(g) <= ToUint64(h)
  {
    var p := BALANCES + a + [0];
    LexLePrefix(p, HeightBytes(g), HeightBytes(h));
    Widths();
    BigEndianSorts(ToUint64(g), ToUint64(h), 8);
  }

  /** A key that starts with an account's prefix and is not above its balance key for h is one of its balances. */
  lemma SeekFindsAccount(a: Account, h: Int64, k: Key)
    requires Clean(a) && CleanKey(k)
    requires BalancePrefix(a) <= Encode(k) && LexLe(Encode(k), Encode(BalanceAt(a, h)))
    ensures k.BalanceAt? && k.account == a && ToUint64(k.height) <= ToUint64(h)
  {
    var b, t, p := Encode(k), Encode(BalanceAt(a, h)), BalancePrefix(a);
    FamilyOf(k);
    assert b[0] == p[0] && b[1] == p[1];
    BalanceKeyParts(k.account, k.height, b);
    var rest, rest' := b[|p|..], [0] + HeightBytes(h);
    assert b == p + rest;
    assert t == p + rest';
    LexLePrefix(p, rest, rest');
    ZeroEndsAccount(a, k.account, b);
    BalanceKeysSort(a, k.height, h);
  }

  /**
   * An account that starts the account of a balance key, and is not followed there by a nonzero byte, is that account.
   */
  lemma ZeroEndsAccount(a: Account, a': Account, b: Bytes)
    requires Clean(a) && Clean(a') && BALANCES + a <= b && BALANCES + a' + [0] <= b
    requires |b| > 4 + |a| ==> b[4 + |a|] == 0
    ensures a == a'
  {
    var p, p' := BALANCES + a, BALANCES + a' + [0];
    assert forall j | 4 <= j < 4 + |a'| :: b[j] == p'[j] == a'[j - 4];
    assert forall j | 4 <= j < 4 + |a| :: b[j] == p[j] == a[j - 4];
    assert b[4 + |a'|] == p'[4 + |a'|] == 0;
    assert |a| == |a'|;
    assert forall i | 0 <= i < |a| :: a[i] == b[4 + i];
  }

  /** A key between two balance keys of an account starts with that account's prefix. */
  lemma SeekStaysInAccount(a: Account, g: Int64, h: Int64, b: Bytes)
    requires LexLe(Encode(BalanceAt(a, g)), b) && LexLe(b, Encode(BalanceAt(a, h)))
    ensures BalancePrefix(a) <= b
  {
    var p := BalancePrefix(a);
    assert Encode(BalanceAt(a, g)) == p + ([0] + HeightBytes(g));
    assert Encode(BalanceAt(a, h)) == p + ([0] + HeightBytes(h));
    LexLeBetween(p, [0] + HeightBytes(g), b, [0] + HeightBytes(h));
  }
}
