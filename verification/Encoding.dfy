/** Fixed-width integers as bytes, and the byte-wise order of keys. */
module Encoding {
  import opened Prelude

  function Pow256(w: nat): (r: nat)
    ensures r > 0
  {
    if w == 0 then 1 else 256 * Pow256(w - 1)
  }

  /** Big-endian bytes of n, most significant first. */
  function BigEndian(n: nat, w: nat): (r: Bytes)
    ensures |r| == w
  {
    if w == 0 then [] else BigEndian(n / 256, w - 1) + [(n % 256) as byte]
  }

  function FromBigEndian(b: Bytes): nat {
    if b == [] then 0 else FromBigEndian(b[..|b| - 1]) * 256 + b[|b| - 1] as nat
  }

  /** Little-endian bytes of n, least significant first. */
  function LittleEndian(n: nat, w: nat): (r: Bytes)
    ensures |r| == w
  {
    if w == 0 then [] else [(n % 256) as byte] + LittleEndian(n / 256, w - 1)
  }

  function FromLittleEndian(b: Bytes): (r: nat)
    ensures r < Pow256(|b|)
  {
    if b == [] then 0 else b[0] as nat + 256 * FromLittleEndian(b[1..])
  }

  lemma QuotientFits(n: nat, w: nat)
    requires w > 0 && n < Pow256(w)
    ensures n / 256 < Pow256(w - 1)
  {
  }

  lemma {:induction false} BigEndianRoundTrip(n: nat, w: nat)
    requires n < Pow256(w)
    ensures FromBigEndian(BigEndian(n, w)) == n
  {
    if w > 0 {
      var p, c := BigEndian(n / 256, w - 1), (n % 256) as byte;
      QuotientFits(n, w);
      BigEndianRoundTrip(n / 256, w - 1);
      assert (p + [c])[..w - 1] == p;
    }
  }

  lemma {:induction false} LittleEndianRoundTrip(n: nat, w: nat)
    requires n < Pow256(w)
    ensures FromLittleEndian(LittleEndian(n, w)) == n
  {
    if w > 0 {
      assert LittleEndian(n, w)[1..] == LittleEndian(n / 256, w - 1);
      LittleEndianRoundTrip(n / 256, w - 1);
    }
  }

  lemma {:induction false} LittleEndianInverse(b: Bytes)
    ensures LittleEndian(FromLittleEndian(b), |b|) == b
  {
    if b != [] {
      LittleEndianInverse(b[1..]);
      var n := FromLittleEndian(b[1..]);
      assert FromLittleEndian(b) == b[0] as nat + 256 * n;
      assert FromLittleEndian(b) % 256 == b[0] as nat && FromLittleEndian(b) / 256 == n;
      assert b == [b[0]] + b[1..];
    }
  }

  /** Byte i of a little-endian number is its digit i in base 256. */
  lemma {:induction false} LittleEndianAt(n: nat, w: nat, i: nat)
    requires i < w
    ensures LittleEndian(n, w)[i] as nat == n / Pow256(i) % 256
  {
    if i > 0 {
      LittleEndianAt(n / 256, w - 1, i - 1);
      DivideTwice(n, Pow256(i - 1));
    }
  }

  /** Byte i of a big-endian number, counted from the end, is its digit i in base 256. */
  lemma {:induction false} BigEndianAt(n: nat, w: nat, i: nat)
    requires i < w
    ensures BigEndian(n, w)[w - 1 - i] as nat == n / Pow256(i) % 256
  {
    if i > 0 {
      BigEndianAt(n / 256, w - 1, i - 1);
      DivideTwice(n, Pow256(i - 1));
    }
  }

  lemma DivideTwice(n: nat, b: nat)
    requires b > 0
    ensures n / 256 / b == n / (256 * b)
  {
    var q, r := n / 256, n % 256;
    var p, t := q / b, q % b;
    assert n == 256 * q + r && q == b * p + t;
    Associates(b, p);
    Quotient(n, 256 * b, p, 256 * t + r);
  }

  lemma Associates(b: nat, p: nat)
    ensures 256 * (b * p) == (256 * b) * p
  {
  }

  lemma Quotient(n: nat, c: nat, p: nat, t: nat)
    requires c > 0 && n == c * p + t && t < c
    ensures n / c == p
  {
    assert c * (n / c - p) == t - n % c;
    SmallMultiple(c, n / c - p);
  }

  lemma Widths()
    ensures Pow256(1) == 256 && Pow256(2) == 0x1_0000 && Pow256(4) == TWO_32 && Pow256(8) == TWO_64
  {
    assert Pow256(1) == 256 * Pow256(0);
    assert Pow256(2) == 256 * Pow256(1);
    assert Pow256(3) == 256 * Pow256(2);
    assert Pow256(4) == 256 * Pow256(3);
    assert Pow256(5) == 256 * Pow256(4);
    assert Pow256(6) == 256 * Pow256(5);
    assert Pow256(7) == 256 * Pow256(6);
    assert Pow256(8) == 256 * Pow256(7);
  }

  /** The conversions between int64 and uint64, and between int8 and a byte. */
  function ToUint64(x: Int64): (r: nat)
    ensures r < TWO_64
  {
    if x < 0 then x + TWO_64 else x
  }

  function ToInt64(x: int): int {
    if x >= TWO_63 then x - TWO_64 else x
  }

  function ToByte(x: Int8): byte {
    (if x < 0 then x + 256 else x) as byte
  }

  function ToInt8(b: byte): Int8 {
    if b >= 128 then b as int - 256 else b as int
  }

  /* ----- Lexicographic order ----- */

  predicate LexLe(s: Bytes, t: Bytes) {
    s == [] || (t != [] && (s[0] < t[0] || (s[0] == t[0] && LexLe(s[1..], t[1..]))))
  }

  lemma {:induction false} LexLeReflexive(s: Bytes)
    ensures LexLe(s, s)
  {
    if s != [] {
      LexLeReflexive(s[1..]);
    }
  }

  lemma {:induction false} LexLeTotal(s: Bytes, t: Bytes)
    ensures LexLe(s, t) || LexLe(t, s)
  {
    if s != [] && t != [] && s[0] == t[0] {
      LexLeTotal(s[1..], t[1..]);
    }
  }

  lemma {:induction false} LexLeTransitive(s: Bytes, t: Bytes, u: Bytes)
    requires LexLe(s, t) && LexLe(t, u)
    ensures LexLe(s, u)
  {
    if s != [] && s[0] == t[0] && t[0] == u[0] {
      LexLeTransitive(s[1..], t[1..], u[1..]);
    }
  }

  /** A common prefix does not matter. */
  lemma {:induction false} LexLePrefix(p: Bytes, s: Bytes, t: Bytes)
    ensures LexLe(p + s, p + t) <==> LexLe(s, t)
  {
    if p == [] {
      assert p + s == s && p + t == t;
    } else {
      assert (p + s)[1..] == p[1..] + s && (p + t)[1..] == p[1..] + t;
      LexLePrefix(p[1..], s, t);
    }
  }

  /** A key between two keys with a common prefix has that prefix. */
  lemma {:induction false} LexLeBetween(p: Bytes, s: Bytes, g: Bytes, t: Bytes)
    requires LexLe(p + s, g) && LexLe(g, p + t)
    ensures p <= g
  {
    if p != [] {
      assert (p + s)[0] == p[0] && (p + t)[0] == p[0];
      assert (p + s)[1..] == p[1..] + s && (p + t)[1..] == p[1..] + t;
      LexLeBetween(p[1..], s, g[1..], t);
      assert g == [g[0]] + g[1..];
    }
  }

  lemma {:induction false} LexLeSnoc(p: Bytes, q: Bytes, b: byte, c: byte)
    requires |p| == |q|
    ensures LexLe(p + [b], q + [c]) <==> (LexLe(p, q) && p != q) || (p == q && b <= c)
  {
    if p == [] {
      assert LexLe([b], [c]) <==> b <= c;
      assert p + [b] == [b] && q + [c] == [c];
    } else {
      assert (p + [b])[1..] == p[1..] + [b] && (q + [c])[1..] == q[1..] + [c];
      LexLeSnoc(p[1..], q[1..], b, c);
      assert p == [p[0]] + p[1..] && q == [q[0]] + q[1..];
    }
  }

  /** Big-endian encodings sort like the numbers they encode. */
  lemma {:induction false} BigEndianSorts(x: nat, y: nat, w: nat)
    requires x < Pow256(w) && y < Pow256(w)
    ensures LexLe(BigEndian(x, w), BigEndian(y, w)) <==> x <= y
  {
    if w > 0 {
      var p, q := BigEndian(x / 256, w - 1), BigEndian(y / 256, w - 1);
      QuotientFits(x, w);
      QuotientFits(y, w);
      LexLeSnoc(p, q, (x % 256) as byte, (y % 256) as byte);
      BigEndianSorts(x / 256, y / 256, w - 1);
      BigEndianRoundTrip(x / 256, w - 1);
      BigEndianRoundTrip(y / 256, w - 1);
    }
  }
}
