/** compress.h: zigzag and the prefix-length code of 64-bit integers, 1 to 9 bytes.
    A uint64 is an integer below 2^64; a bit pattern is the integer it spells. */
module Compress {
  import opened Octets

  const TWO63: int := 0x8000_0000_0000_0000
  const TWO64: int := 0x1_0000_0000_0000_0000

  type uint64 = x: int | 0 <= x < 0x1_0000_0000_0000_0000
  type int64 = x: int | -0x8000_0000_0000_0000 <= x < 0x8000_0000_0000_0000

  // ------------------------------------------------------------------- zigzag

  /** The 64-bit pattern of x. */
  function Pattern(x: int): uint64 { x % TWO64 }

  function Complement(p: uint64): uint64 { TWO64 - 1 - p }

  function Signed(p: uint64): int64 { if p < TWO63 then p else p - TWO64 }

  /** `(v << 1) ^ (v >> 63)`: the arithmetic shift is all ones for a negative v, and
      exclusive-or with all ones is the complement. */
  function ZigzagEncode(v: int64): uint64 {
    if v < 0 then Complement(Pattern(2 * v)) else Pattern(2 * v)
  }

  /** `-(v & 1) ^ (v >> 1)` */
  function ZigzagDecode(u: uint64): int64 {
    Signed(if u % 2 == 0 then u / 2 else Complement(u / 2))
  }

  /** Zigzag is a bijection that orders by magnitude, the inverse being the decoder. */
  lemma ZigzagInverse(v: int64, u: uint64)
    ensures ZigzagEncode(v) == if v >= 0 then 2 * v else -2 * v - 1
    ensures ZigzagDecode(ZigzagEncode(v)) == v
    ensures ZigzagEncode(ZigzagDecode(u)) == u
  {
  }

  // -------------------------------------------------------------- little endian

  function Bytes(x: nat, n: nat): (r: seq<byte>)
    ensures |r| == n
    decreases n
  {
    if n == 0 then [] else [x % 256] + Bytes(x / 256, n - 1)
  }

  function Number(bs: seq<byte>): (x: nat)
    decreases |bs|
  {
    if bs == [] then 0 else bs[0] + 256 * Number(bs[1..])
  }

  function Pow256(n: nat): (r: nat)
    ensures r >= 1
  {
    if n == 0 then 1 else 256 * Pow256(n - 1)
  }

  lemma {:induction false} NumberOfBytes(x: nat, n: nat)
    requires x < Pow256(n)
    ensures Number(Bytes(x, n)) == x
    decreases n
  {
    if n > 0 {
      NumberOfBytes(x / 256, n - 1);
      assert Bytes(x, n)[1..] == Bytes(x / 256, n - 1);
    }
  }

  lemma {:induction false} BytesOfNumber(bs: seq<byte>)
    ensures Number(bs) < Pow256(|bs|) && Bytes(Number(bs), |bs|) == bs
    decreases |bs|
  {
    if bs != [] {
      BytesOfNumber(bs[1..]);
      assert (bs[0] + 256 * Number(bs[1..])) / 256 == Number(bs[1..]);
    }
  }

  // ------------------------------------------------------------ the integer code

  /** `compress_uint64_size` */
  function CompressSize(v: uint64): (n: int)
    ensures 1 <= n <= 9
  {
    if v < 0x80 then 1
    else if v < 0x4000 then 2
    else if v < 0x20_0000 then 3
    else if v < 0x1000_0000 then 4
    else if v < 0x8_0000_0000 then 5
    else if v < 0x400_0000_0000 then 6
    else if v < 0x2_0000_0000_0000 then 7
    else if v < 0x100_0000_0000_0000 then 8
    else 9
  }

  /** `(b & (1 << i)) == 0` */
  predicate BitClear(b: byte, i: int)
    requires 0 <= i < 8
  {
    (b / TwoTo(i)) % 2 == 0
  }

  function TwoTo(i: int): (r: int)
    requires 0 <= i <= 8
    ensures r >= 1
  {
    match i
    case 0 => 1 case 1 => 2 case 2 => 4 case 3 => 8 case 4 => 16
    case 5 => 32 case 6 => 64 case 7 => 128 case _ => 256
  }

  /** `decompress_uint64_size` */
  function DecompressSize(b: byte): (n: int)
    ensures 1 <= n <= 9
  {
    if BitClear(b, 0) then 1
    else if BitClear(b, 1) then 2
    else if BitClear(b, 2) then 3
    else if BitClear(b, 3) then 4
    else if BitClear(b, 4) then 5
    else if BitClear(b, 5) then 6
    else if BitClear(b, 6) then 7
    else if BitClear(b, 7) then 8
    else 9
  }

  /** The word that is written for v in n bytes: v shifted by n, then n - 1 ones. */
  function Tagged(v: uint64, n: int): nat
    requires 1 <= n <= 8
  {
    v * TwoTo(n) + TwoTo(n - 1) - 1
  }

  /** `compress_uint64(p, s, v)` with s bytes of room: the bytes written, none if
      they do not fit. */
  function CompressInto(s: nat, v: uint64): seq<byte> {
    var n := CompressSize(v);
    if s < n then []
    else if n == 9 then [0xff] + Bytes(v, 8)
    else Bytes(Tagged(v, n), n)
  }

  /** The code of v, given room for it. */
  function Code(v: uint64): (r: seq<byte>)
    ensures |r| == CompressSize(v)
  {
    CompressInto(9, v)
  }

  datatype Decoded = Short | Overrun | Decoded(n: nat, v: uint64)

  /** `decompress_uint64(p, s, v)`.  Short is the result 0; there is no length check
      before the 8 bytes after a leading 0xff are read, and Overrun is that read. */
  function Decompress(p: seq<byte>): Decoded {
    if p == [] then Short
    else
      var n := DecompressSize(p[0]);
      if n == 9 then
        if |p| < 9 then Overrun else Decoded(9, Number64(p[1..9]))
      else if |p| < n then Short
      else Decoded(n, NumberShifted(p[..n], n))
  }

  function Number64(bs: seq<byte>): uint64
    requires |bs| == 8
  {
    BytesOfNumber(bs);
    assert Pow256(8) == TWO64 by { Pow256Of8(); }
    Number(bs)
  }

  function NumberShifted(bs: seq<byte>, n: int): uint64
    requires 1 <= n <= 8 && |bs| == n
  {
    BytesOfNumber(bs);
    Pow256Fits(n);
    Number(bs) / TwoTo(n)
  }

  lemma Pow256Of8()
    ensures Pow256(8) == TWO64
  {
    assert Pow256(4) == 0x1_0000_0000;
    assert Pow256(5) == 0x100_0000_0000;
    assert Pow256(6) == 0x1_0000_0000_0000;
    assert Pow256(7) == 0x100_0000_0000_0000;
  }

  lemma Pow256Fits(n: int)
    requires 1 <= n <= 8
    ensures Pow256(n) == [0x100, 0x1_0000, 0x100_0000, 0x1_0000_0000, 0x100_0000_0000, 0x1_0000_0000_0000,
                          0x100_0000_0000_0000, 0x1_0000_0000_0000_0000][n - 1]
  {
    Pow256Of8();
    assert Pow256(1) == 0x100 && Pow256(2) == 0x1_0000 && Pow256(3) == 0x100_0000;
    assert Pow256(4) == 0x1_0000_0000 && Pow256(5) == 0x100_0000_0000;
  }

  /** The low i bits of b are all set. */
  ghost predicate LowOnes(b: byte, i: int)
    requires 0 <= i <= 8
  {
    b % TwoTo(i) == TwoTo(i) - 1
  }

  lemma MulAtLeast(d: nat, t: nat)
    requires t >= 1
    ensures d * t >= d
  {
    assert d * t == d + d * (t - 1);
  }

  lemma RemainderIs(x: nat, d: nat, q: nat, r: nat)
    requires d >= 1 && r < d && x == d * q + r
    ensures x % d == r
  {
    var k, s := x / d, x % d;
    assert x == d * k + s;
    if q > k {
      assert d * (q - k) == s - r;
      MulAtLeast(d, q - k);
      assert false;
    } else if k > q {
      assert d * (k - q) == r - s;
      MulAtLeast(d, k - q);
      assert false;
    }
  }

  lemma RemainderOfDouble(x: nat, m: nat)
    requires m >= 1
    ensures x % (2 * m) == (if x / m % 2 == 0 then 0 else m) + x % m
  {
    var q, h := x / m, x / m / 2;
    var r := (if q % 2 == 0 then 0 else m) + x % m;
    assert x == m * q + x % m;
    HalfOf(m, q, h);
    RemainderIs(x, 2 * m, h, r);
  }

  lemma HalfOf(m: nat, q: nat, h: nat)
    requires h == q / 2
    ensures m * q == 2 * m * h + if q % 2 == 0 then 0 else m
  {
    var t := q % 2;
    assert q == 2 * h + t;
    assert m * q == m * (2 * h) + m * t;
    assert m * (2 * h) == 2 * m * h;
  }

  lemma RemainderOfRemainder(x: nat, d: nat, e: nat)
    requires d >= 1 && d * e == 256
    ensures (x % 256) % d == x % d
  {
    var q, y := x / 256, x % 256;
    var z := y / d;
    assert y == d * z + y % d;
    ThreeFactors(d, e, q);
    assert d * (e * q + z) == d * (e * q) + d * z;
    RemainderIs(x, d, e * q + z, y % d);
  }

  lemma ThreeFactors(a: nat, b: nat, c: nat)
    ensures a * (b * c) == (a * b) * c
  {
  }

  lemma OneMoreBit(b: byte, i: int)
    requires 0 <= i < 8
    ensures LowOnes(b, i) && !BitClear(b, i) <==> LowOnes(b, i + 1)
    ensures LowOnes(b, i) && BitClear(b, i) <==> b % TwoTo(i + 1) == TwoTo(i) - 1
  {
    assert TwoTo(i + 1) == 2 * TwoTo(i);
    hide TwoTo;
    RemainderOfDouble(b, TwoTo(i));
  }

  /** The size a first byte announces is its number of trailing ones, plus one. */
  lemma SizeIsTrailingOnes(b: byte, n: int)
    requires 1 <= n <= 8
    ensures DecompressSize(b) == n <==> b % TwoTo(n) == TwoTo(n - 1) - 1
    ensures DecompressSize(b) == 9 <==> b == 0xff
  {
    hide BitClear, TwoTo;
    OnesAtEnds(b);
    OneMoreBit(b, 0); OneMoreBit(b, 1); OneMoreBit(b, 2); OneMoreBit(b, 3);
    OneMoreBit(b, 4); OneMoreBit(b, 5); OneMoreBit(b, 6); OneMoreBit(b, 7);
  }

  lemma OnesAtEnds(b: byte)
    ensures LowOnes(b, 0) && (LowOnes(b, 8) <==> b == 0xff)
  {
  }

  lemma ModInByte(x: nat, n: int)
    requires 1 <= n <= 8
    ensures (x % 256) % TwoTo(n) == x % TwoTo(n)
  {
    assert TwoTo(n) * TwoTo(8 - n) == 256;
    RemainderOfRemainder(x, TwoTo(n), TwoTo(8 - n));
  }

  lemma TaggedParts(v: nat, n: int)
    requires 1 <= n <= 8 && v < TWO64
    ensures Tagged(v, n) / TwoTo(n) == v && Tagged(v, n) % TwoTo(n) == TwoTo(n - 1) - 1
  {
    match n
    case 1 => case 2 => case 3 => case 4 => case 5 => case 6 => case 7 => case _ =>
  }

  lemma TaggedInRange(v: uint64, n: int)
    requires 1 <= n <= 8
    ensures CompressSize(v) <= n <==> Tagged(v, n) < Pow256(n)
  {
    Pow256Fits(n);
    match n
    case 1 => case 2 => case 3 => case 4 => case 5 => case 6 => case 7 => case _ =>
  }

  /** The tagged word fits its n bytes, and both parts can be read back. */
  lemma TaggedFits(v: uint64, n: int)
    requires 1 <= n <= 8 && CompressSize(v) <= n
    ensures Tagged(v, n) < Pow256(n)
    ensures Tagged(v, n) / TwoTo(n) == v
    ensures DecompressSize(Tagged(v, n) % 256) == n
  {
    hide Tagged, TwoTo, Pow256, DecompressSize;
    TaggedInRange(v, n);
    TaggedParts(v, n);
    ModInByte(Tagged(v, n), n);
    SizeIsTrailingOnes(Tagged(v, n) % 256, n);
  }

  /** A word whose low byte announces n bytes is a tagged word. */
  lemma TaggedBack(x: nat, n: int)
    requires 1 <= n <= 8 && x < Pow256(n) && DecompressSize(x % 256) == n
    ensures x / TwoTo(n) < TWO64 && x == Tagged(x / TwoTo(n), n) && CompressSize(x / TwoTo(n)) <= n
  {
    hide Pow256, DecompressSize, CompressSize;
    ModInByte(x, n);
    SizeIsTrailingOnes(x % 256, n);
    QuotientFits(x, n);
    assert x == x / TwoTo(n) * TwoTo(n) + x % TwoTo(n);
    TaggedInRange(x / TwoTo(n), n);
  }

  lemma QuotientFits(x: nat, n: int)
    requires 1 <= n <= 8 && x < Pow256(n)
    ensures x / TwoTo(n) < TWO64
  {
    Pow256Fits(n);
  }

  /** Reading a code gives its number back and consumes just the code, whatever
      follows: the code is prefix-free. */
  lemma CodeRoundTrip(v: uint64, rest: seq<byte>)
    ensures Decompress(Code(v) + rest) == Decoded(CompressSize(v), v)
  {
    hide Tagged, DecompressSize, Pow256;
    var n, p := CompressSize(v), Code(v) + rest;
    if n == 9 {
      SizeIsTrailingOnes(0xff, 1);
      Pow256Of8();
      NumberOfBytes(v, 8);
      assert p[1..9] == Bytes(v, 8);
      assert p[0] == 0xff;
    } else {
      TaggedFits(v, n);
      NumberOfBytes(Tagged(v, n), n);
      assert p[..n] == Code(v) && p[0] == Tagged(v, n) % 256;
    }
  }

  /** What the decoder reads past the end of: a leading 0xff and fewer than 8 bytes after it. */
  predicate CutShort(p: seq<byte>) { p != [] && p[0] == 0xff && |p| < 9 }

  /** The decoder reads past the end of its input exactly when that is cut short. */
  lemma OverrunIffCutShort(p: seq<byte>)
    ensures Decompress(p) == Overrun <==> CutShort(p)
  {
    hide DecompressSize;
    if p != [] { SizeIsTrailingOnes(p[0], 1); }
  }

  /** A code cut short is rejected exactly when it is empty or not a 9-byte code; a
      9-byte code cut after its first byte is read past the end. */
  lemma TruncatedCode(v: uint64, m: nat)
    requires m < CompressSize(v)
    ensures Decompress(Code(v)[..m]) == Short <==> m == 0 || v < 0x100_0000_0000_0000
    ensures Decompress(Code(v)[..m]) == Overrun <==> m > 0 && v >= 0x100_0000_0000_0000
  {
    CodeRoundTrip(v, []);
    assert Code(v) + [] == Code(v);
    if m > 0 { assert Code(v)[..m][0] == Code(v)[0]; }
  }

  /** Whatever is decoded was written in at least as many bytes as its code has, and
      is its code exactly when it was written in that many. */
  lemma CodeIsShortest(p: seq<byte>)
    requires Decompress(p).Decoded?
    ensures var Decoded(n, v) := Decompress(p);
            CompressSize(v) <= n <= |p| && (p[..n] == Code(v) <==> n == CompressSize(v))
  {
    var Decoded(n, v) := Decompress(p);
    var bs := p[..n];
    if n == 9 {
      BytesOfNumber(p[1..9]);
      assert bs == [p[0]] + p[1..9];
      SizeIsTrailingOnes(p[0], 1);
    } else {
      BytesOfNumber(bs);
      assert bs[0] == Number(bs) % 256;
      TaggedBack(Number(bs), n);
    }
  }

  // --------------------------------------------------------------- byte by byte

  /** Byte k of x, counted from the low end. */
  function Digit(x: nat, k: nat): byte
    decreases k
  {
    if k == 0 then x % 256 else Digit(x / 256, k - 1)
  }

  lemma {:induction false} BytesAt(x: nat, n: nat, k: nat)
    requires k < n
    ensures Bytes(x, n)[k] == Digit(x, k)
    decreases n
  {
    if k > 0 { BytesAt(x / 256, n - 1, k - 1); }
  }

  function Pow128(n: nat): nat { if n == 0 then 1 else 128 * Pow128(n - 1) }

  /** The number of bytes: seven bits of the value in each, up to eight bytes. */
  lemma SizeOfValue(v: uint64, n: nat)
    requires 1 <= n <= 8
    ensures CompressSize(v) <= n <==> v < Pow128(n)
  {
    assert Pow128(1) == 0x80 && Pow128(2) == 0x4000 && Pow128(3) == 0x20_0000 && Pow128(4) == 0x1000_0000;
    assert Pow128(5) == 0x8_0000_0000 && Pow128(6) == 0x400_0000_0000;
    assert Pow128(7) == 0x2_0000_0000_0000 && Pow128(8) == 0x100_0000_0000_0000;
  }

  /** The bytes of a code: the low end first of the value times 2^n plus n - 1 ones; or 0xff and
      then the value, low end first. */
  lemma CodeBytes(v: uint64, k: nat)
    requires k < CompressSize(v)
    ensures var n := CompressSize(v);
            if n <= 8 then Code(v)[k] == Digit(v * TwoTo(n) + TwoTo(n - 1) - 1, k)
            else Code(v)[k] == if k == 0 then 0xff else Digit(v, k - 1)
  {
    var n := CompressSize(v);
    if n <= 8 {
      BytesAt(Tagged(v, n), n, k);
    } else if k > 0 {
      BytesAt(v, 8, k - 1);
    }
  }

  /** Whatever is decoded, the bytes read spell the value in the same way. */
  lemma DecodedBytes(p: seq<byte>, k: nat)
    requires Decompress(p).Decoded? && k < Decompress(p).n
    ensures var Decoded(n, v) := Decompress(p);
            && 1 <= n <= 9 && n <= |p|
            && if n <= 8 then p[k] == Digit(v * TwoTo(n) + TwoTo(n - 1) - 1, k)
               else p[k] == if k == 0 then 0xff else Digit(v, k - 1)
  {
    hide TwoTo, Pow256;
    var Decoded(n, v) := Decompress(p);
    var bs := p[..n];
    if n == 9 {
      SizeIsTrailingOnes(p[0], 1);
      BytesOfNumber(p[1..9]);
      if k > 0 { BytesAt(v, 8, k - 1); }
    } else {
      BytesOfNumber(bs);
      assert bs[0] == Number(bs) % 256;
      TaggedBack(Number(bs), n);
      BytesAt(Number(bs), n, k);
    }
  }
}
