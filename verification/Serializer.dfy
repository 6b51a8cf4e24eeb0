/** serializer.h: integers and strings written one after another into a growing byte
    array and read back by type. */
module Serializer {
  import opened Octets
  import opened Compress
  import opened ByteArray

  type uint32 = x: int | 0 <= x < 0x1_0000_0000
  type int32 = x: int | -0x8000_0000 <= x < 0x8000_0000

  /** Bytes of a string; its length is a uint64. */
  type Text = s: seq<byte> | |s| < 0x1_0000_0000_0000_0000

  datatype Type = UInt64 | Int64 | UInt32 | Int32 | String

  datatype Value =
    | U64(u: uint64)
    | I64(i: int64)
    | U32(u32: uint32)
    | I32(i32: int32)
    | Str(s: Text)
  {
    function TypeOf(): Type {
      match this
      case U64(_) => UInt64
      case I64(_) => Int64
      case U32(_) => UInt32
      case I32(_) => Int32
      case Str(_) => String
    }
  }

  // ------------------------------------------------------- the format, on values

  function Encode(v: Value): seq<byte> {
    match v
    case U64(u) => Code(u)
    case I64(i) => Code(ZigzagEncode(i))
    case U32(u) => Code(u)
    case I32(i) => Code(ZigzagEncode(i))
    case Str(s) => Code(|s|) + s
  }

  /** Assignment to a uint32_t or int32_t keeps the low 32 bits. */
  function Narrow(x: int): uint32 { x % 0x1_0000_0000 }

  function NarrowSigned(x: int): int32 {
    if Narrow(x) < 0x8000_0000 then Narrow(x) else Narrow(x) - 0x1_0000_0000
  }

  /** Failed(n): false is returned and the cursor has moved n bytes. */
  datatype Read = Got(v: Value, n: nat) | Failed(n: nat) | PastEnd

  function DecodeNumber(t: Type, x: uint64): Value
    requires t != String
  {
    match t
    case UInt64 => U64(x)
    case Int64 => I64(ZigzagDecode(x))
    case UInt32 => U32(Narrow(x))
    case Int32 => I32(NarrowSigned(ZigzagDecode(x)))
  }

  function Decode(t: Type, p: seq<byte>): Read {
    match Decompress(p)
    case Short => Failed(0)
    case Overrun => PastEnd
    case Decoded(n, x) =>
      if t != String then Got(DecodeNumber(t, x), n)
      else if n + x > |p| then Failed(n)
      else Got(Str(p[n..n + x]), n + x)
  }

  /** Signed values are written as 2v or -2v - 1, strings after their length. */
  lemma EncodedAs(v: Value)
    ensures match v
            case U64(u) => Encode(v) == Code(u)
            case U32(u) => Encode(v) == Code(u)
            case I64(i) => 0 <= (if i >= 0 then 2 * i else -2 * i - 1) < TWO64 &&
                           Encode(v) == Code(if i >= 0 then 2 * i else -2 * i - 1)
            case I32(i) => Encode(v) == Code(if i >= 0 then 2 * i else -2 * i - 1)
            case Str(s) => |Code(|s|)| <= |Encode(v)| && Encode(v)[..|Code(|s|)|] == Code(|s|) && Encode(v)[|Code(|s|)|..] == s
  {
    hide Code;
    if v.I64? { ZigzagInverse(v.i, 0); }
    if v.I32? { ZigzagInverse(v.i32, 0); }
  }

  /** A number too large for 32 bits is read modulo 2^32. */
  lemma ReadNarrow(x: uint64)
    ensures DecodeNumber(UInt64, x) == U64(x) && DecodeNumber(Int64, x) == I64(ZigzagDecode(x))
    ensures DecodeNumber(UInt32, x).U32? && (x - DecodeNumber(UInt32, x).u32) % 0x1_0000_0000 == 0
    ensures DecodeNumber(Int32, x).I32? && (ZigzagDecode(x) - DecodeNumber(Int32, x).i32) % 0x1_0000_0000 == 0
  {
  }

  function EncodeAll(vs: seq<Value>): seq<byte> {
    if vs == [] then [] else EncodeAll(vs[..|vs| - 1]) + Encode(vs[|vs| - 1])
  }

  function TypesOf(vs: seq<Value>): (ts: seq<Type>)
    ensures |ts| == |vs|
  {
    seq(|vs|, k requires 0 <= k < |vs| => vs[k].TypeOf())
  }

  /** A written value is read back, and exactly its bytes are consumed. */
  lemma EncodeRoundTrip(v: Value, rest: seq<byte>)
    ensures Decode(v.TypeOf(), Encode(v) + rest) == Got(v, |Encode(v)|)
  {
    hide Decompress, Code, ZigzagEncode, ZigzagDecode;
    match v
    case U64(u) => CodeRoundTrip(u, rest);
    case I64(i) =>
      ZigzagInverse(i, 0);
      CodeRoundTrip(ZigzagEncode(i), rest);
    case U32(u) => CodeRoundTrip(u, rest);
    case I32(i) =>
      ZigzagInverse(i, 0);
      CodeRoundTrip(ZigzagEncode(i), rest);
    case Str(s) =>
      CodeRoundTrip(|s|, s + rest);
      var p, n := Code(|s|) + s + rest, |Code(|s|)|;
      assert p == Code(|s|) + (s + rest);
      assert p[n..n + |s|] == s;
  }

  lemma PastEndIffCutShort(t: Type, p: seq<byte>)
    ensures CutShort(p) <==> Decode(t, p) == PastEnd
  {
    OverrunIffCutShort(p);
  }

  lemma {:induction false} EncodeAllConcat(a: seq<Value>, b: seq<Value>)
    ensures EncodeAll(a + b) == EncodeAll(a) + EncodeAll(b)
    decreases |b|
  {
    hide Encode;
    if b == [] {
      assert a + b == a;
    } else {
      var n := |b| - 1;
      EncodeAllConcat(a, b[..n]);
      EncodeAllLast(a + b[..n], b[n]);
      EncodeAllLast(b[..n], b[n]);
      assert a + b == a + b[..n] + [b[n]] && b == b[..n] + [b[n]];
    }
  }

  lemma EncodeAllLast(vs: seq<Value>, v: Value)
    ensures EncodeAll(vs + [v]) == EncodeAll(vs) + Encode(v)
  {
    hide Encode;
    assert (vs + [v])[..|vs|] == vs;
  }

  lemma EncodeAllFirst(vs: seq<Value>)
    requires vs != []
    ensures EncodeAll(vs) == Encode(vs[0]) + EncodeAll(vs[1..])
  {
    hide Encode;
    EncodeAllConcat([vs[0]], vs[1..]);
    assert [vs[0]] + vs[1..] == vs;
    assert EncodeAll([vs[0]]) == EncodeAll([]) + Encode(vs[0]);
  }

  // ---------------------------------------------------------------- the functions

  /** `serialize`: the sink grows by the code of the value. */
  method Serialize(v: Value, out: WriteableByteArray)
    requires out.Valid()
    modifies out, out.bytes
    ensures out.Valid() && out.Contents() == old(out.Contents()) + Encode(v)
    ensures out.bytes == old(out.bytes) || fresh(out.bytes)
  {
    hide Code, ZigzagEncode;
    match v
    case U64(u) => out.Write(Code(u));
    case I64(i) => out.Write(Code(ZigzagEncode(i)));
    case U32(u) => out.Write(Code(u));
    case I32(i) => out.Write(Code(ZigzagEncode(i)));
    case Str(s) => SerializeString(s, out);
  }

  method SerializeString(s: Text, out: WriteableByteArray)
    requires out.Valid()
    modifies out, out.bytes
    ensures out.Valid() && out.Contents() == old(out.Contents()) + (Code(|s|) + s)
    ensures out.bytes == old(out.bytes) || fresh(out.bytes)
  {
    hide Code;
    out.Write(Code(|s|));
    out.Write(s);
  }

  /** `decompress_uint64` on a byte array: decode what remains, then skip it. */
  method DecompressNumber(bytes: ReadableByteArray) returns (ok: bool, x: uint64)
    requires bytes.Valid() && !CutShort(bytes.Rest())
    modifies bytes
    ensures bytes.Valid()
    ensures match old(Decompress(bytes.Rest()))
            case Decoded(n, v) => ok && x == v && n <= |old(bytes.Rest())| && bytes.Rest() == old(bytes.Rest())[n..]
            case Short => !ok && bytes.Rest() == old(bytes.Rest())
            case Overrun => false
  {
    var p := bytes.Remain();
    OverrunIffCutShort(p);
    ok, x := false, 0;
    var decoded := Decompress(p);
    if decoded.Decoded? {
      CodeIsShortest(p);
      var read, skipped := bytes.Read(decoded.n);
      assert read;
      ok, x := true, decoded.v;
    }
  }

  /** `deserialize` by type: what Decode says, the cursor included.  The bytes must not
      be a 9-byte code cut short, which the source would read past the end of. */
  method Deserialize(t: Type, bytes: ReadableByteArray) returns (ok: bool, v: Value)
    requires bytes.Valid() && !CutShort(bytes.Rest())
    modifies bytes
    ensures bytes.Valid()
    ensures match old(Decode(t, bytes.Rest()))
            case Got(w, n) => ok && v == w && n <= |old(bytes.Rest())| && bytes.Rest() == old(bytes.Rest())[n..]
            case Failed(n) => !ok && n <= |old(bytes.Rest())| && bytes.Rest() == old(bytes.Rest())[n..]
            case PastEnd => false
  {
    hide Decompress, ZigzagDecode;
    var x: uint64;
    ghost var before := bytes.Rest();
    OverrunIffCutShort(before);
    ok, x := DecompressNumber(bytes);
    if !ok {
      return false, U64(0);
    }
    if t != String {
      return true, DecodeNumber(t, x);
    }
    ghost var n := Decompress(before).n;
    var data;
    ok, data := bytes.Read(x);
    if ok {
      assert before[n..][..x] == before[n..n + x] && before[n..][x..] == before[n + x..];
      return true, Str(data);
    }
    v := U64(0);
  }

  method SerializeAll(vs: seq<Value>, out: WriteableByteArray)
    requires out.Valid() && out.Contents() == []
    modifies out, out.bytes
    ensures out.Valid() && out.Contents() == EncodeAll(vs)
  {
    hide Encode;
    for k := 0 to |vs|
      invariant out.Valid() && out.Contents() == EncodeAll(vs[..k])
      invariant out.bytes == old(out.bytes) || fresh(out.bytes)
    {
      Serialize(vs[k], out);
      assert vs[..k + 1][..k] == vs[..k];
    }
    assert vs[..|vs|] == vs;
  }

  /** Read values of the given types one after another. */
  method DeserializeAll(types: seq<Type>, bytes: ReadableByteArray, ghost vs: seq<Value>) returns (back: seq<Value>)
    requires bytes.Valid() && types == TypesOf(vs) && bytes.Rest() == EncodeAll(vs)
    modifies bytes
    ensures bytes.Valid() && back == vs && bytes.Rest() == []
  {
    hide Encode, Decode;
    back := [];
    for k := 0 to |types|
      invariant bytes.Valid() && bytes.Rest() == EncodeAll(vs[k..]) && back == vs[..k]
    {
      EncodeAllFirst(vs[k..]);
      EncodeRoundTrip(vs[k], EncodeAll(vs[k + 1..]));
      PastEndIffCutShort(types[k], bytes.Rest());
      assert vs[k..][1..] == vs[k + 1..];
      var ok, v := Deserialize(types[k], bytes);
      assert ok;
      back := back + [v];
    }
  }

  /** Any list of values, serialized and then deserialized with the list of its
      types, comes back the same, and the cursor stands at the end. */
  method RoundTrip(vs: seq<Value>, userFree: bool) returns (back: seq<Value>, left: seq<byte>)
    ensures back == vs && left == []
  {
    hide Encode, Decode, EncodeAll;
    var out := new WriteableByteArray(userFree);
    SerializeAll(vs, out);
    var data := out.Data();
    var bytes := new ReadableByteArray(data);
    back := DeserializeAll(TypesOf(vs), bytes, vs);
    left := bytes.Remain();
  }
}
