/** The byte-level conventions of .NET's `BinaryReader`/`BinaryWriter`, which every
    container of the model is written in: little-endian fixed-width integers,
    floats kept as their 32-bit patterns, one-byte booleans, and strings as a
    7-bit-encoded byte count followed by the UTF-8 bytes.

    Each `...At(s, p)` function reads one item of the data `s` starting at position
    `p`, and fails where the .NET reader throws (a read past the end of the data or
    a malformed length). Each `Enc...` function is what the writer emits, and a
    lemma states that reading back what was written gives the value and consumes
    exactly its bytes, whatever surrounds them. */
module Wire {
  import opened Wrappers

  newtype byte = x: int | 0 <= x < 256

  /** An IEEE single-precision float, kept as its bit pattern: no arithmetic on
      floats is modelled. */
  type Word32 = w: nat | w < 0x1_0000_0000

  const TWO31: int := 0x8000_0000
  const TWO32: int := 0x1_0000_0000
  const TWO63: int := 0x8000_0000_0000_0000
  const TWO64: int := 0x1_0000_0000_0000_0000

  predicate IsInt32(v: int) { -TWO31 <= v < TWO31 }
  predicate IsInt64(v: int) { -TWO63 <= v < TWO63 }

  /** `e` is found in `s` at position `p`. */
  predicate At(s: seq<byte>, p: nat, e: seq<byte>) {
    p + |e| <= |s| && s[p..p + |e|] == e
  }

  lemma AtSplit(s: seq<byte>, p: nat, a: seq<byte>, b: seq<byte>)
    requires At(s, p, a + b)
    ensures At(s, p, a) && At(s, p + |a|, b)
  {
    assert s[p..p + |a|] == (a + b)[..|a|];
    assert s[p + |a|..p + |a| + |b|] == (a + b)[|a|..];
  }

  /** Four pieces written one after another, regrouped to the right. */
  lemma AppendFour(s: seq<byte>, a: seq<byte>, b: seq<byte>, c: seq<byte>, d: seq<byte>)
    ensures s + a + b + c + d == s + (a + (b + (c + d)))
  {
  }

  lemma AppendFive(s: seq<byte>, a: seq<byte>, b: seq<byte>, c: seq<byte>, d: seq<byte>, e: seq<byte>)
    ensures s + a + b + c + d + e == s + (a + ((b + c) + (d + e)))
  {
  }

  // ---------------------------------------------------------------------------
  // Little-endian fixed-width words

  function Pow256(n: nat): (r: nat)
    ensures r >= 1
  {
    if n == 0 then 1 else 256 * Pow256(n - 1)
  }

  /** The `n` low-order bytes of `u`, least significant first. */
  function LE(u: nat, n: nat): (r: seq<byte>)
    ensures |r| == n
  {
    if n == 0 then [] else [(u % 256) as byte] + LE(u / 256, n - 1)
  }

  /** The unsigned value of little-endian bytes. */
  function FromLE(s: seq<byte>): (r: nat)
    ensures r < Pow256(|s|)
  {
    if s == [] then 0 else s[0] as nat + 256 * FromLE(s[1..])
  }

  lemma {:induction false} FromLEOfLE(u: nat, n: nat)
    requires u < Pow256(n)
    ensures FromLE(LE(u, n)) == u
  {
    if n > 0 {
      var e := LE(u, n);
      assert e[1..] == LE(u / 256, n - 1);
      FromLEOfLE(u / 256, n - 1);
    }
  }

  lemma Pow256Values()
    ensures Pow256(4) == TWO32 && Pow256(8) == TWO64
  {
    assert Pow256(2) == 65536;
    assert Pow256(4) == 65536 * 65536 by {
      assert Pow256(3) == 256 * 65536;
    }
    assert Pow256(6) == 65536 * TWO32 by {
      assert Pow256(5) == 256 * TWO32;
    }
    assert Pow256(8) == 65536 * Pow256(6) by {
      assert Pow256(7) == 256 * Pow256(6);
    }
  }

  function AsInt32(u: nat): (v: int)
    requires u < TWO32
    ensures IsInt32(v)
  {
    if u < TWO31 then u else u - TWO32
  }

  function AsUInt32(v: int): (u: nat)
    requires IsInt32(v)
    ensures u < TWO32
  {
    if v < 0 then v + TWO32 else v
  }

  function AsInt64(u: nat): (v: int)
    requires u < TWO64
    ensures IsInt64(v)
  {
    if u < TWO63 then u else u - TWO64
  }

  function AsUInt64(v: int): (u: nat)
    requires IsInt64(v)
    ensures u < TWO64
  {
    if v < 0 then v + TWO64 else v
  }

  // ---------------------------------------------------------------------------
  // Fixed-width reads (ReadByte, ReadBoolean, ReadInt32, ReadInt64, ReadSingle)

  function ByteAt(s: seq<byte>, p: nat): (r: Parse<byte>)
    ensures r.Ok? <==> p < |s|
    ensures r.Ok? ==> r.value == s[p] && r.next == p + 1
  {
    if p < |s| then Ok(s[p], p + 1) else Fail
  }

  /** `ReadBoolean`: one byte, true iff it is not zero. */
  function BooleanAt(s: seq<byte>, p: nat): Parse<bool> {
    var b :- ByteAt(s, p);
    Ok(b.value != 0, b.next)
  }

  /** `n` bytes as an unsigned little-endian number. */
  function FixedAt(s: seq<byte>, p: nat, n: nat): (r: Parse<nat>)
    ensures r.Ok? <==> p + n <= |s|
    ensures r.Ok? ==> r.next == p + n && r.value < Pow256(n)
  {
    if p + n <= |s| then Ok(FromLE(s[p..p + n]), p + n) else Fail
  }

  function Int32At(s: seq<byte>, p: nat): (r: Parse<int>)
    ensures r.Ok? ==> IsInt32(r.value)
  {
    var w :- FixedAt(s, p, 4);
    Pow256Values();
    Ok(AsInt32(w.value), w.next)
  }

  function Int64At(s: seq<byte>, p: nat): (r: Parse<int>)
    ensures r.Ok? ==> IsInt64(r.value)
  {
    var w :- FixedAt(s, p, 8);
    Pow256Values();
    Ok(AsInt64(w.value), w.next)
  }

  /** `ReadSingle`: four bytes, kept as the float's bit pattern. */
  function SingleAt(s: seq<byte>, p: nat): Parse<Word32> {
    var w :- FixedAt(s, p, 4);
    Pow256Values();
    Ok(w.value as Word32, w.next)
  }

  function EncByte(b: byte): seq<byte> { [b] }

  function EncBoolean(b: bool): seq<byte> { [if b then 1 else 0] }

  function EncInt32(v: int): (e: seq<byte>)
    requires IsInt32(v)
    ensures |e| == 4
  {
    LE(AsUInt32(v), 4)
  }

  function EncInt64(v: int): (e: seq<byte>)
    requires IsInt64(v)
    ensures |e| == 8
  {
    LE(AsUInt64(v), 8)
  }

  function EncSingle(w: Word32): (e: seq<byte>)
    ensures |e| == 4
  {
    LE(w, 4)
  }

  lemma BooleanRoundTrip(s: seq<byte>, p: nat, b: bool)
    requires At(s, p, EncBoolean(b))
    ensures BooleanAt(s, p) == Ok(b, p + 1)
  {
    assert s[p] == EncBoolean(b)[0];
  }

  lemma Int32RoundTrip(s: seq<byte>, p: nat, v: int)
    requires IsInt32(v) && At(s, p, EncInt32(v))
    ensures Int32At(s, p) == Ok(v, p + 4)
  {
    Pow256Values();
    FromLEOfLE(AsUInt32(v), 4);
  }

  lemma Int64RoundTrip(s: seq<byte>, p: nat, v: int)
    requires IsInt64(v) && At(s, p, EncInt64(v))
    ensures Int64At(s, p) == Ok(v, p + 8)
  {
    Pow256Values();
    FromLEOfLE(AsUInt64(v), 8);
  }

  /** A word read in front of `rest`: the value, and `rest` where it ends. */
  lemma Int32Then(s: seq<byte>, p: nat, v: int, rest: seq<byte>, q: nat)
    requires IsInt32(v) && At(s, p, EncInt32(v) + rest) && q == p + 4
    ensures Int32At(s, p) == Ok(v, q) && At(s, q, rest)
  {
    AtSplit(s, p, EncInt32(v), rest);
    Int32RoundTrip(s, p, v);
  }

  lemma Int64Then(s: seq<byte>, p: nat, v: int, rest: seq<byte>, q: nat)
    requires IsInt64(v) && At(s, p, EncInt64(v) + rest) && q == p + 8
    ensures Int64At(s, p) == Ok(v, q) && At(s, q, rest)
  {
    AtSplit(s, p, EncInt64(v), rest);
    Int64RoundTrip(s, p, v);
  }

  lemma SingleThen(s: seq<byte>, p: nat, w: Word32, rest: seq<byte>, q: nat)
    requires At(s, p, EncSingle(w) + rest) && q == p + 4
    ensures SingleAt(s, p) == Ok(w, q) && At(s, q, rest)
  {
    AtSplit(s, p, EncSingle(w), rest);
    SingleRoundTrip(s, p, w);
  }

  lemma SingleRoundTrip(s: seq<byte>, p: nat, w: Word32)
    requires At(s, p, EncSingle(w))
    ensures SingleAt(s, p) == Ok(w, p + 4)
  {
    Pow256Values();
    FromLEOfLE(w, 4);
  }

  // ---------------------------------------------------------------------------
  // 7-bit encoded Int32 (the length prefix of a string)

  function Pow128(k: nat): (r: nat)
    ensures r >= 1
  {
    if k == 0 then 1 else 128 * Pow128(k - 1)
  }

  /** `Write7BitEncodedInt` of a non-negative value: seven bits per byte, low
      groups first, the high bit set on every byte but the last. */
  function Enc7Bit(u: nat): (e: seq<byte>)
    ensures |e| >= 1
  {
    if u < 128 then [u as byte] else [(u % 128 + 128) as byte] + Enc7Bit(u / 128)
  }

  /** The unsigned value of the 7-bit groups at `p`, when `k` bytes of the same
      number were read before them: low groups first, while the high bit is
      set. Reading a fifth byte that still carries the high bit is a
      `FormatException`. */
  function Read7BitFrom(s: seq<byte>, p: nat, k: nat): (r: Parse<nat>)
    requires k <= 5
    ensures r.Ok? ==> p < r.next <= |s|
    decreases 5 - k
  {
    if k == 5 || p >= |s| then Fail
    else if s[p] < 128 then Ok(s[p] as nat, p + 1)
    else
      var rest :- Read7BitFrom(s, p + 1, k + 1);
      Ok(s[p] as nat - 128 + 128 * rest.value, rest.next)
  }

  /** `Read7BitEncodedInt`: the low 32 bits of the value read as a signed Int32
      (the bits of a fifth byte above bit 31 are shifted out). */
  function Read7BitAt(s: seq<byte>, p: nat): (r: Parse<int>)
    ensures r.Ok? ==> p < r.next <= |s|
  {
    var u :- Read7BitFrom(s, p, 0);
    Ok(AsInt32(u.value % TWO32), u.next)
  }

  lemma {:induction false} Enc7BitShort(u: nat, m: nat)
    requires 1 <= m && u < Pow128(m)
    ensures |Enc7Bit(u)| <= m
    decreases m
  {
    if u >= 128 {
      assert Pow128(1) == 128;
      assert Pow128(m) == 128 * Pow128(m - 1);
      Enc7BitShort(u / 128, m - 1);
      assert Enc7Bit(u) == [(u % 128 + 128) as byte] + Enc7Bit(u / 128);
    }
  }

  lemma Pow128Five()
    ensures Pow128(5) == 0x8_0000_0000
  {
    assert Pow128(2) == 16384;
    assert Pow128(4) == 16384 * 16384 by {
      assert Pow128(3) == 128 * 16384;
    }
  }

  lemma {:induction false} Read7BitFromEnc(s: seq<byte>, p: nat, k: nat, u: nat)
    requires k + |Enc7Bit(u)| <= 5
    requires At(s, p, Enc7Bit(u))
    ensures Read7BitFrom(s, p, k) == Ok(u, p + |Enc7Bit(u)|)
    decreases u
  {
    assert s[p] == Enc7Bit(u)[0];
    if u >= 128 {
      AtSplit(s, p, [(u % 128 + 128) as byte], Enc7Bit(u / 128));
      Read7BitFromEnc(s, p + 1, k + 1, u / 128);
    }
  }

  /** A length below 2^31 round-trips through the 7-bit form. */
  lemma Read7BitRoundTrip(s: seq<byte>, p: nat, n: nat)
    requires n < TWO31 && At(s, p, Enc7Bit(n))
    ensures |Enc7Bit(n)| <= 5
    ensures Read7BitAt(s, p) == Ok(n, p + |Enc7Bit(n)|)
  {
    Pow128Five();
    Enc7BitShort(n, 5);
    Read7BitFromEnc(s, p, 0, n);
  }

  // ---------------------------------------------------------------------------
  // UTF-8

  predicate IsContinuation(b: byte) { 0x80 <= b < 0xC0 }

  predicate IsScalar(cp: int) { 0 <= cp < 0xD800 || 0xE000 <= cp < 0x11_0000 }

  const Replacement: char := 0xFFFD as char

  /** The UTF-8 bytes of one code point. */
  function Utf8EncodeChar(c: char): (e: seq<byte>)
    ensures 1 <= |e| <= 4
  {
    var cp := c as int;
    if cp < 0x80 then [cp as byte]
    else if cp < 0x800 then [(0xC0 + cp / 64) as byte, (0x80 + cp % 64) as byte]
    else if cp < 0x1_0000 then
      [(0xE0 + cp / 4096) as byte, (0x80 + (cp / 64) % 64) as byte, (0x80 + cp % 64) as byte]
    else
      [(0xF0 + cp / 262144) as byte, (0x80 + (cp / 4096) % 64) as byte,
       (0x80 + (cp / 64) % 64) as byte, (0x80 + cp % 64) as byte]
  }

  function Utf8Encode(str: string): (e: seq<byte>)
    ensures |e| >= |str|
  {
    if str == [] then [] else Utf8EncodeChar(str[0]) + Utf8Encode(str[1..])
  }

  predicate IsAscii(str: string) {
    forall i :: 0 <= i < |str| ==> str[i] as int < 0x80
  }

  /** An ASCII string is encoded one byte per character. */
  lemma {:induction false} Utf8EncodeAscii(str: string)
    requires IsAscii(str)
    ensures |Utf8Encode(str)| == |str|
    ensures forall i :: 0 <= i < |str| ==> Utf8Encode(str)[i] as int == str[i] as int
  {
    if str != [] {
      assert IsAscii(str[1..]) by {
        assert forall i :: 0 <= i < |str[1..]| ==> str[1..][i] == str[i + 1];
      }
      Utf8EncodeAscii(str[1..]);
    }
  }

  /** The wire form of a short ASCII string: its length byte, then its characters. */
  lemma AsciiStringEncoding(str: string, wire: seq<byte>)
    requires IsAscii(str) && |str| < 0x80
    requires |wire| == |str| + 1 && wire[0] as int == |str|
    requires forall i :: 0 <= i < |str| ==> wire[i + 1] as int == str[i] as int
    ensures Writable(str) && Enc7Bit(|Utf8Encode(str)|) + Utf8Encode(str) == wire
  {
    Utf8EncodeAscii(str);
    Utf8LengthOfEncode(str);
    assert Enc7Bit(|str|) == [|str| as byte];
    assert Utf8Encode(str) == wire[1..];
  }

  function Cp2(s: seq<byte>): int requires |s| >= 2 {
    (s[0] as int - 0xC0) * 64 + (s[1] as int - 0x80)
  }

  function Cp3(s: seq<byte>): int requires |s| >= 3 {
    (s[0] as int - 0xE0) * 4096 + (s[1] as int - 0x80) * 64 + (s[2] as int - 0x80)
  }

  function Cp4(s: seq<byte>): int requires |s| >= 4 {
    (s[0] as int - 0xF0) * 262144 + (s[1] as int - 0x80) * 4096
      + (s[2] as int - 0x80) * 64 + (s[3] as int - 0x80)
  }

  /** Decodes the code point at the head of `s`, and how many bytes it takes. A
      byte that does not start a well-formed shortest-form sequence decodes to
      U+FFFD and takes one byte. */
  function Utf8DecodeStep(s: seq<byte>): (r: (char, nat))
    requires |s| > 0
    ensures 1 <= r.1 <= |s|
  {
    var b0 := s[0];
    if b0 < 0x80 then (b0 as int as char, 1)
    else if 0xC2 <= b0 < 0xE0 && |s| >= 2 && IsContinuation(s[1]) then
      (Cp2(s) as char, 2)
    else if 0xE0 <= b0 < 0xF0 && |s| >= 3 && IsContinuation(s[1]) && IsContinuation(s[2])
            && 0x800 <= Cp3(s) && IsScalar(Cp3(s)) then
      (Cp3(s) as char, 3)
    else if 0xF0 <= b0 < 0xF5 && |s| >= 4 && IsContinuation(s[1]) && IsContinuation(s[2])
            && IsContinuation(s[3]) && 0x1_0000 <= Cp4(s) < 0x11_0000 then
      (Cp4(s) as char, 4)
    else (Replacement, 1)
  }

  function Utf8Decode(s: seq<byte>): string
    decreases |s|
  {
    if s == [] then [] else
      var (c, n) := Utf8DecodeStep(s);
      [c] + Utf8Decode(s[n..])
  }

  lemma Utf8DecodeStepOfChar(c: char, rest: seq<byte>)
    ensures Utf8DecodeStep(Utf8EncodeChar(c) + rest) == (c, |Utf8EncodeChar(c)|)
  {
    var cp := c as int;
    if cp < 0x80 {
    } else if cp < 0x800 {
      DecodeTwo(c, rest);
    } else if cp < 0x1_0000 {
      DecodeThree(c, rest);
    } else {
      DecodeFour(c, rest);
    }
  }

  lemma DecodeTwo(c: char, rest: seq<byte>)
    requires 0x80 <= c as int < 0x800
    ensures Utf8DecodeStep(Utf8EncodeChar(c) + rest) == (c, 2)
  {
    var s := Utf8EncodeChar(c) + rest;
    assert Cp2(s) == c as int;
  }

  lemma DecodeThree(c: char, rest: seq<byte>)
    requires 0x800 <= c as int < 0x1_0000
    ensures Utf8DecodeStep(Utf8EncodeChar(c) + rest) == (c, 3)
  {
    var cp := c as int;
    var s := Utf8EncodeChar(c) + rest;
    assert (cp / 64) % 64 * 64 + cp % 64 == cp % 4096;
    assert Cp3(s) == cp;
  }

  lemma DecodeFour(c: char, rest: seq<byte>)
    requires 0x1_0000 <= c as int
    ensures Utf8DecodeStep(Utf8EncodeChar(c) + rest) == (c, 4)
  {
    var cp := c as int;
    var e := Utf8EncodeChar(c);
    var s := e + rest;
    FourSixBitGroups(cp);
    assert s[0] == e[0] && s[1] == e[1] && s[2] == e[2] && s[3] == e[3];
    assert Cp4(s) == cp;
  }

  /** A code point above the BMP splits into a 3-bit lead and three 6-bit groups. */
  lemma FourSixBitGroups(cp: int)
    requires 0x1_0000 <= cp < 0x11_0000
    ensures cp / 262144 < 5
    ensures cp / 262144 * 262144 + (cp / 4096) % 64 * 4096 + (cp / 64) % 64 * 64 + cp % 64 == cp
  {
    var lead, low18 := cp / 262144, cp % 262144;
    var g1, low12 := low18 / 4096, low18 % 4096;
    var g2, g3 := low12 / 64, low12 % 64;
    assert cp / 4096 == 64 * lead + g1;
    assert (cp / 4096) % 64 == g1;
    assert cp / 64 == 64 * (64 * lead + g1) + g2;
    assert (cp / 64) % 64 == g2;
    assert cp % 64 == g3;
  }

  lemma {:induction false} Utf8RoundTrip(str: string)
    ensures Utf8Decode(Utf8Encode(str)) == str
  {
    if str != [] {
      var e0 := Utf8EncodeChar(str[0]);
      var rest := Utf8Encode(str[1..]);
      Utf8DecodeStepOfChar(str[0], rest);
      assert (e0 + rest)[|e0|..] == rest;
      Utf8RoundTrip(str[1..]);
    }
  }

  // ---------------------------------------------------------------------------
  // Strings (ReadString / Write(string))

  /** A string the writer can emit: its UTF-8 byte count fits the Int32 prefix. */
  predicate Writable(str: string) { Utf8Length(str) < TWO31 }

  /** How many bytes UTF-8 takes for one character. */
  function Utf8CharLength(c: char): nat {
    if c as int < 0x80 then 1 else if c as int < 0x800 then 2 else if c as int < 0x1_0000 then 3 else 4
  }

  /** The UTF-8 byte count of a string, counted character by character. */
  function Utf8Length(str: string): nat {
    if str == [] then 0 else Utf8CharLength(str[0]) + Utf8Length(str[1..])
  }

  lemma {:induction false} Utf8LengthOfEncode(str: string)
    ensures |Utf8Encode(str)| == Utf8Length(str)
  {
    if str != [] {
      Utf8LengthOfEncode(str[1..]);
    }
  }

  function EncString(str: string): (e: seq<byte>)
    requires Writable(str)
  {
    Enc7Bit(|Utf8Encode(str)|) + Utf8Encode(str)
  }

  /** `ReadString`: a negative length is an `IOException`, fewer bytes than the
      length an `EndOfStreamException`. */
  function StringAt(s: seq<byte>, p: nat): (r: Parse<string>)
    ensures r.Ok? ==> p < r.next <= |s|
  {
    var n :- Read7BitAt(s, p);
    if n.value < 0 || n.next + n.value > |s| then Fail
    else
      Ok(Utf8Decode(s[n.next..n.next + n.value]), n.next + n.value)
  }

  lemma StringRoundTrip(s: seq<byte>, p: nat, str: string)
    requires Writable(str) && At(s, p, EncString(str))
    ensures StringAt(s, p) == Ok(str, p + |EncString(str)|)
  {
    var u := Utf8Encode(str);
    var q := p + |Enc7Bit(|u|)|;
    assert Read7BitAt(s, p) == Ok(|u|, q) && At(s, q, u) by {
      Utf8LengthOfEncode(str);
      AtSplit(s, p, Enc7Bit(|u|), u);
      Read7BitRoundTrip(s, p, |u|);
    }
    assert Utf8Decode(s[q..q + |u|]) == str by {
      Utf8RoundTrip(str);
    }
  }

  /** `ReadBytes(count)`: a negative count is an `ArgumentOutOfRangeException`;
      otherwise it returns as many of the `count` bytes as remain, without
      failing at the end of the data. */
  function BytesAt(s: seq<byte>, p: nat, count: int): (r: Parse<seq<byte>>)
    ensures r.Ok? <==> count >= 0
    ensures r.Ok? ==> |r.value| <= count && r.next == p + |r.value|
    ensures r.Ok? && p + count <= |s| ==> r.value == s[p..p + count]
  {
    if count < 0 then Fail
    else if p + count <= |s| then Ok(s[p..p + count], p + count)
    else if p <= |s| then Ok(s[p..], |s|)
    else Ok([], p)
  }
}
