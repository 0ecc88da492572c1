/** .NET's `BinaryReader` over a `MemoryStream` and `BinaryWriter`, as objects with
    a cursor. A reader method answers `ok == false` where the .NET reader throws;
    on success it returns what the matching `Wire` function reads and leaves the
    cursor where that function says the item ends. */
module Cursor {
  import opened Wrappers
  import opened Wire

  /** The method outcome (`ok`, `v`, the new cursor `pos`) is the one `spec` describes. */
  ghost predicate Tracks<T>(ok: bool, v: T, spec: Parse<T>, pos: nat) {
    match spec
    case Fail => !ok
    case Ok(value, next) => ok && v == value && pos == next
  }

  /** What a 7-bit read started earlier comes to, given the value `acc` of the
      groups already read and the weight `scale` of the rest. */
  function Scaled(r: Parse<nat>, acc: nat, scale: nat): Parse<nat> {
    match r
    case Fail => Fail
    case Ok(u, next) => Ok(acc + scale * u, next)
  }

  /** One more group at `p`: a last byte completes the number, a continued byte
      moves its low seven bits into `acc` and the rest into the next group. */
  lemma ReadGroup(s: seq<byte>, p: nat, k: nat, acc: nat, scale: nat)
    requires k < 5 && p < |s|
    ensures s[p] < 128 ==>
              Scaled(Read7BitFrom(s, p, k), acc, scale) == Ok(acc + (s[p] as int % 128) * scale, p + 1)
    ensures s[p] >= 128 ==>
              Scaled(Read7BitFrom(s, p, k), acc, scale)
              == Scaled(Read7BitFrom(s, p + 1, k + 1), acc + (s[p] as int % 128) * scale, scale * 128)
  {
    var b := s[p] as nat;
    var rest := Read7BitFrom(s, p + 1, k + 1);
    if b >= 128 && rest.Ok? {
      assert b % 128 == b - 128;
      Distribute(acc, scale, b - 128, rest.value);
    }
  }

  lemma Distribute(acc: nat, scale: nat, low: nat, u: nat)
    ensures acc + scale * (low + 128 * u) == acc + low * scale + (scale * 128) * u
  {
    calc {
      scale * (low + 128 * u);
      scale * low + scale * (128 * u);
      { assert scale * (128 * u) == (scale * 128) * u; }
      low * scale + (scale * 128) * u;
    }
  }

  class Reader {
    /** The whole backing buffer of the memory stream. */
    const data: seq<byte>
    var pos: nat

    constructor (data: seq<byte>)
      ensures this.data == data && pos == 0
    {
      this.data := data;
      pos := 0;
    }

    method ReadByte() returns (ok: bool, b: byte)
      modifies this
      ensures Tracks(ok, b, ByteAt(data, old(pos)), pos)
    {
      if pos < |data| {
        ok, b := true, data[pos];
        pos := pos + 1;
      } else {
        ok, b := false, 0;
      }
    }

    method ReadBoolean() returns (ok: bool, v: bool)
      modifies this
      ensures Tracks(ok, v, BooleanAt(data, old(pos)), pos)
    {
      var b;
      ok, b := ReadByte();
      v := ok && b != 0;
    }

    method ReadInt32() returns (ok: bool, v: int)
      modifies this
      ensures Tracks(ok, v, Int32At(data, old(pos)), pos)
      ensures IsInt32(v)
    {
      Pow256Values();
      if pos + 4 <= |data| {
        ok, v := true, AsInt32(FromLE(data[pos..pos + 4]));
        pos := pos + 4;
      } else {
        ok, v := false, 0;
      }
    }

    method ReadInt64() returns (ok: bool, v: int)
      modifies this
      ensures Tracks(ok, v, Int64At(data, old(pos)), pos)
    {
      Pow256Values();
      if pos + 8 <= |data| {
        ok, v := true, AsInt64(FromLE(data[pos..pos + 8]));
        pos := pos + 8;
      } else {
        ok, v := false, 0;
      }
    }

    method ReadSingle() returns (ok: bool, w: Word32)
      modifies this
      ensures Tracks(ok, w, SingleAt(data, old(pos)), pos)
    {
      Pow256Values();
      if pos + 4 <= |data| {
        ok, w := true, FromLE(data[pos..pos + 4]) as Word32;
        pos := pos + 4;
      } else {
        ok, w := false, 0;
      }
    }

    /** The do-while loop of `Read7BitEncodedInt`: `acc` gathers the groups read
        so far, `scale` is the weight of the next one. */
    method Read7BitEncodedInt() returns (ok: bool, v: int)
      modifies this
      ensures Tracks(ok, v, Read7BitAt(data, old(pos)), pos)
    {
      var acc: nat, k: nat, scale: nat := 0, 0, 1;
      while true
        invariant k <= 5 && old(pos) <= pos
        invariant Read7BitFrom(data, old(pos), 0) == Scaled(Read7BitFrom(data, pos, k), acc, scale)
        decreases 5 - k
      {
        if k == 5 || pos >= |data| {
          return false, 0;
        }
        var b := data[pos];
        ReadGroup(data, pos, k, acc, scale);
        pos := pos + 1;
        acc := acc + (b as int % 128) * scale;
        k, scale := k + 1, scale * 128;
        if b < 128 {
          return true, AsInt32(acc % TWO32);
        }
      }
    }

    method ReadString() returns (ok: bool, str: string)
      modifies this
      ensures Tracks(ok, str, StringAt(data, old(pos)), pos)
    {
      var n;
      ok, n := Read7BitEncodedInt();
      if !ok || n < 0 || pos + n > |data| {
        return false, "";
      }
      str := Utf8Decode(data[pos..pos + n]);
      pos := pos + n;
    }

    method ReadBytes(count: int) returns (ok: bool, bytes: seq<byte>)
      modifies this
      ensures Tracks(ok, bytes, BytesAt(data, old(pos), count), pos)
    {
      if count < 0 {
        return false, [];
      }
      ok := true;
      if pos + count <= |data| {
        bytes := data[pos..pos + count];
        pos := pos + count;
      } else if pos <= |data| {
        bytes := data[pos..];
        pos := |data|;
      } else {
        bytes := [];
      }
    }

    /** The number of bytes left after position `p`. */
    function Remaining(p: nat): nat
      reads this
    {
      if p <= |data| then |data| - p else 0
    }

    /** `Read(buffer, index, count)`: copies the next `count` bytes, or as many as
        remain, into `buffer` from `index` on, without failing at the end of the
        data, and answers how many it copied. The rest of `buffer` is untouched. */
    method Read(buffer: array<byte>, index: nat, count: nat) returns (n: nat)
      requires index + count <= buffer.Length
      modifies this, buffer
      ensures n == if count <= Remaining(old(pos)) then count else Remaining(old(pos))
      ensures pos == old(pos) + n
      ensures n > 0 ==> buffer[index..index + n] == data[old(pos)..old(pos) + n]
      ensures buffer[..index] == old(buffer[..index])
      ensures buffer[index + n..] == old(buffer[index + n..])
    {
      n := if count <= Remaining(pos) then count else Remaining(pos);
      var start := pos;
      for i := 0 to n
        invariant pos == start + i && (n == 0 || start + n <= |data|)
        invariant n > 0 ==> buffer[index..index + i] == data[start..start + i]
        invariant buffer[..index] == old(buffer[..index])
        invariant buffer[index + i..] == old(buffer[index + i..])
      {
        buffer[index + i] := data[pos];
        assert buffer[index..index + i + 1] == buffer[index..index + i] + [data[pos]];
        pos := pos + 1;
      }
    }

    /** Hands the stream to a deserializer defined elsewhere, which reads from the
        cursor and leaves it where its own format ends. */
    method Delegate<T(0)>(read: (seq<byte>, nat) -> Parse<T>) returns (ok: bool, v: T)
      modifies this
      ensures Tracks(ok, v, read(data, old(pos)), pos)
    {
      var r := read(data, pos);
      match r
      case Fail => ok, v := false, *;
      case Ok(value, next) => ok, v, pos := true, value, next;
    }
  }

  class Writer {
    var bytes: seq<byte>

    constructor ()
      ensures bytes == []
    {
      bytes := [];
    }

    method WriteBoolean(b: bool)
      modifies this
      ensures bytes == old(bytes) + EncBoolean(b)
    {
      bytes := bytes + [if b then 1 else 0];
    }

    method WriteInt32(v: int)
      requires IsInt32(v)
      modifies this
      ensures bytes == old(bytes) + EncInt32(v)
    {
      bytes := bytes + LE(AsUInt32(v), 4);
    }

    method WriteInt64(v: int)
      requires IsInt64(v)
      modifies this
      ensures bytes == old(bytes) + EncInt64(v)
    {
      bytes := bytes + LE(AsUInt64(v), 8);
    }

    method WriteSingle(w: Word32)
      modifies this
      ensures bytes == old(bytes) + EncSingle(w)
    {
      bytes := bytes + LE(w, 4);
    }

    method WriteBytes(b: seq<byte>)
      modifies this
      ensures bytes == old(bytes) + b
    {
      bytes := bytes + b;
    }

    /** The loop of `Write7BitEncodedInt`. */
    method Write7BitEncodedInt(u: nat)
      modifies this
      ensures bytes == old(bytes) + Enc7Bit(u)
    {
      var v := u;
      while v >= 128
        invariant old(bytes) + Enc7Bit(u) == bytes + Enc7Bit(v)
      {
        bytes := bytes + [(v % 128 + 128) as byte];
        v := v / 128;
      }
      bytes := bytes + [v as byte];
    }

    method WriteString(str: string)
      requires Writable(str)
      modifies this
      ensures bytes == old(bytes) + EncString(str)
    {
      var utf8 := Utf8Encode(str);
      Write7BitEncodedInt(|utf8|);
      bytes := bytes + utf8;
    }
  }
}
