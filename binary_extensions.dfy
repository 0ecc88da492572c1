/** `BinaryExtensions`: nullable strings, fixed-width vectors and matrices, and part
    types stored by name, on top of the .NET reader and writer. */
module BinaryExtensions {
  import opened Wrappers
  import opened Wire
  import opened Cursor

  datatype Vector2 = Vector2(x: Word32, y: Word32)
  datatype Vector3 = Vector3(x: Word32, y: Word32, z: Word32)
  datatype Vector4 = Vector4(x: Word32, y: Word32, z: Word32, w: Word32)
  datatype Quaternion = Quaternion(x: Word32, y: Word32, z: Word32, w: Word32)

  /** The 4-byte word at byte position `i`. */
  function WordAt(s: seq<byte>, i: nat): Word32
    requires i + 4 <= |s|
  {
    Pow256Values();
    FromLE(s[i..i + 4]) as Word32
  }

  // ---------------------------------------------------------------------------
  // Nullable strings

  /** `ReadNullableString`: a presence flag, then the string only when the flag is
      set. A clear flag consumes that one byte and nothing else. */
  function NullableStringAt(s: seq<byte>, p: nat): (r: Parse<Option<string>>)
    ensures r.Ok? <==> p < |s| && (s[p] != 0 ==> StringAt(s, p + 1).Ok?)
    ensures p < |s| && s[p] == 0 ==> r == Ok(None, p + 1)
    ensures r.Ok? && r.value.Some? ==> StringAt(s, p + 1) == Ok(r.value.value, r.next)
  {
    var flag :- BooleanAt(s, p);
    if !flag.value then Ok(None, flag.next)
    else
      var str :- StringAt(s, flag.next);
      Ok(Some(str.value), str.next)
  }

  predicate NullableWritable(o: Option<string>) {
    o.Some? ==> Writable(o.value)
  }

  /** `WriteNullableString`: the flag byte, then the string when there is one. A
      null string is the single byte 0. */
  function EncNullableString(o: Option<string>): (e: seq<byte>)
    requires NullableWritable(o)
    ensures o.None? <==> e == [0]
    ensures o.Some? ==> e == [1] + EncString(o.value)
  {
    match o
    case None => EncBoolean(false)
    case Some(str) => EncBoolean(true) + EncString(str)
  }

  lemma NullableStringRoundTrip(s: seq<byte>, p: nat, o: Option<string>)
    requires NullableWritable(o) && At(s, p, EncNullableString(o))
    ensures NullableStringAt(s, p) == Ok(o, p + |EncNullableString(o)|)
  {
    match o
    case None =>
      assert s[p] == 0;
    case Some(str) =>
      AtSplit(s, p, [1], EncString(str));
      StringRoundTrip(s, p + 1, str);
  }

  lemma NullableThen(s: seq<byte>, p: nat, o: Option<string>, rest: seq<byte>, q: nat)
    requires NullableWritable(o) && At(s, p, EncNullableString(o) + rest) && q == p + |EncNullableString(o)|
    ensures NullableStringAt(s, p) == Ok(o, q) && At(s, q, rest)
  {
    AtSplit(s, p, EncNullableString(o), rest);
    NullableStringRoundTrip(s, p, o);
  }

  method ReadNullableString(reader: Reader) returns (ok: bool, v: Option<string>)
    modifies reader
    ensures Tracks(ok, v, NullableStringAt(reader.data, old(reader.pos)), reader.pos)
  {
    var present;
    ok, present := reader.ReadBoolean();
    if !ok || !present {
      return ok, None;
    }
    var str;
    ok, str := reader.ReadString();
    v := Some(str);
  }

  method WriteNullableString(writer: Writer, o: Option<string>)
    requires NullableWritable(o)
    modifies writer
    ensures writer.bytes == old(writer.bytes) + EncNullableString(o)
  {
    writer.WriteBoolean(o.Some?);
    if o.Some? {
      writer.WriteString(o.value);
    }
  }

  // ---------------------------------------------------------------------------
  // Fixed-width reads

  /** `n` consecutive `ReadSingle` calls: the words at `p`, `p + 4`, ... in order. */
  function SinglesAt(s: seq<byte>, p: nat, n: nat): (r: Parse<seq<Word32>>)
    ensures n > 0 ==> (r.Ok? <==> p + 4 * n <= |s|)
    ensures r.Ok? ==> r.next == p + 4 * n && |r.value| == n
    ensures r.Ok? ==> forall k :: 0 <= k < n ==> r.value[k] == WordAt(s, p + 4 * k)
    decreases n
  {
    if n == 0 then Ok([], p)
    else
      var first :- SingleAt(s, p);
      var rest :- SinglesAt(s, first.next, n - 1);
      Ok([first.value] + rest.value, rest.next)
  }

  function Vector2At(s: seq<byte>, p: nat): (r: Parse<Vector2>)
    ensures r.Ok? <==> p + 8 <= |s|
    ensures r.Ok? ==> r.next == p + 8 && r.value == Vector2(WordAt(s, p), WordAt(s, p + 4))
  {
    var w :- SinglesAt(s, p, 2);
    Ok(Vector2(w.value[0], w.value[1]), w.next)
  }

  function Vector3At(s: seq<byte>, p: nat): (r: Parse<Vector3>)
    ensures r.Ok? <==> p + 12 <= |s|
    ensures r.Ok? ==> r.next == p + 12
    ensures r.Ok? ==> r.value == Vector3(WordAt(s, p), WordAt(s, p + 4), WordAt(s, p + 8))
  {
    var w :- SinglesAt(s, p, 3);
    Ok(Vector3(w.value[0], w.value[1], w.value[2]), w.next)
  }

  function Vector4At(s: seq<byte>, p: nat): (r: Parse<Vector4>)
    ensures r.Ok? <==> p + 16 <= |s|
    ensures r.Ok? ==> r.next == p + 16
    ensures r.Ok? ==> r.value == Vector4(WordAt(s, p), WordAt(s, p + 4), WordAt(s, p + 8), WordAt(s, p + 12))
  {
    var w :- SinglesAt(s, p, 4);
    Ok(Vector4(w.value[0], w.value[1], w.value[2], w.value[3]), w.next)
  }

  function QuaternionAt(s: seq<byte>, p: nat): (r: Parse<Quaternion>)
    ensures r.Ok? <==> p + 16 <= |s|
    ensures r.Ok? ==> r.next == p + 16
    ensures r.Ok? ==> r.value == Quaternion(WordAt(s, p), WordAt(s, p + 4), WordAt(s, p + 8), WordAt(s, p + 12))
  {
    var w :- SinglesAt(s, p, 4);
    Ok(Quaternion(w.value[0], w.value[1], w.value[2], w.value[3]), w.next)
  }

  method ReadVector2(reader: Reader) returns (ok: bool, v: Vector2)
    modifies reader
    ensures Tracks(ok, v, Vector2At(reader.data, old(reader.pos)), reader.pos)
  {
    var ok1, x := reader.ReadSingle();
    var ok2, y := reader.ReadSingle();
    ok, v := ok1 && ok2, Vector2(x, y);
  }

  method ReadVector3(reader: Reader) returns (ok: bool, v: Vector3)
    modifies reader
    ensures Tracks(ok, v, Vector3At(reader.data, old(reader.pos)), reader.pos)
  {
    var ok1, x := reader.ReadSingle();
    var ok2, y := reader.ReadSingle();
    var ok3, z := reader.ReadSingle();
    ok, v := ok1 && ok2 && ok3, Vector3(x, y, z);
  }

  method ReadVector4(reader: Reader) returns (ok: bool, v: Vector4)
    modifies reader
    ensures Tracks(ok, v, Vector4At(reader.data, old(reader.pos)), reader.pos)
  {
    var ok1, x := reader.ReadSingle();
    var ok2, y := reader.ReadSingle();
    var ok3, z := reader.ReadSingle();
    var ok4, w := reader.ReadSingle();
    ok, v := ok1 && ok2 && ok3 && ok4, Vector4(x, y, z, w);
  }

  method ReadQuaternion(reader: Reader) returns (ok: bool, q: Quaternion)
    modifies reader
    ensures Tracks(ok, q, QuaternionAt(reader.data, old(reader.pos)), reader.pos)
  {
    var ok1, x := reader.ReadSingle();
    var ok2, y := reader.ReadSingle();
    var ok3, z := reader.ReadSingle();
    var ok4, w := reader.ReadSingle();
    ok, q := ok1 && ok2 && ok3 && ok4, Quaternion(x, y, z, w);
  }

  /** `ReadMatrix4x4`: sixteen singles stored into elements 0..15 in turn. */
  method ReadMatrix4x4(reader: Reader) returns (ok: bool, m: seq<Word32>)
    modifies reader
    ensures Tracks(ok, m, SinglesAt(reader.data, old(reader.pos), 16), reader.pos)
    ensures ok ==> |m| == 16
  {
    var result := new Word32[16];
    var start := reader.pos;
    for i := 0 to 16
      invariant reader.pos == start + 4 * i
      invariant forall k :: 0 <= k < i ==>
                  start + 4 * k + 4 <= |reader.data| && result[k] == WordAt(reader.data, start + 4 * k)
    {
      var okI, w := reader.ReadSingle();
      if !okI {
        return false, [];
      }
      result[i] := w;
    }
    ok, m := true, result[..];
    assert m == SinglesAt(reader.data, start, 16).value;
  }

  // ---------------------------------------------------------------------------
  // Writing a Vector3

  function EncVector3(v: Vector3): (e: seq<byte>)
    ensures |e| == 12
  {
    EncSingle(v.x) + EncSingle(v.y) + EncSingle(v.z)
  }

  method WriteVector3(writer: Writer, v: Vector3)
    modifies writer
    ensures writer.bytes == old(writer.bytes) + EncVector3(v)
  {
    writer.WriteSingle(v.x);
    writer.WriteSingle(v.y);
    writer.WriteSingle(v.z);
  }

  /** What `Write(Vector3)` emits, `ReadVector3` reads back: the same three words. */
  lemma Vector3RoundTrip(s: seq<byte>, p: nat, v: Vector3)
    requires At(s, p, EncVector3(v))
    ensures Vector3At(s, p) == Ok(v, p + 12)
  {
    AtSplit(s, p, EncSingle(v.x) + EncSingle(v.y), EncSingle(v.z));
    AtSplit(s, p, EncSingle(v.x), EncSingle(v.y));
    SingleRoundTrip(s, p, v.x);
    SingleRoundTrip(s, p + 4, v.y);
    SingleRoundTrip(s, p + 8, v.z);
  }

  // ---------------------------------------------------------------------------
  // Part types by name

  /** `ReadMPN`: one string, mapped through the part-type lookup `lookup`
      (`MaidPartUtils.GetMaidPartType`, which this code does not define). */
  function MPNAt<T>(s: seq<byte>, p: nat, lookup: string -> T): (r: Parse<T>)
  {
    var name :- StringAt(s, p);
    Ok(lookup(name.value), name.next)
  }

  /** A part type written as its name is read back as the lookup of that name,
      consuming exactly the string. */
  lemma MPNRoundTrip<T>(s: seq<byte>, p: nat, name: string, lookup: string -> T)
    requires Writable(name) && At(s, p, EncString(name))
    ensures MPNAt(s, p, lookup) == Ok(lookup(name), p + |EncString(name)|)
  {
    StringRoundTrip(s, p, name);
  }

  method ReadMPN<T>(reader: Reader, lookup: string -> T) returns (ok: bool, t: T)
    modifies reader
    ensures Tracks(ok, t, MPNAt(reader.data, old(reader.pos), lookup), reader.pos)
  {
    var name;
    ok, name := reader.ReadString();
    t := lookup(name);
  }
}
