/** `TextureLoader`: the `CM3D2_TEX` texture container.

    Layout: the signature string, an int32 version, a name string, then from
    version 1010 on a header (from version 1011 on it starts with an atlas table of
    rects: a count, then four floats per rect) of width, height and format, and last
    an int32 payload size followed by the payload. Version 1000 files keep their
    size inside the payload instead, as big-endian ints at offsets 16 and 20. */
module TextureLoading {
  import opened Wrappers
  import opened Wire
  import opened Cursor
  import opened GameFiles

  const Signature: string := "CM3D2_TEX"

  /** `UnityEngine.TextureFormat.ARGB32`, the format of files without a header. */
  const ARGB32: int := 5

  datatype Rect = Rect(x: Word32, y: Word32, width: Word32, height: Word32)

  /** A decoded texture; `uvRects` is the atlas table, null when there is none. */
  datatype TextureResource = TextureResource(width: int, height: int, format: int, uvRects: Option<seq<Rect>>, data: seq<byte>)

  datatype Header = Header(width: int, height: int, format: int, uvRects: Option<seq<Rect>>)

  // ---------------------------------------------------------------------------
  // Decoding

  /** One rect: four floats, in the order x, y, width, height. */
  function RectAt(s: seq<byte>, p: nat): (r: Parse<Rect>)
    ensures r.Ok? <==> p + 16 <= |s|
    ensures r.Ok? ==> r.next == p + 16
  {
    var x :- SingleAt(s, p);
    var y :- SingleAt(s, x.next);
    var w :- SingleAt(s, y.next);
    var h :- SingleAt(s, w.next);
    Ok(Rect(x.value, y.value, w.value, h.value), h.next)
  }

  /** `n` rects in a row, as the loop over `array[i]` reads them. */
  function RectsAt(s: seq<byte>, p: nat, n: nat): (r: Parse<seq<Rect>>)
    ensures n > 0 ==> (r.Ok? <==> p + 16 * n <= |s|)
    ensures r.Ok? ==> r.next == p + 16 * n && |r.value| == n
  {
    if n == 0 then Ok([], p)
    else
      var init :- RectsAt(s, p, n - 1);
      var last :- RectAt(s, init.next);
      Ok(init.value + [last.value], last.next)
  }

  /** The atlas table, present from version 1011 on: a count, then that many
      rects. A count that is not positive leaves the table null. */
  function RectTableAt(s: seq<byte>, p: nat, version: int): (r: Parse<Option<seq<Rect>>>)
    ensures version < 1011 ==> r == Ok(None, p)
    ensures r.Ok? && r.value.Some? ==>
              version >= 1011 && Int32At(s, p).Ok? && |r.value.value| == Int32At(s, p).value > 0
  {
    if version < 1011 then Ok(None, p)
    else
      var count :- Int32At(s, p);
      if count.value <= 0 then Ok(None, count.next)
      else
        var rects :- RectsAt(s, count.next, count.value);
        Ok(Some(rects.value), rects.next)
  }

  /** Width, height and format are stored from version 1010 on; older files get
      0, 0 and `ARGB32`. */
  function HeaderAt(s: seq<byte>, p: nat, version: int): (r: Parse<Header>)
    ensures version < 1010 ==> r == Ok(Header(0, 0, ARGB32, None), p)
    ensures r.Ok? && r.value.uvRects.Some? ==> version >= 1011
  {
    if version < 1010 then Ok(Header(0, 0, ARGB32, None), p)
    else
      var table :- RectTableAt(s, p, version);
      DimsAt(s, table.next, table.value)
  }

  /** Width, height and format after the table, with the table already read. */
  function DimsAt(s: seq<byte>, p: nat, table: Option<seq<Rect>>): (r: Parse<Header>)
    ensures r.Ok? <==> p + 12 <= |s|
    ensures r.Ok? ==> r.value.uvRects == table && r.next == p + 12
  {
    var width :- Int32At(s, p);
    var height :- Int32At(s, width.next);
    var format :- Int32At(s, height.next);
    Ok(Header(width.value, height.value, format.value, table), format.next)
  }

  /** How many of `n` bytes remain to be read at `p`. */
  function Available(s: seq<byte>, p: nat, n: nat): (m: nat)
    ensures m <= n && (m > 0 ==> p + m <= |s|)
  {
    if p + n <= |s| then n else if p <= |s| then |s| - p else 0
  }

  /** The payload: `new byte[n]`, then `Read(array, 0, n)`, which copies the bytes
      that remain and leaves the rest of the array zero. */
  function PayloadAt(s: seq<byte>, p: nat, n: nat): (r: seq<byte>)
    ensures |r| == n
    ensures forall i :: 0 <= i < n ==> r[i] == if p + i < |s| then s[p + i] else 0
  {
    var m := Available(s, p, n);
    (if m == 0 then [] else s[p..p + m]) + seq(n - m, _ => 0)
  }

  /** `(b[i] << 24) | (b[i+1] << 16) | (b[i+2] << 8) | b[i+3]` in a 32-bit int: a
      big-endian signed word. */
  function BigEndianInt32(b: seq<byte>, i: nat): (v: int)
    requires i + 4 <= |b|
    ensures IsInt32(v)
  {
    AsInt32(b[i] as int * 0x100_0000 + b[i + 1] as int * 0x1_0000 + b[i + 2] as int * 0x100 + b[i + 3] as int)
  }

  /** What precedes the payload after the signature: the version, the name, the
      header and the declared payload size. */
  datatype Preamble = Preamble(version: int, header: Header, size: int)

  function PreambleAt(s: seq<byte>, p: nat): (r: Parse<Preamble>)
    ensures r.Ok? && r.value.version < 1010 ==> r.value.header == Header(0, 0, ARGB32, None)
  {
    var version :- Int32At(s, p);
    NamedAt(s, version.next, version.value)
  }

  function NamedAt(s: seq<byte>, p: nat, version: int): (r: Parse<Preamble>)
    ensures r.Ok? ==> r.value.version == version
    ensures r.Ok? && version < 1010 ==> r.value.header == Header(0, 0, ARGB32, None)
  {
    var name :- StringAt(s, p);
    SizedAt(s, name.next, version)
  }

  function SizedAt(s: seq<byte>, p: nat, version: int): (r: Parse<Preamble>)
    ensures r.Ok? ==> r.value.version == version
    ensures r.Ok? && version < 1010 ==> r.value.header == Header(0, 0, ARGB32, None)
  {
    var header :- HeaderAt(s, p, version);
    var size :- Int32At(s, header.next);
    Ok(Preamble(version, header.value, size.value), size.next)
  }

  /** The payload and the resource built from it: a negative size throws in
      `new byte[size]`, and a version 1000 payload shorter than 24 bytes throws
      when the size is taken from it. */
  function ResourceAt(s: seq<byte>, pre: Preamble, p: nat): (r: Parse<TextureResource>)
    ensures r.Ok? <==> pre.size >= 0 && (pre.version == 1000 ==> pre.size >= 24)
    ensures r.Ok? ==> |r.value.data| == pre.size && r.value.format == pre.header.format
    ensures r.Ok? ==> r.value.uvRects == pre.header.uvRects
  {
    if pre.size < 0 then Fail
    else
      var data := PayloadAt(s, p, pre.size);
      var next := p + Available(s, p, pre.size);
      if pre.version == 1000 then
        if pre.size < 24 then Fail
        else Ok(TextureResource(BigEndianInt32(data, 16), BigEndianInt32(data, 20), pre.header.format, pre.header.uvRects, data), next)
      else
        Ok(TextureResource(pre.header.width, pre.header.height, pre.header.format, pre.header.uvRects, data), next)
  }

  /** `LoadTextureFile(AFileBase)` after the file was copied into the buffer `s`:
      `Fail` where it throws (a read past the end, a negative payload size, a
      version 1000 payload shorter than 24 bytes), `None` for a wrong signature. */
  function TextureAt(s: seq<byte>): (r: Parse<Option<TextureResource>>)
    ensures r.Ok? && r.value.None? <==> StringAt(s, 0).Ok? && StringAt(s, 0).value != Signature
  {
    var text :- StringAt(s, 0);
    if text.value != Signature then Ok(None, text.next)
    else
      var body :- BodyAt(s, text.next);
      Ok(Some(body.value), body.next)
  }

  /** Everything after the signature: the preamble, then the payload. */
  function BodyAt(s: seq<byte>, p: nat): (r: Parse<TextureResource>)
    ensures r.Ok? ==> PreambleAt(s, p).Ok?
  {
    var pre :- PreambleAt(s, p);
    ResourceAt(s, pre.value, pre.next)
  }

  // ---------------------------------------------------------------------------
  // The loader

  method ReadRect(reader: Reader) returns (ok: bool, r: Rect)
    modifies reader
    ensures Tracks(ok, r, RectAt(reader.data, old(reader.pos)), reader.pos)
  {
    var ok1, x := reader.ReadSingle();
    if !ok1 { return false, Rect(0, 0, 0, 0); }
    var ok2, y := reader.ReadSingle();
    if !ok2 { return false, Rect(0, 0, 0, 0); }
    var ok3, w := reader.ReadSingle();
    if !ok3 { return false, Rect(0, 0, 0, 0); }
    var ok4, h := reader.ReadSingle();
    ok, r := ok4, Rect(x, y, w, h);
  }

  /** The atlas table: `new Rect[count]` filled in order by the loop. */
  method ReadRectTable(reader: Reader, version: int) returns (ok: bool, table: Option<seq<Rect>>)
    modifies reader
    ensures Tracks(ok, table, RectTableAt(reader.data, old(reader.pos), version), reader.pos)
  {
    if version < 1011 {
      return true, None;
    }
    var count;
    ok, count := reader.ReadInt32();
    if !ok || count <= 0 {
      return ok, None;
    }
    var rectArray := new Rect[count](_ => Rect(0, 0, 0, 0));
    var start := reader.pos;
    for i := 0 to count
      invariant RectsAt(reader.data, start, i) == Ok(rectArray[..i], reader.pos)
    {
      var okI, r := ReadRect(reader);
      if !okI {
        return false, None;
      }
      rectArray[i] := r;
      assert rectArray[..i + 1] == rectArray[..i] + [r];
    }
    assert rectArray[..] == rectArray[..count];
    ok, table := true, Some(rectArray[..]);
  }

  method ReadHeader(reader: Reader, version: int) returns (ok: bool, h: Header)
    modifies reader
    ensures Tracks(ok, h, HeaderAt(reader.data, old(reader.pos), version), reader.pos)
  {
    h := Header(0, 0, ARGB32, None);
    if version < 1010 {
      return true, h;
    }
    var table;
    ok, table := ReadRectTable(reader, version);
    if !ok { return; }
    ok, h := ReadDims(reader, table);
  }

  method ReadDims(reader: Reader, table: Option<seq<Rect>>) returns (ok: bool, h: Header)
    modifies reader
    ensures Tracks(ok, h, DimsAt(reader.data, old(reader.pos), table), reader.pos)
  {
    h := Header(0, 0, ARGB32, None);
    var width, height, format;
    ok, width := reader.ReadInt32();
    if !ok { return; }
    ok, height := reader.ReadInt32();
    if !ok { return; }
    ok, format := reader.ReadInt32();
    h := Header(width, height, format, table);
  }

  method ReadPreamble(reader: Reader) returns (ok: bool, pre: Preamble)
    modifies reader
    ensures Tracks(ok, pre, PreambleAt(reader.data, old(reader.pos)), reader.pos)
  {
    pre := Preamble(0, Header(0, 0, ARGB32, None), 0);
    var version, name, header, size;
    ok, version := reader.ReadInt32();
    if !ok { return; }
    ok, name := reader.ReadString();
    if !ok { return; }
    ok, header := ReadHeader(reader, version);
    if !ok { return; }
    ok, size := reader.ReadInt32();
    pre := Preamble(version, header, size);
  }

  /** `new byte[size]` and `Read(array, 0, size)`. */
  method ReadPayload(reader: Reader, size: nat) returns (data: seq<byte>)
    modifies reader
    ensures data == PayloadAt(reader.data, old(reader.pos), size)
    ensures reader.pos == old(reader.pos) + Available(reader.data, old(reader.pos), size)
  {
    var payload := new byte[size](_ => 0);
    var start := reader.pos;
    var n := reader.Read(payload, 0, size);
    data := payload[..];
    assert forall i :: 0 <= i < size ==> data[i] == PayloadAt(reader.data, start, size)[i] by {
      forall i | 0 <= i < size
        ensures data[i] == PayloadAt(reader.data, start, size)[i]
      {
        if i < n {
          assert data[i] == payload[0..n][i];
        } else {
          assert data[i] == payload[n..][i - n];
        }
      }
    }
  }

  /** The rest of `LoadTextureFile` once the signature matched. */
  method ReadBody(reader: Reader) returns (ok: bool, resource: TextureResource)
    modifies reader
    ensures Tracks(ok, resource, BodyAt(reader.data, old(reader.pos)), reader.pos)
  {
    resource := TextureResource(0, 0, 0, None, []);
    var pre;
    ok, pre := ReadPreamble(reader);
    if !ok || pre.size < 0 { return false, resource; }
    var data := ReadPayload(reader, pre.size);
    var width, height := pre.header.width, pre.header.height;
    if pre.version == 1000 {
      if pre.size < 24 { return false, resource; }
      width, height := BigEndianInt32(data, 16), BigEndianInt32(data, 20);
    }
    resource := TextureResource(width, height, pre.header.format, pre.header.uvRects, data);
  }

  /** The static class with its shared buffer `m_texTempFile`. */
  class TextureLoader {
    const texTempFile: BufferSlot

    constructor ()
      ensures fresh(texTempFile) && texTempFile.buffer == null
    {
      texTempFile := new BufferSlot();
    }

    /** `ClearCache`. */
    method ClearCache()
      modifies texTempFile
      ensures texTempFile.buffer == null
    {
      texTempFile.Clear();
    }

    /** `LoadTextureFile(AFileBase)`: a null or invalid file is null and leaves the
        buffer alone. Otherwise the buffer grows as in `BinaryLoader`, receives the
        file, and is decoded as a whole (stale bytes included); this overload does
        not catch, so a failed read escapes as an exception. */
    method LoadTextureFile(file: Option<AFile>) returns (r: Outcome<Option<TextureResource>>)
      modifies texTempFile, texTempFile.buffer
      ensures (file.None? || !file.value.valid) ==>
                r == Returned(None) && texTempFile.buffer == old(texTempFile.buffer)
      ensures (file.None? || !file.value.valid) && old(texTempFile.buffer) != null ==> unchanged(old(texTempFile.buffer))
      ensures file.Some? && file.value.valid ==>
                Refilled(texTempFile, old(texTempFile.buffer), file.value.content, MinBufferSize)
                && r == Unguarded(TextureAt(texTempFile.buffer[..]))
    {
      if file.None? || !file.value.valid {
        return Returned(None);
      }
      texTempFile.Fill(file.value.content, MinBufferSize);
      var reader := new Reader(texTempFile.buffer[..]);
      var ok, text := reader.ReadString();
      if !ok { return Threw; }
      if text != Signature { return Returned(None); }
      var resource;
      ok, resource := ReadBody(reader);
      r := if ok then Returned(Some(resource)) else Threw;
    }

    /** `LoadTextureFile(string)`: opens the entry and decodes it, turning every
        exception (a missing entry included) into null. */
    method LoadTextureFileByName(fileName: string, fs: FileSystem) returns (r: Option<TextureResource>)
      modifies texTempFile, texTempFile.buffer
      ensures (fs(fileName).None? || !fs(fileName).value.valid) ==>
                r == None && texTempFile.buffer == old(texTempFile.buffer)
      ensures (fs(fileName).None? || !fs(fileName).value.valid) && old(texTempFile.buffer) != null ==>
                unchanged(old(texTempFile.buffer))
      ensures fs(fileName).Some? && fs(fileName).value.valid ==>
                Refilled(texTempFile, old(texTempFile.buffer), fs(fileName).value.content, MinBufferSize)
                && r == (if TextureAt(texTempFile.buffer[..]).Ok? then TextureAt(texTempFile.buffer[..]).value else None)
    {
      var file := fs(fileName);
      if file.None? || !file.value.valid {
        return None;
      }
      var outcome := LoadTextureFile(file);
      r := if outcome.Returned? then outcome.value else None;
    }
  }

  // ---------------------------------------------------------------------------
  // The writer's side of the format, and what the loader makes of it

  /** The fields of a texture file as a writer lays them out. */
  datatype TexFile = TexFile(version: int, name: string, width: int, height: int, format: int, rects: seq<Rect>, data: seq<byte>)

  predicate Encodable(t: TexFile) {
    IsInt32(t.version) && Writable(t.name) && IsInt32(t.width) && IsInt32(t.height) && IsInt32(t.format)
    && |t.rects| < TWO31 && |t.data| < TWO31
  }

  function EncRect(r: Rect): (e: seq<byte>)
    ensures |e| == 16
  {
    EncSingle(r.x) + EncSingle(r.y) + EncSingle(r.width) + EncSingle(r.height)
  }

  function EncRects(rs: seq<Rect>): (e: seq<byte>)
    ensures |e| == 16 * |rs|
  {
    if rs == [] then [] else EncRects(rs[..|rs| - 1]) + EncRect(rs[|rs| - 1])
  }

  function EncHeader(t: TexFile): seq<byte>
    requires Encodable(t)
  {
    if t.version < 1010 then [] else EncTable(t) + EncDims(t)
  }

  /** The table as written: from version 1011 on, the count and the rects. */
  function EncTable(t: TexFile): seq<byte>
    requires Encodable(t)
  {
    if t.version >= 1011 then EncInt32(|t.rects|) + EncRects(t.rects) else []
  }

  function EncDims(t: TexFile): (e: seq<byte>)
    requires Encodable(t)
    ensures |e| == 12
  {
    EncInt32(t.width) + (EncInt32(t.height) + EncInt32(t.format))
  }

  function EncPreamble(t: TexFile): seq<byte>
    requires Encodable(t)
  {
    EncInt32(t.version) + (EncString(t.name) + (EncHeader(t) + EncInt32(|t.data|)))
  }

  /** `EncString(Signature)`, spelled out once (see `SignatureWireIsEncoding`). */
  const SignatureWire: seq<byte> := [9, 0x43, 0x4D, 0x33, 0x44, 0x32, 0x5F, 0x54, 0x45, 0x58]

  function EncTexture(t: TexFile): seq<byte>
    requires Encodable(t)
  {
    SignatureWire + (EncPreamble(t) + t.data)
  }

  /** What the loader returns for a file written from `t`: the header fields only
      from version 1010 on, the rect table only from 1011 on and only when it is
      not empty, and for version 1000 the size found in the payload. */
  function Loaded(t: TexFile): (r: TextureResource)
    requires |t.data| >= 24 || t.version != 1000
  {
    TextureResource(
      if t.version == 1000 then BigEndianInt32(t.data, 16) else if t.version >= 1010 then t.width else 0,
      if t.version == 1000 then BigEndianInt32(t.data, 20) else if t.version >= 1010 then t.height else 0,
      if t.version >= 1010 then t.format else ARGB32,
      if t.version >= 1011 && |t.rects| > 0 then Some(t.rects) else None,
      t.data)
  }

  /** The header the loader keeps for a file written from `t`. */
  function ExpectedHeader(t: TexFile): Header {
    if t.version >= 1010 then Header(t.width, t.height, t.format, ExpectedTable(t))
    else Header(0, 0, ARGB32, None)
  }

  lemma RectRoundTrip(s: seq<byte>, p: nat, r: Rect)
    requires At(s, p, EncRect(r))
    ensures RectAt(s, p) == Ok(r, p + 16)
  {
    AtSplit(s, p, EncSingle(r.x) + EncSingle(r.y) + EncSingle(r.width), EncSingle(r.height));
    AtSplit(s, p, EncSingle(r.x) + EncSingle(r.y), EncSingle(r.width));
    AtSplit(s, p, EncSingle(r.x), EncSingle(r.y));
    SingleRoundTrip(s, p, r.x);
    SingleRoundTrip(s, p + 4, r.y);
    SingleRoundTrip(s, p + 8, r.width);
    SingleRoundTrip(s, p + 12, r.height);
  }

  lemma {:induction false} RectsRoundTrip(s: seq<byte>, p: nat, rs: seq<Rect>)
    requires At(s, p, EncRects(rs))
    ensures RectsAt(s, p, |rs|) == Ok(rs, p + 16 * |rs|)
  {
    if rs != [] {
      var init, last := rs[..|rs| - 1], rs[|rs| - 1];
      AtSplit(s, p, EncRects(init), EncRect(last));
      RectsRoundTrip(s, p, init);
      RectRoundTrip(s, p + 16 * |init|, last);
      assert init + [last] == rs;
    }
  }

  /** The table the loader keeps: none before version 1011, none when empty. */
  function ExpectedTable(t: TexFile): Option<seq<Rect>> {
    if t.version >= 1011 && |t.rects| > 0 then Some(t.rects) else None
  }

  lemma TableRoundTrip(s: seq<byte>, p: nat, t: TexFile)
    requires Encodable(t) && At(s, p, EncTable(t))
    ensures RectTableAt(s, p, t.version) == Ok(ExpectedTable(t), p + |EncTable(t)|)
  {
    if t.version >= 1011 {
      AtSplit(s, p, EncInt32(|t.rects|), EncRects(t.rects));
      Int32RoundTrip(s, p, |t.rects|);
      if |t.rects| > 0 {
        RectsRoundTrip(s, p + 4, t.rects);
      }
    }
  }

  lemma DimsRoundTrip(s: seq<byte>, p: nat, t: TexFile, table: Option<seq<Rect>>)
    requires Encodable(t) && At(s, p, EncDims(t))
    ensures DimsAt(s, p, table) == Ok(Header(t.width, t.height, t.format, table), p + 12)
  {
    AtSplit(s, p, EncInt32(t.width), EncInt32(t.height) + EncInt32(t.format));
    AtSplit(s, p + 4, EncInt32(t.height), EncInt32(t.format));
    Int32RoundTrip(s, p, t.width);
    Int32RoundTrip(s, p + 4, t.height);
    Int32RoundTrip(s, p + 8, t.format);
  }

  // Each step lemma unfolds one parser once, with every position a parameter.

  lemma HeaderStep(s: seq<byte>, p: nat, version: int, table: Option<seq<Rect>>, q: nat, r: Parse<Header>)
    requires version >= 1010 && RectTableAt(s, p, version) == Ok(table, q) && DimsAt(s, q, table) == r
    ensures HeaderAt(s, p, version) == r
  {
  }

  lemma SizedStep(s: seq<byte>, p: nat, version: int, header: Header, q: nat, size: int, next: nat)
    requires HeaderAt(s, p, version) == Ok(header, q) && Int32At(s, q) == Ok(size, next)
    ensures SizedAt(s, p, version) == Ok(Preamble(version, header, size), next)
  {
  }

  lemma NamedStep(s: seq<byte>, p: nat, version: int, name: string, q: nat, r: Parse<Preamble>)
    requires StringAt(s, p) == Ok(name, q) && SizedAt(s, q, version) == r
    ensures NamedAt(s, p, version) == r
  {
  }

  lemma PreambleStep(s: seq<byte>, p: nat, version: int, q: nat, r: Parse<Preamble>)
    requires Int32At(s, p) == Ok(version, q) && NamedAt(s, q, version) == r
    ensures PreambleAt(s, p) == r
  {
  }

  lemma BodyStep(s: seq<byte>, p: nat, pre: Preamble, q: nat, r: Parse<TextureResource>)
    requires PreambleAt(s, p) == Ok(pre, q) && ResourceAt(s, pre, q) == r
    ensures BodyAt(s, p) == r
  {
  }

  lemma HeaderRoundTrip(s: seq<byte>, p: nat, t: TexFile)
    requires Encodable(t) && At(s, p, EncHeader(t))
    ensures HeaderAt(s, p, t.version) == Ok(ExpectedHeader(t), p + |EncHeader(t)|)
  {
    if t.version >= 1010 {
      var q := p + |EncTable(t)|;
      TableThenDims(s, p, t, q);
      HeaderStep(s, p, t.version, ExpectedTable(t), q, Ok(ExpectedHeader(t), q + 12));
    }
  }

  lemma {:induction false} TableThenDims(s: seq<byte>, p: nat, t: TexFile, q: nat)
    requires Encodable(t) && t.version >= 1010 && At(s, p, EncTable(t) + EncDims(t)) && q == p + |EncTable(t)|
    ensures RectTableAt(s, p, t.version) == Ok(ExpectedTable(t), q)
    ensures DimsAt(s, q, ExpectedTable(t)) == Ok(ExpectedHeader(t), q + 12)
  {
    assert At(s, p, EncTable(t)) && At(s, q, EncDims(t)) by {
      AtSplit(s, p, EncTable(t), EncDims(t));
    }
    assert RectTableAt(s, p, t.version) == Ok(ExpectedTable(t), q) by {
      TableRoundTrip(s, p, t);
    }
    DimsRoundTrip(s, q, t, ExpectedTable(t));
  }

  /** The header and the payload size, as written after the name. */
  lemma SizedRoundTrip(s: seq<byte>, p: nat, t: TexFile)
    requires Encodable(t) && At(s, p, EncHeader(t) + EncInt32(|t.data|))
    ensures SizedAt(s, p, t.version) == Ok(Preamble(t.version, ExpectedHeader(t), |t.data|), p + |EncHeader(t)| + 4)
  {
    var q := p + |EncHeader(t)|;
    HeaderThenSize(s, p, t, q);
    SizedStep(s, p, t.version, ExpectedHeader(t), q, |t.data|, q + 4);
  }

  lemma HeaderThenSize(s: seq<byte>, p: nat, t: TexFile, q: nat)
    requires Encodable(t) && At(s, p, EncHeader(t) + EncInt32(|t.data|)) && q == p + |EncHeader(t)|
    ensures HeaderAt(s, p, t.version) == Ok(ExpectedHeader(t), q)
    ensures Int32At(s, q) == Ok(|t.data|, q + 4)
  {
    AtSplit(s, p, EncHeader(t), EncInt32(|t.data|));
    HeaderRoundTrip(s, p, t);
    Int32RoundTrip(s, q, |t.data|);
  }

  lemma NamedRoundTrip(s: seq<byte>, p: nat, t: TexFile)
    requires Encodable(t) && At(s, p, EncString(t.name) + (EncHeader(t) + EncInt32(|t.data|)))
    ensures NamedAt(s, p, t.version) == Ok(Preamble(t.version, ExpectedHeader(t), |t.data|), p + |EncString(t.name)| + |EncHeader(t)| + 4)
  {
    var q := p + |EncString(t.name)|;
    AtSplit(s, p, EncString(t.name), EncHeader(t) + EncInt32(|t.data|));
    StringRoundTrip(s, p, t.name);
    SizedRoundTrip(s, q, t);
    NamedStep(s, p, t.version, t.name, q, SizedAt(s, q, t.version));
  }

  lemma PreambleRoundTrip(s: seq<byte>, p: nat, t: TexFile)
    requires Encodable(t) && At(s, p, EncPreamble(t))
    ensures PreambleAt(s, p) == Ok(Preamble(t.version, ExpectedHeader(t), |t.data|), p + |EncPreamble(t)|)
  {
    var q := p + 4;
    AtSplit(s, p, EncInt32(t.version), EncString(t.name) + (EncHeader(t) + EncInt32(|t.data|)));
    Int32RoundTrip(s, p, t.version);
    NamedRoundTrip(s, q, t);
    PreambleStep(s, p, t.version, q, NamedAt(s, q, t.version));
  }

  /** The payload of a file written whole is read back exactly. */
  lemma PayloadRoundTrip(s: seq<byte>, p: nat, data: seq<byte>)
    requires At(s, p, data)
    ensures PayloadAt(s, p, |data|) == data && Available(s, p, |data|) == |data|
  {
    assert forall i :: 0 <= i < |data| ==> s[p + i] == data[i] by {
      assert s[p..p + |data|] == data;
    }
  }

  lemma ResourceRoundTrip(s: seq<byte>, p: nat, t: TexFile)
    requires At(s, p, t.data)
    requires t.version == 1000 ==> |t.data| >= 24
    ensures ResourceAt(s, Preamble(t.version, ExpectedHeader(t), |t.data|), p) == Ok(Loaded(t), p + |t.data|)
  {
    PayloadRoundTrip(s, p, t.data);
  }

  lemma SignatureWireIsEncoding()
    ensures Writable(Signature) && EncString(Signature) == SignatureWire
  {
    AsciiStringEncoding(Signature, SignatureWire);
  }

  lemma SignatureRoundTrip(s: seq<byte>, p: nat)
    requires At(s, p, SignatureWire)
    ensures StringAt(s, p) == Ok(Signature, p + 10)
  {
    SignatureWireIsEncoding();
    StringRoundTrip(s, p, Signature);
  }

  /** After the signature, what was written is read back as `Loaded(t)`. */
  lemma BodyRoundTrip(s: seq<byte>, p: nat, t: TexFile)
    requires Encodable(t) && At(s, p, EncPreamble(t) + t.data)
    ensures t.version == 1000 && |t.data| < 24 ==> BodyAt(s, p) == Fail
    ensures (t.version == 1000 ==> |t.data| >= 24) ==>
              BodyAt(s, p) == Ok(Loaded(t), p + |EncPreamble(t)| + |t.data|)
  {
    var q := p + |EncPreamble(t)|;
    assert PreambleAt(s, p) == Ok(Preamble(t.version, ExpectedHeader(t), |t.data|), q) && At(s, q, t.data) by {
      AtSplit(s, p, EncPreamble(t), t.data);
      PreambleRoundTrip(s, p, t);
    }
    BodyFrom(s, p, t, q);
  }

  /** The payload after a preamble read back. */
  lemma BodyFrom(s: seq<byte>, p: nat, t: TexFile, q: nat)
    requires PreambleAt(s, p) == Ok(Preamble(t.version, ExpectedHeader(t), |t.data|), q)
    requires At(s, q, t.data)
    ensures t.version == 1000 && |t.data| < 24 ==> BodyAt(s, p) == Fail
    ensures (t.version == 1000 ==> |t.data| >= 24) ==> BodyAt(s, p) == Ok(Loaded(t), q + |t.data|)
  {
    var pre := Preamble(t.version, ExpectedHeader(t), |t.data|);
    if t.version != 1000 || |t.data| >= 24 {
      ResourceRoundTrip(s, q, t);
      BodyStep(s, p, pre, q, Ok(Loaded(t), q + |t.data|));
    } else {
      BodyStep(s, p, pre, q, Fail);
    }
  }

  /** The signature, then the body. */
  lemma TextureStep(s: seq<byte>, q: nat, r: Parse<TextureResource>)
    requires StringAt(s, 0) == Ok(Signature, q) && BodyAt(s, q) == r
    ensures r.Ok? ==> TextureAt(s) == Ok(Some(r.value), r.next)
    ensures r.Fail? ==> TextureAt(s) == Fail
  {
  }

  /** Decoding what was written gives back every field the version keeps. */
  lemma TextureRoundTrip(s: seq<byte>, t: TexFile)
    requires Encodable(t) && At(s, 0, EncTexture(t))
    requires t.version == 1000 ==> |t.data| >= 24
    ensures TextureAt(s) == Ok(Some(Loaded(t)), |EncTexture(t)|)
  {
    var n := |EncTexture(t)|;
    assert StringAt(s, 0) == Ok(Signature, 10) && BodyAt(s, 10) == Ok(Loaded(t), n) by {
      AtSplit(s, 0, SignatureWire, EncPreamble(t) + t.data);
      SignatureRoundTrip(s, 0);
      BodyRoundTrip(s, 10, t);
    }
    TextureStep(s, 10, Ok(Loaded(t), n));
  }

  /** A version 1000 file whose payload cannot hold the size throws. */
  lemma ShortLegacyPayloadThrows(s: seq<byte>, t: TexFile)
    requires Encodable(t) && At(s, 0, EncTexture(t))
    requires t.version == 1000 && |t.data| < 24
    ensures TextureAt(s) == Fail
  {
    assert StringAt(s, 0) == Ok(Signature, 10) && BodyAt(s, 10) == Fail by {
      AtSplit(s, 0, SignatureWire, EncPreamble(t) + t.data);
      SignatureRoundTrip(s, 0);
      BodyRoundTrip(s, 10, t);
    }
    TextureStep(s, 10, Fail);
  }
}
