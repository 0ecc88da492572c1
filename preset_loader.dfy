/** `PresetLoader`: the `CM3D2_PRESET` file of a maid's appearance.

    Layout: a header string, an int32 version, an int32 preset type, an int32
    thumbnail length followed by that many bytes, then the property list, from
    version 2 on the part colours and from version 200 on the body. Those three
    payloads belong to the game's `Maid` deserializers and are modelled as
    decoders passed in `host`. */
module PresetLoading {
  import opened Wrappers
  import opened Wire
  import opened Cursor
  import opened GameFiles
  import WinPaths

  /** The header a preset file carries; the loader only asserts it. */
  const PresetSignature: string := "CM3D2_PRESET"

  /** The game's deserializers that read the rest of a preset
      (`Maid.DeserializePropPre`, `DeserializeMultiColorPre`, `DeserializeBodyPre`). */
  datatype Host<P, C> = Host(
    props: (seq<byte>, nat) -> Parse<P>,
    colors: (seq<byte>, nat) -> Parse<C>,
    body: (seq<byte>, nat) -> Parse<()>)

  /** `CharacterMgr.Preset`, the fields the loader assigns; `partsColor` is null
      before version 2. */
  datatype Preset<P, C> = Preset(fileName: string, version: int, preType: int, props: P, partsColor: Option<C>)

  datatype PresetData<P, C> = PresetData(preset: Preset<P, C>, textureBytes: Option<seq<byte>>, lastWriteAt: int)

  /** The versions this game refuses: 30000 and above, and 1560 up to 19999. */
  predicate Rejected(version: int) {
    version >= 30000 || (1560 <= version < 20000)
  }

  // ---------------------------------------------------------------------------
  // Decoding

  /** The thumbnail: a length, then that many bytes when the length is not 0. A
      negative length throws in `ReadBytes`; a short stream gives fewer bytes. */
  function ThumbnailAt(s: seq<byte>, p: nat): (r: Parse<Option<seq<byte>>>)
    ensures r.Ok? <==> Int32At(s, p).Ok? && Int32At(s, p).value >= 0
    ensures r.Ok? ==> (r.value.None? <==> Int32At(s, p).value == 0)
    ensures r.Ok? && r.value.Some? ==> BytesAt(s, p + 4, Int32At(s, p).value) == Ok(r.value.value, r.next)
    ensures r.Ok? && r.value.None? ==> r.next == p + 4
  {
    var n :- Int32At(s, p);
    if n.value == 0 then Ok(None, n.next)
    else
      var bytes :- BytesAt(s, n.next, n.value);
      Ok(Some(bytes.value), bytes.next)
  }

  /** The property list, then the colours from version 2 on, then the body from
      version 200 on. */
  function PayloadsAt<P, C>(s: seq<byte>, p: nat, version: int, host: Host<P, C>): (r: Parse<(P, Option<C>)>)
    ensures r.Ok? ==> host.props(s, p).Ok? && r.value.0 == host.props(s, p).value
    ensures r.Ok? ==> (r.value.1.Some? <==> version >= 2)
    ensures r.Ok? && version >= 2 ==>
              host.colors(s, host.props(s, p).next).Ok? && r.value.1 == Some(host.colors(s, host.props(s, p).next).value)
    ensures version < 2 ==> r == (match host.props(s, p) case Ok(v, next) => Ok((v, None), next) case Fail => Fail)
    ensures 2 <= version < 200 ==>
              r == (match host.props(s, p)
                    case Fail => Fail
                    case Ok(v, next) =>
                      match host.colors(s, next)
                      case Fail => Fail
                      case Ok(c, after) => Ok((v, Some(c)), after))
    ensures version >= 200 ==>
              var props := host.props(s, p);
              var colors := if props.Ok? then host.colors(s, props.next) else Fail;
              var body := if colors.Ok? then host.body(s, colors.next) else Fail;
              (r.Ok? <==> body.Ok?) && (r.Ok? ==> r.next == body.next)
  {
    var props :- host.props(s, p);
    var colors :- ColorsAt(s, props.next, version, host);
    var body :- if version >= 200 then host.body(s, colors.next) else Ok((), colors.next);
    Ok((props.value, colors.value), body.next)
  }

  function ColorsAt<P, C>(s: seq<byte>, p: nat, version: int, host: Host<P, C>): (r: Parse<Option<C>>)
    ensures version < 2 ==> r == Ok(None, p)
    ensures version >= 2 ==> r == (match host.colors(s, p) case Ok(v, next) => Ok(Some(v), next) case Fail => Fail)
  {
    if version < 2 then Ok(None, p)
    else
      var colors :- host.colors(s, p);
      Ok(Some(colors.value), colors.next)
  }

  /** What follows an accepted version: the preset type, the thumbnail and the
      payloads. */
  function AcceptedAt<P, C>(s: seq<byte>, p: nat, version: int, fileName: string, lastWriteAt: int, host: Host<P, C>): (r: Parse<PresetData<P, C>>)
    ensures r.Ok? ==> r.value.preset.fileName == fileName && r.value.preset.version == version && r.value.lastWriteAt == lastWriteAt
    ensures r.Ok? ==> (r.value.preset.partsColor.Some? <==> version >= 2)
  {
    var preType :- Int32At(s, p);
    var thumbnail :- ThumbnailAt(s, preType.next);
    var payloads :- PayloadsAt(s, thumbnail.next, version, host);
    Ok(PresetData(Preset(fileName, version, preType.value, payloads.value.0, payloads.value.1), thumbnail.value, lastWriteAt), payloads.next)
  }

  /** `Load(BinaryReader, fileName, lastWriteAt)` on the stream `s` from `p`:
      null exactly for a refused version, whatever the header says. */
  function PresetAt<P, C>(s: seq<byte>, p: nat, fileName: string, lastWriteAt: int, host: Host<P, C>): (r: Parse<Option<PresetData<P, C>>>)
    ensures r.Ok? ==> StringAt(s, p).Ok? && Int32At(s, StringAt(s, p).next).Ok?
    ensures r.Ok? ==> (r.value.None? <==> Rejected(Int32At(s, StringAt(s, p).next).value))
    ensures r.Ok? && r.value.Some? ==>
              r.value.value.preset.version == Int32At(s, StringAt(s, p).next).value
              && r.value.value.preset.fileName == fileName && r.value.value.lastWriteAt == lastWriteAt
  {
    var header :- StringAt(s, p);
    var version :- Int32At(s, header.next);
    if Rejected(version.value) then Ok(None, version.next)
    else
      var data :- AcceptedAt(s, version.next, version.value, fileName, lastWriteAt, host);
      Ok(Some(data.value), data.next)
  }

  // ---------------------------------------------------------------------------
  // The loader

  method ReadThumbnail(reader: Reader) returns (ok: bool, thumbnail: Option<seq<byte>>)
    modifies reader
    ensures Tracks(ok, thumbnail, ThumbnailAt(reader.data, old(reader.pos)), reader.pos)
  {
    var n;
    ok, n := reader.ReadInt32();
    if !ok { return false, None; }
    thumbnail := None;
    if n != 0 {
      var bytes;
      ok, bytes := reader.ReadBytes(n);
      thumbnail := Some(bytes);
    }
  }

  method ReadPayloads<P(0), C(0)>(reader: Reader, version: int, host: Host<P, C>) returns (ok: bool, payloads: (P, Option<C>))
    modifies reader
    ensures Tracks(ok, payloads, PayloadsAt(reader.data, old(reader.pos), version, host), reader.pos)
  {
    var props;
    ok, props := reader.Delegate(host.props);
    payloads := (props, None);
    if !ok { return; }
    var colors := None;
    if version >= 2 {
      var c;
      ok, c := reader.Delegate(host.colors);
      if !ok { return; }
      colors := Some(c);
    }
    if version >= 200 {
      var done;
      ok, done := reader.Delegate(host.body);
      if !ok { return; }
    }
    payloads := (props, colors);
  }

  /** `Load(BinaryReader, fileName, lastWriteAt)`; it catches nothing. */
  method LoadFrom<P(0), C(0)>(reader: Reader, fileName: string, lastWriteAt: int, host: Host<P, C>)
    returns (r: Outcome<Option<PresetData<P, C>>>)
    modifies reader
    ensures r == Unguarded(PresetAt(reader.data, old(reader.pos), fileName, lastWriteAt, host))
  {
    var ok, header := reader.ReadString();
    if !ok { return Threw; }
    var version;
    ok, version := reader.ReadInt32();
    if !ok { return Threw; }
    if Rejected(version) {
      return Returned(None);
    }
    var preType;
    ok, preType := reader.ReadInt32();
    if !ok { return Threw; }
    var thumbnail;
    ok, thumbnail := ReadThumbnail(reader);
    if !ok { return Threw; }
    var payloads;
    ok, payloads := ReadPayloads(reader, version, host);
    if !ok { return Threw; }
    r := Returned(Some(PresetData(Preset(fileName, version, preType, payloads.0, payloads.1), thumbnail, lastWriteAt)));
  }

  /** The static class with its buffer `m_tempBuffer`. */
  class PresetLoader {
    const tempBuffer: BufferSlot

    constructor ()
      ensures fresh(tempBuffer) && tempBuffer.buffer == null
    {
      tempBuffer := new BufferSlot();
    }

    /** `ClearCache`. */
    method ClearCache()
      modifies tempBuffer
      ensures tempBuffer.buffer == null
    {
      tempBuffer.Clear();
    }

    /** `Load(string)`: a missing file throws when it is opened. Otherwise the
        buffer is replaced by one of exactly the file's length when it is null or
        too short (there is no floor here), receives the file, and is decoded as a
        whole under the file's bare name. Nothing is caught. */
    method Load<P(0), C(0)>(path: string, files: string -> Option<seq<byte>>, lastWriteAt: int, host: Host<P, C>)
      returns (r: Outcome<Option<PresetData<P, C>>>)
      modifies tempBuffer, tempBuffer.buffer
      ensures files(path).None? ==> r == Threw && tempBuffer.buffer == old(tempBuffer.buffer)
      ensures files(path).None? && old(tempBuffer.buffer) != null ==> unchanged(old(tempBuffer.buffer))
      ensures files(path).Some? ==> Refilled(tempBuffer, old(tempBuffer.buffer), files(path).value, 0)
      ensures files(path).Some? && (old(tempBuffer.buffer) == null || old(tempBuffer.buffer).Length < |files(path).value|) ==>
                tempBuffer.buffer.Length == |files(path).value|
      ensures files(path).Some? ==>
                r == (match WinPaths.GetFileName(path)
                      case Threw => Threw
                      case Returned(name) => Unguarded(PresetAt(tempBuffer.buffer[..], 0, name, lastWriteAt, host)))
    {
      var content := files(path);
      if content.None? {
        return Threw;
      }
      tempBuffer.Fill(content.value, 0);
      var reader := new Reader(tempBuffer.buffer[..]);
      var name := WinPaths.GetFileName(path);
      if name.Threw? {
        return Threw;
      }
      r := LoadFrom(reader, name.value, lastWriteAt, host);
    }
  }

  // ---------------------------------------------------------------------------
  // The writer's side of the fixed part, and what the loader makes of it

  /** The fixed fields of a preset file as a writer lays them out; the payloads
      follow them. */
  datatype PresetFile = PresetFile(header: string, version: int, preType: int, thumbnail: seq<byte>)

  predicate Encodable(f: PresetFile) {
    Writable(f.header) && IsInt32(f.version) && IsInt32(f.preType) && |f.thumbnail| < TWO31
  }

  function EncThumbnail(thumbnail: seq<byte>): (e: seq<byte>)
    requires |thumbnail| < TWO31
    ensures |e| == 4 + |thumbnail|
  {
    EncInt32(|thumbnail|) + thumbnail
  }

  function EncAccepted(f: PresetFile): (e: seq<byte>)
    requires Encodable(f)
  {
    EncInt32(f.preType) + EncThumbnail(f.thumbnail)
  }

  function EncPresetHead(f: PresetFile): (e: seq<byte>)
    requires Encodable(f)
  {
    EncString(f.header) + (EncInt32(f.version) + EncAccepted(f))
  }

  /** The preset the loader builds from `f`'s fixed fields and the payloads read
      after them: an empty thumbnail comes back null. */
  function Assembled<P, C>(f: PresetFile, fileName: string, lastWriteAt: int, payloads: Parse<(P, Option<C>)>): Parse<PresetData<P, C>> {
    match payloads
    case Fail => Fail
    case Ok(v, next) =>
      Ok(PresetData(Preset(fileName, f.version, f.preType, v.0, v.1), if f.thumbnail == [] then None else Some(f.thumbnail), lastWriteAt), next)
  }

  lemma ThumbnailRoundTrip(s: seq<byte>, p: nat, thumbnail: seq<byte>)
    requires |thumbnail| < TWO31 && At(s, p, EncThumbnail(thumbnail))
    ensures ThumbnailAt(s, p) == Ok(if thumbnail == [] then None else Some(thumbnail), p + 4 + |thumbnail|)
  {
    AtSplit(s, p, EncInt32(|thumbnail|), thumbnail);
    Int32RoundTrip(s, p, |thumbnail|);
  }

  lemma AcceptedPieces(s: seq<byte>, p: nat, f: PresetFile, q: nat)
    requires Encodable(f) && At(s, p, EncAccepted(f)) && q == p + 4
    ensures Int32At(s, p) == Ok(f.preType, q)
    ensures ThumbnailAt(s, q) == Ok(if f.thumbnail == [] then None else Some(f.thumbnail), q + |EncThumbnail(f.thumbnail)|)
  {
    AtSplit(s, p, EncInt32(f.preType), EncThumbnail(f.thumbnail));
    Int32RoundTrip(s, p, f.preType);
    ThumbnailRoundTrip(s, q, f.thumbnail);
  }

  lemma AcceptedRoundTrip<P, C>(s: seq<byte>, p: nat, f: PresetFile, fileName: string, lastWriteAt: int, host: Host<P, C>, q: nat)
    requires Encodable(f) && At(s, p, EncAccepted(f)) && q == p + |EncAccepted(f)|
    ensures AcceptedAt(s, p, f.version, fileName, lastWriteAt, host) == Assembled(f, fileName, lastWriteAt, PayloadsAt(s, q, f.version, host))
  {
    AcceptedPieces(s, p, f, p + 4);
  }

  lemma HeadPieces(s: seq<byte>, f: PresetFile, k: nat)
    requires Encodable(f) && At(s, 0, EncPresetHead(f)) && k == |EncString(f.header)|
    ensures StringAt(s, 0) == Ok(f.header, k)
    ensures Int32At(s, k) == Ok(f.version, k + 4)
    ensures At(s, k + 4, EncAccepted(f))
  {
    AtSplit(s, 0, EncString(f.header), EncInt32(f.version) + EncAccepted(f));
    AtSplit(s, k, EncInt32(f.version), EncAccepted(f));
    StringRoundTrip(s, 0, f.header);
    Int32RoundTrip(s, k, f.version);
  }

  /** A file that starts with `f`'s fixed fields is null exactly when its
      version is refused, whatever its header string; otherwise it is `f`'s
      fields with the payloads read after the thumbnail. */
  lemma PresetRoundTrip<P, C>(s: seq<byte>, f: PresetFile, fileName: string, lastWriteAt: int, host: Host<P, C>)
    requires Encodable(f) && At(s, 0, EncPresetHead(f))
    ensures Rejected(f.version) ==> PresetAt(s, 0, fileName, lastWriteAt, host) == Ok(None, |EncString(f.header)| + 4)
    ensures !Rejected(f.version) ==>
              PresetAt(s, 0, fileName, lastWriteAt, host)
              == match Assembled(f, fileName, lastWriteAt, PayloadsAt(s, |EncPresetHead(f)|, f.version, host))
                 case Fail => Fail
                 case Ok(data, next) => Ok(Some(data), next)
  {
    var k := |EncString(f.header)|;
    var a := Assembled(f, fileName, lastWriteAt, PayloadsAt(s, |EncPresetHead(f)|, f.version, host));
    assert StringAt(s, 0) == Ok(f.header, k) && Int32At(s, k) == Ok(f.version, k + 4)
      && (!Rejected(f.version) ==> AcceptedAt(s, k + 4, f.version, fileName, lastWriteAt, host) == a) by {
      HeadPieces(s, f, k);
      if !Rejected(f.version) {
        AcceptedRoundTrip(s, k + 4, f, fileName, lastWriteAt, host, |EncPresetHead(f)|);
      }
    }
    PresetStep(s, f.header, k, f.version, fileName, lastWriteAt, host, a);
  }

  /** The header string, the version, then the rest unless the version is
      refused. */
  lemma PresetStep<P, C>(s: seq<byte>, header: string, k: nat, version: int, fileName: string, lastWriteAt: int, host: Host<P, C>, a: Parse<PresetData<P, C>>)
    requires StringAt(s, 0) == Ok(header, k) && Int32At(s, k) == Ok(version, k + 4)
    requires !Rejected(version) ==> AcceptedAt(s, k + 4, version, fileName, lastWriteAt, host) == a
    ensures Rejected(version) ==> PresetAt(s, 0, fileName, lastWriteAt, host) == Ok(None, k + 4)
    ensures !Rejected(version) ==>
              PresetAt(s, 0, fileName, lastWriteAt, host)
              == match a
                 case Fail => Fail
                 case Ok(data, next) => Ok(Some(data), next)
  {
  }
}
