/** `MenuInfo`: what the menu loaders learn about one menu, and the record it is
    cached as: sixteen fields in a fixed order, strings nullable. */
module MenuInfos {
  import opened Wrappers
  import opened Wire
  import opened Cursor
  import opened BinaryExtensions
  import MaidPartUtils

  /** The game's `MPN` code, written as `(int)mpn`. */
  type MPN = MaidPartUtils.MPN
  const NullMPN: MPN := MaidPartUtils.NullMPN

  /** `MenuInfo.CacheVersion`. */
  const CacheVersion: int := 14

  datatype MenuInfo = MenuInfo(
    fileName: Option<string>,
    path: Option<string>,
    rid: int,
    name: Option<string>,
    setumei: Option<string>,
    mpn: MPN,
    iconName: Option<string>,
    iconData: Option<seq<byte>>,
    priority: Word32,
    modelFileName: Option<string>,
    colorSetMPN: MPN,
    colorSetMenuName: Option<string>,
    variationBaseFileName: Option<string>,
    modBaseFileName: Option<string>,
    lastWriteAt: int,
    isHidden: bool)

  /** `new MenuInfo { fileName = .., rid = .. }`: every other field at its
      initial value (an empty icon, priority 0, `null_mpn`). */
  function NewMenuInfo(fileName: string, rid: int): (m: MenuInfo)
    ensures m.fileName == Some(fileName) && m.rid == rid && m.iconData == Some([]) && !m.isHidden
    ensures m.mpn == NullMPN && m.colorSetMPN == NullMPN && m.priority == 0
  {
    MenuInfo(Some(fileName), None, rid, None, None, NullMPN, None, Some([]), 0, None, NullMPN, None, None, None, 0, false)
  }

  // ---------------------------------------------------------------------------
  // Deserialize, in four runs of fields

  datatype Identity = Identity(fileName: Option<string>, path: Option<string>, rid: int, name: Option<string>)
  datatype Description = Description(setumei: Option<string>, mpn: MPN, iconName: Option<string>, iconData: seq<byte>)
  datatype Model = Model(priority: Word32, modelFileName: Option<string>, colorSetMPN: MPN, colorSetMenuName: Option<string>)
  datatype Origin = Origin(variationBaseFileName: Option<string>, modBaseFileName: Option<string>, lastWriteAt: int, isHidden: bool)

  function IdentityAt(s: seq<byte>, p: nat): Parse<Identity> {
    var fileName :- NullableStringAt(s, p);
    var path :- NullableStringAt(s, fileName.next);
    var rid :- Int32At(s, path.next);
    var name :- NullableStringAt(s, rid.next);
    Ok(Identity(fileName.value, path.value, rid.value, name.value), name.next)
  }

  /** `ReadBytes(ReadInt32())`: a negative count throws, a short stream gives
      fewer bytes. */
  function IconDataAt(s: seq<byte>, p: nat): (r: Parse<seq<byte>>)
    ensures r.Ok? <==> Int32At(s, p).Ok? && Int32At(s, p).value >= 0
    ensures r.Ok? ==> BytesAt(s, p + 4, Int32At(s, p).value) == r
  {
    var count :- Int32At(s, p);
    BytesAt(s, count.next, count.value)
  }

  function DescriptionAt(s: seq<byte>, p: nat): Parse<Description> {
    var setumei :- NullableStringAt(s, p);
    var mpn :- Int32At(s, setumei.next);
    var iconName :- NullableStringAt(s, mpn.next);
    var iconData :- IconDataAt(s, iconName.next);
    Ok(Description(setumei.value, mpn.value, iconName.value, iconData.value), iconData.next)
  }

  function ModelAt(s: seq<byte>, p: nat): Parse<Model> {
    var priority :- SingleAt(s, p);
    var modelFileName :- NullableStringAt(s, priority.next);
    var colorSetMPN :- Int32At(s, modelFileName.next);
    var colorSetMenuName :- NullableStringAt(s, colorSetMPN.next);
    Ok(Model(priority.value, modelFileName.value, colorSetMPN.value, colorSetMenuName.value), colorSetMenuName.next)
  }

  function OriginAt(s: seq<byte>, p: nat): Parse<Origin> {
    var variation :- NullableStringAt(s, p);
    var modBase :- NullableStringAt(s, variation.next);
    var lastWriteAt :- Int64At(s, modBase.next);
    var isHidden :- BooleanAt(s, lastWriteAt.next);
    Ok(Origin(variation.value, modBase.value, lastWriteAt.value, isHidden.value), isHidden.next)
  }

  function Join(a: Identity, b: Description, c: Model, d: Origin): (m: MenuInfo)
    ensures m.iconData.Some?
  {
    MenuInfo(a.fileName, a.path, a.rid, a.name, b.setumei, b.mpn, b.iconName, Some(b.iconData),
             c.priority, c.modelFileName, c.colorSetMPN, c.colorSetMenuName,
             d.variationBaseFileName, d.modBaseFileName, d.lastWriteAt, d.isHidden)
  }

  /** `MenuInfo.Deserialize`: the sixteen fields in order; the icon is never
      null. */
  function MenuInfoAt(s: seq<byte>, p: nat): (r: Parse<MenuInfo>)
    ensures r.Ok? ==> r.value.iconData.Some?
  {
    var a :- IdentityAt(s, p);
    var b :- DescriptionAt(s, a.next);
    var c :- ModelAt(s, b.next);
    var d :- OriginAt(s, c.next);
    Ok(Join(a.value, b.value, c.value, d.value), d.next)
  }

  method ReadIdentity(reader: Reader) returns (ok: bool, v: Identity)
    modifies reader
    ensures Tracks(ok, v, IdentityAt(reader.data, old(reader.pos)), reader.pos)
  {
    var ok1, fileName := ReadNullableString(reader);
    if !ok1 { return false, Identity(None, None, 0, None); }
    var ok2, path := ReadNullableString(reader);
    if !ok2 { return false, Identity(None, None, 0, None); }
    var ok3, rid := reader.ReadInt32();
    if !ok3 { return false, Identity(None, None, 0, None); }
    var ok4, name := ReadNullableString(reader);
    ok, v := ok4, Identity(fileName, path, rid, name);
  }

  method ReadDescription(reader: Reader) returns (ok: bool, v: Description)
    modifies reader
    ensures Tracks(ok, v, DescriptionAt(reader.data, old(reader.pos)), reader.pos)
  {
    var ok1, setumei := ReadNullableString(reader);
    if !ok1 { return false, Description(None, 0, None, []); }
    var ok2, mpn := reader.ReadInt32();
    if !ok2 { return false, Description(None, 0, None, []); }
    var ok3, iconName := ReadNullableString(reader);
    if !ok3 { return false, Description(None, 0, None, []); }
    var ok4, count := reader.ReadInt32();
    if !ok4 { return false, Description(None, 0, None, []); }
    var ok5, iconData := reader.ReadBytes(count);
    ok, v := ok5, Description(setumei, mpn, iconName, iconData);
  }

  method ReadModel(reader: Reader) returns (ok: bool, v: Model)
    modifies reader
    ensures Tracks(ok, v, ModelAt(reader.data, old(reader.pos)), reader.pos)
  {
    var ok1, priority := reader.ReadSingle();
    if !ok1 { return false, Model(0, None, 0, None); }
    var ok2, modelFileName := ReadNullableString(reader);
    if !ok2 { return false, Model(0, None, 0, None); }
    var ok3, colorSetMPN := reader.ReadInt32();
    if !ok3 { return false, Model(0, None, 0, None); }
    var ok4, colorSetMenuName := ReadNullableString(reader);
    ok, v := ok4, Model(priority, modelFileName, colorSetMPN, colorSetMenuName);
  }

  method ReadOrigin(reader: Reader) returns (ok: bool, v: Origin)
    modifies reader
    ensures Tracks(ok, v, OriginAt(reader.data, old(reader.pos)), reader.pos)
  {
    var ok1, variation := ReadNullableString(reader);
    if !ok1 { return false, Origin(None, None, 0, false); }
    var ok2, modBase := ReadNullableString(reader);
    if !ok2 { return false, Origin(None, None, 0, false); }
    var ok3, lastWriteAt := reader.ReadInt64();
    if !ok3 { return false, Origin(None, None, 0, false); }
    var ok4, isHidden := reader.ReadBoolean();
    ok, v := ok4, Origin(variation, modBase, lastWriteAt, isHidden);
  }

  /** `MenuInfo.Deserialize(reader)`; a read past the end throws (`ok == false`). */
  method Deserialize(reader: Reader) returns (ok: bool, m: MenuInfo)
    modifies reader
    ensures Tracks(ok, m, MenuInfoAt(reader.data, old(reader.pos)), reader.pos)
  {
    m := NewMenuInfo([], 0);
    var a, b, c, d;
    ok, a := ReadIdentity(reader);
    if !ok { return; }
    ok, b := ReadDescription(reader);
    if !ok { return; }
    ok, c := ReadModel(reader);
    if !ok { return; }
    ok, d := ReadOrigin(reader);
    if !ok { return; }
    m := Join(a, b, c, d);
  }

  // ---------------------------------------------------------------------------
  // Serialize

  /** What `Serialize` can write: the integers fit their fields and the
      strings can be encoded. */
  predicate Encodable(m: MenuInfo) {
    NullableWritable(m.fileName) && NullableWritable(m.path) && IsInt32(m.rid) && NullableWritable(m.name)
    && NullableWritable(m.setumei) && IsInt32(m.mpn) && NullableWritable(m.iconName)
    && (m.iconData.Some? ==> |m.iconData.value| < TWO31)
    && NullableWritable(m.modelFileName) && IsInt32(m.colorSetMPN) && NullableWritable(m.colorSetMenuName)
    && NullableWritable(m.variationBaseFileName) && NullableWritable(m.modBaseFileName) && IsInt64(m.lastWriteAt)
  }

  function EncIdentity(m: MenuInfo): seq<byte>
    requires Encodable(m)
  {
    EncNullableString(m.fileName) + (EncNullableString(m.path) + (EncInt32(m.rid) + EncNullableString(m.name)))
  }

  /** Up to the icon's name: what is written before the icon's length is taken. */
  function EncBeforeIcon(m: MenuInfo): seq<byte>
    requires Encodable(m)
  {
    EncNullableString(m.setumei) + (EncInt32(m.mpn) + EncNullableString(m.iconName))
  }

  function EncIcon(icon: seq<byte>): (e: seq<byte>)
    requires |icon| < TWO31
    ensures |e| == 4 + |icon|
  {
    EncInt32(|icon|) + icon
  }

  function EncDescription(m: MenuInfo): seq<byte>
    requires Encodable(m) && m.iconData.Some?
  {
    EncBeforeIcon(m) + EncIcon(m.iconData.value)
  }

  function EncModel(m: MenuInfo): seq<byte>
    requires Encodable(m)
  {
    EncSingle(m.priority) + (EncNullableString(m.modelFileName) + (EncInt32(m.colorSetMPN) + EncNullableString(m.colorSetMenuName)))
  }

  function EncOrigin(m: MenuInfo): seq<byte>
    requires Encodable(m)
  {
    EncNullableString(m.variationBaseFileName) + (EncNullableString(m.modBaseFileName) + (EncInt64(m.lastWriteAt) + EncBoolean(m.isHidden)))
  }

  /** `Serialize`'s output for a record with an icon. */
  function EncMenuInfo(m: MenuInfo): seq<byte>
    requires Encodable(m) && m.iconData.Some?
  {
    EncIdentity(m) + (EncDescription(m) + (EncModel(m) + EncOrigin(m)))
  }

  method WriteIdentity(writer: Writer, m: MenuInfo)
    requires Encodable(m)
    modifies writer
    ensures writer.bytes == old(writer.bytes) + EncIdentity(m)
  {
    ghost var before := writer.bytes;
    WriteNullableString(writer, m.fileName);
    WriteNullableString(writer, m.path);
    writer.WriteInt32(m.rid);
    WriteNullableString(writer, m.name);
    AppendFour(before, EncNullableString(m.fileName), EncNullableString(m.path), EncInt32(m.rid), EncNullableString(m.name));
  }

  method WriteBeforeIcon(writer: Writer, m: MenuInfo)
    requires Encodable(m)
    modifies writer
    ensures writer.bytes == old(writer.bytes) + EncBeforeIcon(m)
  {
    WriteNullableString(writer, m.setumei);
    writer.WriteInt32(m.mpn);
    WriteNullableString(writer, m.iconName);
  }

  /** The icon's length, then its bytes. */
  method WriteIcon(writer: Writer, icon: seq<byte>)
    requires |icon| < TWO31
    modifies writer
    ensures writer.bytes == old(writer.bytes) + EncIcon(icon)
  {
    writer.WriteInt32(|icon|);
    writer.WriteBytes(icon);
  }

  method WriteModel(writer: Writer, m: MenuInfo)
    requires Encodable(m)
    modifies writer
    ensures writer.bytes == old(writer.bytes) + EncModel(m)
  {
    ghost var before := writer.bytes;
    writer.WriteSingle(m.priority);
    WriteNullableString(writer, m.modelFileName);
    writer.WriteInt32(m.colorSetMPN);
    WriteNullableString(writer, m.colorSetMenuName);
    AppendFour(before, EncSingle(m.priority), EncNullableString(m.modelFileName), EncInt32(m.colorSetMPN), EncNullableString(m.colorSetMenuName));
  }

  method WriteOrigin(writer: Writer, m: MenuInfo)
    requires Encodable(m)
    modifies writer
    ensures writer.bytes == old(writer.bytes) + EncOrigin(m)
  {
    ghost var before := writer.bytes;
    WriteNullableString(writer, m.variationBaseFileName);
    WriteNullableString(writer, m.modBaseFileName);
    writer.WriteInt64(m.lastWriteAt);
    writer.WriteBoolean(m.isHidden);
    AppendFour(before, EncNullableString(m.variationBaseFileName), EncNullableString(m.modBaseFileName), EncInt64(m.lastWriteAt), EncBoolean(m.isHidden));
  }

  /** `Serialize(writer)`: the sixteen fields in `Deserialize`'s order. A null icon
      throws when its length is taken, after the fields before it were
      written. */
  method Serialize(writer: Writer, m: MenuInfo) returns (ok: bool)
    requires Encodable(m)
    modifies writer
    ensures ok <==> m.iconData.Some?
    ensures ok ==> writer.bytes == old(writer.bytes) + EncMenuInfo(m)
    ensures !ok ==> writer.bytes == old(writer.bytes) + EncIdentity(m) + EncBeforeIcon(m)
  {
    ghost var before := writer.bytes;
    WriteIdentity(writer, m);
    WriteBeforeIcon(writer, m);
    if m.iconData.None? {
      return false;
    }
    WriteIcon(writer, m.iconData.value);
    WriteModel(writer, m);
    WriteOrigin(writer, m);
    AppendFive(before, EncIdentity(m), EncBeforeIcon(m), EncIcon(m.iconData.value), EncModel(m), EncOrigin(m));
    ok := true;
  }

  // ---------------------------------------------------------------------------
  // Round trip

  // Each group: its four reads at parameter positions ("pieces", two fields at a
  // time), then one unfolding of the group's parser ("step").

  lemma NullablePair(s: seq<byte>, p: nat, a: Option<string>, b: Option<string>, rest: seq<byte>, q1: nat, q2: nat)
    requires NullableWritable(a) && NullableWritable(b)
    requires At(s, p, EncNullableString(a) + (EncNullableString(b) + rest))
    requires q1 == p + |EncNullableString(a)| && q2 == q1 + |EncNullableString(b)|
    ensures NullableStringAt(s, p) == Ok(a, q1) && NullableStringAt(s, q1) == Ok(b, q2) && At(s, q2, rest)
  {
    NullableThen(s, p, a, EncNullableString(b) + rest, q1);
    NullableThen(s, q1, b, rest, q2);
  }

  lemma Int32ThenNullable(s: seq<byte>, p: nat, c: int, d: Option<string>, q: nat)
    requires IsInt32(c) && NullableWritable(d) && At(s, p, EncInt32(c) + EncNullableString(d)) && q == p + 4
    ensures Int32At(s, p) == Ok(c, q) && NullableStringAt(s, q) == Ok(d, q + |EncNullableString(d)|)
  {
    Int32Then(s, p, c, EncNullableString(d), q);
    NullableStringRoundTrip(s, q, d);
  }

  lemma NullableThenInt32(s: seq<byte>, p: nat, a: Option<string>, c: int, rest: seq<byte>, q: nat)
    requires NullableWritable(a) && IsInt32(c) && At(s, p, EncNullableString(a) + (EncInt32(c) + rest))
    requires q == p + |EncNullableString(a)|
    ensures NullableStringAt(s, p) == Ok(a, q) && Int32At(s, q) == Ok(c, q + 4) && At(s, q + 4, rest)
  {
    NullableThen(s, p, a, EncInt32(c) + rest, q);
    Int32Then(s, q, c, rest, q + 4);
  }

  lemma SingleThenNullable(s: seq<byte>, p: nat, w: Word32, b: Option<string>, rest: seq<byte>, q1: nat, q2: nat)
    requires NullableWritable(b) && At(s, p, EncSingle(w) + (EncNullableString(b) + rest))
    requires q1 == p + 4 && q2 == q1 + |EncNullableString(b)|
    ensures SingleAt(s, p) == Ok(w, q1) && NullableStringAt(s, q1) == Ok(b, q2) && At(s, q2, rest)
  {
    SingleThen(s, p, w, EncNullableString(b) + rest, q1);
    NullableThen(s, q1, b, rest, q2);
  }

  lemma Int64ThenBoolean(s: seq<byte>, p: nat, c: int, d: bool, q: nat)
    requires IsInt64(c) && At(s, p, EncInt64(c) + EncBoolean(d)) && q == p + 8
    ensures Int64At(s, p) == Ok(c, q) && BooleanAt(s, q) == Ok(d, q + 1)
  {
    Int64Then(s, p, c, EncBoolean(d), q);
    BooleanRoundTrip(s, q, d);
  }

  lemma IdentityStep(s: seq<byte>, p: nat, a: Option<string>, q1: nat, b: Option<string>, q2: nat, c: int, q3: nat, d: Option<string>, q4: nat)
    requires NullableStringAt(s, p) == Ok(a, q1) && NullableStringAt(s, q1) == Ok(b, q2)
    requires Int32At(s, q2) == Ok(c, q3) && NullableStringAt(s, q3) == Ok(d, q4)
    ensures IdentityAt(s, p) == Ok(Identity(a, b, c, d), q4)
  {
  }

  lemma IdentityRoundTrip(s: seq<byte>, p: nat, m: MenuInfo, next: nat)
    requires Encodable(m) && At(s, p, EncIdentity(m)) && next == p + |EncIdentity(m)|
    ensures IdentityAt(s, p) == Ok(Identity(m.fileName, m.path, m.rid, m.name), next)
  {
    var q1 := p + |EncNullableString(m.fileName)|;
    var q2 := q1 + |EncNullableString(m.path)|;
    NullablePair(s, p, m.fileName, m.path, EncInt32(m.rid) + EncNullableString(m.name), q1, q2);
    Int32ThenNullable(s, q2, m.rid, m.name, q2 + 4);
    IdentityStep(s, p, m.fileName, q1, m.path, q2, m.rid, q2 + 4, m.name, next);
  }

  lemma IconRoundTrip(s: seq<byte>, p: nat, icon: seq<byte>)
    requires |icon| < TWO31 && At(s, p, EncIcon(icon))
    ensures IconDataAt(s, p) == Ok(icon, p + 4 + |icon|)
  {
    AtSplit(s, p, EncInt32(|icon|), icon);
    Int32RoundTrip(s, p, |icon|);
  }

  lemma DescriptionStep(s: seq<byte>, p: nat, a: Option<string>, q1: nat, b: int, q2: nat, c: Option<string>, q3: nat, d: seq<byte>, q4: nat)
    requires NullableStringAt(s, p) == Ok(a, q1) && Int32At(s, q1) == Ok(b, q2)
    requires NullableStringAt(s, q2) == Ok(c, q3) && IconDataAt(s, q3) == Ok(d, q4)
    ensures DescriptionAt(s, p) == Ok(Description(a, b, c, d), q4)
  {
  }

  lemma DescriptionRoundTrip(s: seq<byte>, p: nat, m: MenuInfo, next: nat)
    requires Encodable(m) && m.iconData.Some? && At(s, p, EncDescription(m)) && next == p + |EncDescription(m)|
    ensures DescriptionAt(s, p) == Ok(Description(m.setumei, m.mpn, m.iconName, m.iconData.value), next)
  {
    var icon := m.iconData.value;
    var q1 := p + |EncNullableString(m.setumei)|;
    var q2 := q1 + 4;
    var q3 := p + |EncBeforeIcon(m)|;
    AtSplit(s, p, EncBeforeIcon(m), EncIcon(icon));
    NullableThenInt32(s, p, m.setumei, m.mpn, EncNullableString(m.iconName), q1);
    NullableStringRoundTrip(s, q2, m.iconName);
    IconRoundTrip(s, q3, icon);
    DescriptionStep(s, p, m.setumei, q1, m.mpn, q2, m.iconName, q3, icon, next);
  }

  lemma ModelStep(s: seq<byte>, p: nat, a: Word32, q1: nat, b: Option<string>, q2: nat, c: int, q3: nat, d: Option<string>, q4: nat)
    requires SingleAt(s, p) == Ok(a, q1) && NullableStringAt(s, q1) == Ok(b, q2)
    requires Int32At(s, q2) == Ok(c, q3) && NullableStringAt(s, q3) == Ok(d, q4)
    ensures ModelAt(s, p) == Ok(Model(a, b, c, d), q4)
  {
  }

  lemma ModelRoundTrip(s: seq<byte>, p: nat, m: MenuInfo, next: nat)
    requires Encodable(m) && At(s, p, EncModel(m)) && next == p + |EncModel(m)|
    ensures ModelAt(s, p) == Ok(Model(m.priority, m.modelFileName, m.colorSetMPN, m.colorSetMenuName), next)
  {
    var q2 := p + 4 + |EncNullableString(m.modelFileName)|;
    SingleThenNullable(s, p, m.priority, m.modelFileName, EncInt32(m.colorSetMPN) + EncNullableString(m.colorSetMenuName), p + 4, q2);
    Int32ThenNullable(s, q2, m.colorSetMPN, m.colorSetMenuName, q2 + 4);
    ModelStep(s, p, m.priority, p + 4, m.modelFileName, q2, m.colorSetMPN, q2 + 4, m.colorSetMenuName, next);
  }

  lemma OriginStep(s: seq<byte>, p: nat, a: Option<string>, q1: nat, b: Option<string>, q2: nat, c: int, q3: nat, d: bool, q4: nat)
    requires NullableStringAt(s, p) == Ok(a, q1) && NullableStringAt(s, q1) == Ok(b, q2)
    requires Int64At(s, q2) == Ok(c, q3) && BooleanAt(s, q3) == Ok(d, q4)
    ensures OriginAt(s, p) == Ok(Origin(a, b, c, d), q4)
  {
  }

  lemma OriginRoundTrip(s: seq<byte>, p: nat, m: MenuInfo, next: nat)
    requires Encodable(m) && At(s, p, EncOrigin(m)) && next == p + |EncOrigin(m)|
    ensures OriginAt(s, p) == Ok(Origin(m.variationBaseFileName, m.modBaseFileName, m.lastWriteAt, m.isHidden), next)
  {
    var q1 := p + |EncNullableString(m.variationBaseFileName)|;
    var q2 := q1 + |EncNullableString(m.modBaseFileName)|;
    NullablePair(s, p, m.variationBaseFileName, m.modBaseFileName, EncInt64(m.lastWriteAt) + EncBoolean(m.isHidden), q1, q2);
    Int64ThenBoolean(s, q2, m.lastWriteAt, m.isHidden, q2 + 8);
    OriginStep(s, p, m.variationBaseFileName, q1, m.modBaseFileName, q2, m.lastWriteAt, q2 + 8, m.isHidden, next);
  }

  lemma ThreeSplit(s: seq<byte>, p: nat, b: seq<byte>, c: seq<byte>, d: seq<byte>, q2: nat, q3: nat)
    requires At(s, p, b + (c + d)) && q2 == p + |b| && q3 == q2 + |c|
    ensures At(s, p, b) && At(s, q2, c) && At(s, q3, d)
  {
    AtSplit(s, p, b, c + d);
    AtSplit(s, q2, c, d);
  }

  lemma MenuInfoPieces(s: seq<byte>, p: nat, m: MenuInfo, q1: nat, q2: nat, q3: nat)
    requires Encodable(m) && m.iconData.Some? && At(s, p, EncMenuInfo(m))
    requires q1 == p + |EncIdentity(m)| && q2 == q1 + |EncDescription(m)| && q3 == q2 + |EncModel(m)|
    ensures At(s, p, EncIdentity(m)) && At(s, q1, EncDescription(m)) && At(s, q2, EncModel(m)) && At(s, q3, EncOrigin(m))
  {
    var a, b, c, d := EncIdentity(m), EncDescription(m), EncModel(m), EncOrigin(m);
    AtSplit(s, p, a, b + (c + d));
    ThreeSplit(s, q1, b, c, d, q2, q3);
  }

  lemma MenuInfoStep(s: seq<byte>, p: nat, a: Identity, q1: nat, b: Description, q2: nat, c: Model, q3: nat, d: Origin, q4: nat)
    requires IdentityAt(s, p) == Ok(a, q1) && DescriptionAt(s, q1) == Ok(b, q2)
    requires ModelAt(s, q2) == Ok(c, q3) && OriginAt(s, q3) == Ok(d, q4)
    ensures MenuInfoAt(s, p) == Ok(Join(a, b, c, d), q4)
  {
  }

  /** `Deserialize` reads back exactly what `Serialize` wrote, every field
      including the null strings, whenever the icon is not null. */
  lemma MenuInfoRoundTrip(s: seq<byte>, p: nat, m: MenuInfo)
    requires Encodable(m) && m.iconData.Some? && At(s, p, EncMenuInfo(m))
    ensures MenuInfoAt(s, p) == Ok(m, p + |EncMenuInfo(m)|)
  {
    var q1 := p + |EncIdentity(m)|;
    var q2 := q1 + |EncDescription(m)|;
    var q3 := q2 + |EncModel(m)|;
    var q4 := q3 + |EncOrigin(m)|;
    MenuInfoPieces(s, p, m, q1, q2, q3);
    IdentityRoundTrip(s, p, m, q1);
    DescriptionRoundTrip(s, q1, m, q2);
    ModelRoundTrip(s, q2, m, q3);
    OriginRoundTrip(s, q3, m, q4);
    MenuInfoStep(s, p, Identity(m.fileName, m.path, m.rid, m.name), q1,
                 Description(m.setumei, m.mpn, m.iconName, m.iconData.value), q2,
                 Model(m.priority, m.modelFileName, m.colorSetMPN, m.colorSetMenuName), q3,
                 Origin(m.variationBaseFileName, m.modBaseFileName, m.lastWriteAt, m.isHidden), q4);
  }
}
