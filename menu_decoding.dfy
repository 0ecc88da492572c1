/** The two file formats `ModMenuLoader` reads: the game's `.menu` files
    (signature `CM3D2_MENU`, a fixed header, then the command stream) and mod
    overlays (signature `CM3D2_MOD`, fixed fields, then a table of named blobs of
    which one may be the icon). Each decoder reads the whole buffer it is given
    from position 0 and ends with `FixMenu`; anything that throws, and a wrong
    signature, makes the loader return null. */
module MenuDecoding {
  import opened Wrappers
  import opened Wire
  import opened Cursor
  import opened Text
  import opened BinaryExtensions
  import opened MenuInfos
  import opened MenuFixup
  import opened MenuCommands

  // ---------------------------------------------------------------------------
  // What every decoder does at the end

  /** The loader's result from what it read: null when reading threw, otherwise
      the menu after `FixMenu`, or null when that threw. */
  function Finish(body: Parse<MenuInfo>, menuFileName: string, host: Host): (r: Option<MenuInfo>)
    ensures r.Some? <==> body.Ok? && FixMenu(body.value, menuFileName, host.isEditable).Returned?
    ensures r.Some? ==> r.value == FixMenu(body.value, menuFileName, host.isEditable).value
  {
    match body
    case Fail => None
    case Ok(m, _) =>
      match FixMenu(m, menuFileName, host.isEditable)
      case Threw => None
      case Returned(fixed) => Some(fixed)
  }

  // ---------------------------------------------------------------------------
  // .menu files

  const MenuSignature: string := "CM3D2_MENU"

  /** The fields after the signature: a version, the path and the name, then two
      strings and a number the loader reads past. */
  datatype MenuHeader = MenuHeader(version: int, path: string, name: string, unused1: string, unused2: string, unused3: int)

  function HeaderFrontAt(s: seq<byte>, p: nat): Parse<(int, string, string)> {
    var version :- Int32At(s, p);
    var path :- StringAt(s, version.next);
    var name :- StringAt(s, path.next);
    Ok((version.value, path.value, name.value), name.next)
  }

  function HeaderBackAt(s: seq<byte>, p: nat): Parse<(string, string, int)> {
    var a :- StringAt(s, p);
    var b :- StringAt(s, a.next);
    var c :- Int32At(s, b.next);
    Ok((a.value, b.value, c.value), c.next)
  }

  function MenuHeaderAt(s: seq<byte>, p: nat): Parse<MenuHeader> {
    var front :- HeaderFrontAt(s, p);
    var back :- HeaderBackAt(s, front.next);
    Ok(MenuHeader(front.value.0, front.value.1, front.value.2, back.value.0, back.value.1, back.value.2), back.next)
  }

  /** After the signature: the header sets the path and the name, then the
      command loop runs. */
  function PlainBodyAt(s: seq<byte>, p: nat, m: MenuInfo, host: Host): (r: Parse<MenuInfo>)
    ensures r.Ok? ==> r.value.path.Some?
    ensures r.Ok? ==> r.value.fileName == m.fileName && r.value.rid == m.rid && r.value.iconData == m.iconData
    ensures r.Ok? ==> r.value.modBaseFileName == m.modBaseFileName && r.value.lastWriteAt == m.lastWriteAt
  {
    var h :- MenuHeaderAt(s, p);
    var m1 := m.(path := Some(h.value.path), name := Some(h.value.name));
    CommandsKeepUntouched(s, h.next, m1, host);
    CommandsAt(s, h.next, m1, host)
  }

  /** The command loop never changes the fields no command sets. */
  lemma {:induction false} CommandsKeepUntouched(s: seq<byte>, p: nat, m: MenuInfo, host: Host)
    ensures CommandsAt(s, p, m, host).Ok? ==> Untouched(m, CommandsAt(s, p, m, host).value)
    decreases |s| - p
  {
    var b := ByteAt(s, p);
    if b.Ok? && b.value != 0 {
      var list := GroupFrom(s, b.next, b.value as nat, []);
      if list.Ok? && list.value[0] != EndCommand {
        match Dispatch(m, list.value, host)
        case Threw =>
        case Returned(m2) =>
          CommandsKeepUntouched(s, list.next, m2, host);
      }
    }
  }

  /** `LoadDirect` on the contents `s` of the buffer, for the normalised file
      name `fileName`. */
  function DecodePlainMenu(s: seq<byte>, fileName: string, host: Host): (r: Option<MenuInfo>)
    ensures StringAt(s, 0).Fail? || StringAt(s, 0).value != MenuSignature ==> r.None?
    ensures r.Some? ==> r.value.fileName == Some(fileName) && r.value.rid == host.hash(fileName)
    ensures r.Some? ==> r.value.path.Some?
    ensures r.Some? ==> r.value.iconData == Some([]) && r.value.modBaseFileName.None? && r.value.lastWriteAt == 0
  {
    var sig := StringAt(s, 0);
    if sig.Fail? || sig.value != MenuSignature then None
    else Finish(PlainBodyAt(s, sig.next, NewMenuInfo(fileName, host.hash(fileName)), host), fileName, host)
  }

  method ReadHeaderFront(reader: Reader) returns (ok: bool, v: (int, string, string))
    modifies reader
    ensures Tracks(ok, v, HeaderFrontAt(reader.data, old(reader.pos)), reader.pos)
  {
    v := (0, "", "");
    var version, path, name;
    ok, version := reader.ReadInt32();
    if !ok { return; }
    ok, path := reader.ReadString();
    if !ok { return; }
    ok, name := reader.ReadString();
    v := (version, path, name);
  }

  method ReadHeaderBack(reader: Reader) returns (ok: bool, v: (string, string, int))
    modifies reader
    ensures Tracks(ok, v, HeaderBackAt(reader.data, old(reader.pos)), reader.pos)
  {
    v := ("", "", 0);
    var a, b, c;
    ok, a := reader.ReadString();
    if !ok { return; }
    ok, b := reader.ReadString();
    if !ok { return; }
    ok, c := reader.ReadInt32();
    v := (a, b, c);
  }

  method ReadMenuHeader(reader: Reader) returns (ok: bool, h: MenuHeader)
    modifies reader
    ensures Tracks(ok, h, MenuHeaderAt(reader.data, old(reader.pos)), reader.pos)
  {
    h := MenuHeader(0, "", "", "", "", 0);
    var front, back;
    ok, front := ReadHeaderFront(reader);
    if !ok { return; }
    ok, back := ReadHeaderBack(reader);
    h := MenuHeader(front.0, front.1, front.2, back.0, back.1, back.2);
  }

  // ---------------------------------------------------------------------------
  // Mod overlays

  const ModSignature: string := "CM3D2_MOD"

  /** `1000f`, the priority of every mod menu, as its bit pattern. */
  const ModPriority: Word32 := 0x447A_0000

  datatype ModNames = ModNames(version: int, iconName: string, modBaseFileName: string, name: string)

  function ModNamesAt(s: seq<byte>, p: nat): Parse<ModNames> {
    var version :- Int32At(s, p);
    var iconName :- StringAt(s, version.next);
    var modBase :- StringAt(s, iconName.next);
    var name :- StringAt(s, modBase.next);
    Ok(ModNames(version.value, iconName.value, modBase.value, name.value), name.next)
  }

  /** The part type (by name) and the description. */
  function ModPartAt(s: seq<byte>, p: nat, host: Host): Parse<(MPN, string)> {
    var mpn :- MPNAt(s, p, host.partMpn);
    var setumei :- StringAt(s, mpn.next);
    Ok((mpn.value, setumei.value), setumei.next)
  }

  /** The colour-set part type, and the colour-set menu only when that type is
      not `null_mpn`. */
  function ModColorAt(s: seq<byte>, p: nat, host: Host): (r: Parse<(MPN, Option<string>)>)
    ensures r.Ok? ==> (r.value.1.Some? <==> r.value.0 != NullMPN)
  {
    var mpn :- MPNAt(s, p, host.partMpn);
    if mpn.value == NullMPN then Ok((mpn.value, None), mpn.next)
    else
      var name :- StringAt(s, mpn.next);
      Ok((mpn.value, Some(name.value)), name.next)
  }

  /** One entry of the blob table: a key, then `ReadBytes(ReadInt32())`. */
  datatype Blob = Blob(key: string, data: seq<byte>)

  function BlobAt(s: seq<byte>, p: nat): Parse<Blob> {
    var key :- StringAt(s, p);
    var data :- IconDataAt(s, key.next);
    Ok(Blob(key.value, data.value), data.next)
  }

  /** The icon bytes after `k` more blobs at `p`, given the icon so far: a blob
      whose key equals the icon name up to case replaces it. */
  function BlobsAt(s: seq<byte>, p: nat, k: nat, iconName: string, icon: seq<byte>): Parse<seq<byte>>
    decreases k
  {
    if k == 0 then Ok(icon, p)
    else
      var blob :- BlobAt(s, p);
      BlobsAt(s, blob.next, k - 1, iconName, Pick(blob.value, iconName, icon))
  }

  /** The icon after one blob: its data when its key matches. */
  function Pick(blob: Blob, iconName: string, icon: seq<byte>): seq<byte> {
    if EqualsIgnoreCase(blob.key, iconName) then blob.data else icon
  }

  lemma BlobsStep(s: seq<byte>, p: nat, k: nat, iconName: string, icon: seq<byte>, blob: Blob, q: nat)
    requires k > 0 && BlobAt(s, p) == Ok(blob, q)
    ensures BlobsAt(s, p, k, iconName, icon) == BlobsAt(s, q, k - 1, iconName, Pick(blob, iconName, icon))
  {
  }

  /** The number of times `for (int j = 0; j < num; j++)` runs. */
  function Times(num: int): nat {
    if num < 0 then 0 else num
  }

  /** A skipped string, the blob count, the blobs; the icon starts empty. */
  function ModTableAt(s: seq<byte>, p: nat, iconName: string): Parse<seq<byte>> {
    var unused :- StringAt(s, p);
    var num :- Int32At(s, unused.next);
    BlobsAt(s, num.next, Times(num.value), iconName, [])
  }

  function ModBodyAt(s: seq<byte>, p: nat, m: MenuInfo, host: Host): (r: Parse<MenuInfo>)
    ensures r.Ok? ==> r.value.priority == m.priority && r.value.fileName == m.fileName && r.value.rid == m.rid
    ensures r.Ok? ==> r.value.iconData.Some? && r.value.lastWriteAt == m.lastWriteAt
    ensures r.Ok? && r.value.colorSetMPN == NullMPN ==> r.value.colorSetMenuName == m.colorSetMenuName
  {
    var names :- ModNamesAt(s, p);
    var part :- ModPartAt(s, names.next, host);
    var color :- ModColorAt(s, part.next, host);
    var icon :- ModTableAt(s, color.next, names.value.iconName);
    Ok(m.(iconName := Some(names.value.iconName), modBaseFileName := Some(names.value.modBaseFileName),
          name := Some(names.value.name), mpn := part.value.0, setumei := Some(part.value.1),
          colorSetMPN := color.value.0,
          colorSetMenuName := if color.value.1.Some? then color.value.1 else m.colorSetMenuName,
          iconData := Some(icon.value)),
       icon.next)
  }

  /** `LoadModDirect` on the contents `s` of the buffer. */
  function DecodeModMenu(s: seq<byte>, fileName: string, host: Host): (r: Option<MenuInfo>)
    ensures StringAt(s, 0).Fail? || StringAt(s, 0).value != ModSignature ==> r.None?
    ensures r.Some? ==> r.value.fileName == Some(fileName) && r.value.rid == host.hash(fileName)
    ensures r.Some? ==> r.value.priority == ModPriority && r.value.iconData.Some?
    ensures r.Some? && r.value.colorSetMPN == NullMPN ==> r.value.colorSetMenuName.None?
  {
    var sig := StringAt(s, 0);
    if sig.Fail? || sig.value != ModSignature then None
    else
      var m := NewMenuInfo(fileName, host.hash(fileName)).(priority := ModPriority);
      Finish(ModBodyAt(s, sig.next, m, host), fileName, host)
  }

  method ReadModNames(reader: Reader) returns (ok: bool, v: ModNames)
    modifies reader
    ensures Tracks(ok, v, ModNamesAt(reader.data, old(reader.pos)), reader.pos)
  {
    v := ModNames(0, "", "", "");
    var version, iconName, modBase, name;
    ok, version := reader.ReadInt32();
    if !ok { return; }
    ok, iconName := reader.ReadString();
    if !ok { return; }
    ok, modBase := reader.ReadString();
    if !ok { return; }
    ok, name := reader.ReadString();
    v := ModNames(version, iconName, modBase, name);
  }

  method ReadModPart(reader: Reader, host: Host) returns (ok: bool, v: (MPN, string))
    modifies reader
    ensures Tracks(ok, v, ModPartAt(reader.data, old(reader.pos), host), reader.pos)
  {
    v := (NullMPN, "");
    var mpn, setumei;
    ok, mpn := ReadMPN(reader, host.partMpn);
    if !ok { return; }
    ok, setumei := reader.ReadString();
    v := (mpn, setumei);
  }

  method ReadModColor(reader: Reader, host: Host) returns (ok: bool, v: (MPN, Option<string>))
    modifies reader
    ensures Tracks(ok, v, ModColorAt(reader.data, old(reader.pos), host), reader.pos)
  {
    var mpn;
    ok, mpn := ReadMPN(reader, host.partMpn);
    v := (mpn, None);
    if !ok { return; }
    if mpn != NullMPN {
      var name;
      ok, name := reader.ReadString();
      v := (mpn, Some(name));
    }
  }

  method ReadBlob(reader: Reader) returns (ok: bool, blob: Blob)
    modifies reader
    ensures Tracks(ok, blob, BlobAt(reader.data, old(reader.pos)), reader.pos)
  {
    blob := Blob("", []);
    var key, count, data;
    ok, key := reader.ReadString();
    if !ok { return; }
    ok, count := reader.ReadInt32();
    if !ok { return; }
    ok, data := reader.ReadBytes(count);
    blob := Blob(key, data);
  }

  /** The `for` loop over the blob table. */
  method ReadBlobs(reader: Reader, num: int, iconName: string) returns (ok: bool, icon: seq<byte>)
    modifies reader
    ensures Tracks(ok, icon, BlobsAt(reader.data, old(reader.pos), Times(num), iconName, []), reader.pos)
  {
    ghost var spec := BlobsAt(reader.data, reader.pos, Times(num), iconName, []);
    icon := [];
    var j := 0;
    while j < num
      invariant 0 <= j <= Times(num)
      invariant spec == BlobsAt(reader.data, reader.pos, Times(num) - j, iconName, icon)
    {
      ghost var p := reader.pos;
      ghost var left := Times(num) - j;
      var blob;
      ok, blob := ReadBlob(reader);
      if !ok {
        return;
      }
      BlobsStep(reader.data, p, left, iconName, icon, blob, reader.pos);
      if EqualsIgnoreCase(blob.key, iconName) {
        icon := blob.data;
      }
      j := j + 1;
    }
    ok := true;
  }

  method ReadModTable(reader: Reader, iconName: string) returns (ok: bool, icon: seq<byte>)
    modifies reader
    ensures Tracks(ok, icon, ModTableAt(reader.data, old(reader.pos), iconName), reader.pos)
  {
    icon := [];
    var unused, num;
    ok, unused := reader.ReadString();
    if !ok { return; }
    ok, num := reader.ReadInt32();
    if !ok { return; }
    ok, icon := ReadBlobs(reader, num, iconName);
  }

  // ---------------------------------------------------------------------------
  // The blob table against a reference definition

  /** The blob table itself. */
  function BlobTableAt(s: seq<byte>, p: nat, k: nat): (r: Parse<seq<Blob>>)
    ensures r.Ok? ==> |r.value| == k
    decreases k
  {
    if k == 0 then Ok([], p)
    else
      var blob :- BlobAt(s, p);
      var rest :- BlobTableAt(s, blob.next, k - 1);
      Ok([blob.value] + rest.value, rest.next)
  }

  lemma TableStep(s: seq<byte>, p: nat, k: nat, blob: Blob, q: nat)
    requires k > 0 && BlobAt(s, p) == Ok(blob, q)
    ensures BlobTableAt(s, p, k).Ok? <==> BlobTableAt(s, q, k - 1).Ok?
    ensures BlobTableAt(s, q, k - 1).Ok? ==>
              BlobTableAt(s, p, k) == Ok([blob] + BlobTableAt(s, q, k - 1).value, BlobTableAt(s, q, k - 1).next)
  {
  }

  /** The data of the last blob whose key matches `iconName` up to case, `icon`
      when none does. */
  function LastIcon(blobs: seq<Blob>, iconName: string, icon: seq<byte>): (r: seq<byte>)
    ensures r == icon || exists i :: 0 <= i < |blobs| && EqualsIgnoreCase(blobs[i].key, iconName) && r == blobs[i].data
    ensures (forall i :: 0 <= i < |blobs| ==> !EqualsIgnoreCase(blobs[i].key, iconName)) ==> r == icon
  {
    if blobs == [] then icon
    else
      var last := blobs[|blobs| - 1];
      if EqualsIgnoreCase(last.key, iconName) then last.data
      else LastIcon(blobs[..|blobs| - 1], iconName, icon)
  }

  /** The last match wins: taking the first blob into account before the others
      gives the same icon. */
  lemma {:induction false} LastIconFirst(blob: Blob, rest: seq<Blob>, iconName: string, icon: seq<byte>)
    ensures LastIcon([blob] + rest, iconName, icon) == LastIcon(rest, iconName, Pick(blob, iconName, icon))
    decreases |rest|
  {
    var all := [blob] + rest;
    if rest != [] {
      var init := rest[..|rest| - 1];
      assert all[..|all| - 1] == [blob] + init;
      assert all[|all| - 1] == rest[|rest| - 1];
      LastIconFirst(blob, init, iconName, icon);
    } else {
      assert all == [blob];
      assert all[..0] == [];
    }
  }

  /** Reading the blobs one after another keeps the data of the last blob whose
      key matches, and the initial icon when none does. */
  lemma {:induction false} BlobsKeepLastMatch(s: seq<byte>, p: nat, k: nat, iconName: string, icon: seq<byte>)
    ensures BlobsAt(s, p, k, iconName, icon).Ok? <==> BlobTableAt(s, p, k).Ok?
    ensures BlobTableAt(s, p, k).Ok? ==>
              BlobsAt(s, p, k, iconName, icon)
              == Ok(LastIcon(BlobTableAt(s, p, k).value, iconName, icon), BlobTableAt(s, p, k).next)
    decreases k
  {
    if k > 0 {
      var blob := BlobAt(s, p);
      if blob.Ok? {
        var b := blob.value;
        var q := blob.next;
        BlobsKeepLastMatch(s, q, k - 1, iconName, Pick(b, iconName, icon));
        KeepLastStep(s, p, k, iconName, icon, b, q);
      }
    }
  }

  /** One blob read before the others keeps the last match. */
  lemma KeepLastStep(s: seq<byte>, p: nat, k: nat, iconName: string, icon: seq<byte>, b: Blob, q: nat)
    requires k > 0 && BlobAt(s, p) == Ok(b, q)
    requires BlobsAt(s, q, k - 1, iconName, Pick(b, iconName, icon)).Ok? <==> BlobTableAt(s, q, k - 1).Ok?
    requires BlobTableAt(s, q, k - 1).Ok? ==>
               BlobsAt(s, q, k - 1, iconName, Pick(b, iconName, icon))
               == Ok(LastIcon(BlobTableAt(s, q, k - 1).value, iconName, Pick(b, iconName, icon)), BlobTableAt(s, q, k - 1).next)
    ensures BlobsAt(s, p, k, iconName, icon).Ok? <==> BlobTableAt(s, p, k).Ok?
    ensures BlobTableAt(s, p, k).Ok? ==>
              BlobsAt(s, p, k, iconName, icon)
              == Ok(LastIcon(BlobTableAt(s, p, k).value, iconName, icon), BlobTableAt(s, p, k).next)
  {
    BlobsStep(s, p, k, iconName, icon, b, q);
    TableStep(s, p, k, b, q);
    var rest := BlobTableAt(s, q, k - 1);
    if rest.Ok? {
      LastIconFirst(b, rest.value, iconName, icon);
    }
  }
}
