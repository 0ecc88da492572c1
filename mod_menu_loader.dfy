/** `ModMenuLoader`: loads a menu by name, from the game's archives or from a mod
    overlay on disk, and keeps every result (null included) in a cache keyed by
    the name it was asked for. */
module ModMenuLoading {
  import opened Wrappers
  import opened Wire
  import opened Cursor
  import opened Text
  import opened GameFiles
  import opened BinaryLoading
  import opened MenuInfos
  import opened MenuFixup
  import opened MenuCommands
  import opened MenuDecoding

  const ModPrefix: string := "mod_"
  const MenuExtension: string := ".menu"

  /** `menuFileName.IndexOf("mod_") == 0`, on the lower-cased name. */
  predicate IsModName(lowered: string) {
    StartsWith(lowered, ModPrefix)
  }

  /** The archive name `LoadDirect` reads a plain menu from: lower case, with
      `.menu` appended unless it is already there. */
  function MenuFileName(menuFileName: string): (r: string)
    ensures EndsWith(r, MenuExtension)
    ensures r == Lower(menuFileName) || r == Lower(menuFileName) + MenuExtension
    ensures EndsWith(Lower(menuFileName), MenuExtension) <==> r == Lower(menuFileName)
  {
    var lowered := Lower(menuFileName);
    if EndsWith(lowered, MenuExtension) then lowered
    else
      var r := lowered + MenuExtension;
      assert r[|r| - |MenuExtension|..] == MenuExtension;
      r
  }

  lemma ExtensionIsLower()
    ensures Lower(MenuExtension) == MenuExtension
  {
    var e := MenuExtension;
    assert forall i :: 0 <= i < |e| ==> LowerChar(e[i]) == e[i];
  }

  /** Normalising a normalised name changes nothing. */
  lemma MenuFileNameIdempotent(menuFileName: string)
    ensures MenuFileName(MenuFileName(menuFileName)) == MenuFileName(menuFileName)
  {
    var lowered := Lower(menuFileName);
    var r := MenuFileName(menuFileName);
    LowerIdempotent(menuFileName);
    if r != lowered {
      LowerAppend(lowered, MenuExtension);
      ExtensionIsLower();
    }
  }

  // ---------------------------------------------------------------------------
  // The loads as functions of the buffer's previous contents

  /** `LoadDirect` for a plain menu: null for a missing, invalid or empty
      archive entry; otherwise the decoding of the whole buffer after the entry
      was read into it. */
  function PlainLoad(before: Option<seq<byte>>, name: string, host: Host): (r: Option<MenuInfo>)
    ensures !Readable(host.fs(name)) ==> r.None?
    ensures r.Some? ==> r.value.fileName == Some(name) && r.value.iconData == Some([])
  {
    if !Readable(host.fs(name)) then None
    else DecodePlainMenu(ReadInto(before, host.fs(name).value.content, MinBufferSize), name, host)
  }

  /** `new FileStream(path, FileMode.Open)`: an empty path throws before the
      file system is asked. */
  function OpenFile(host: Host, path: string): Option<seq<byte>> {
    if path == [] then None else host.disk(path)
  }

  /** `LoadModDirect` with the buffer handled as the code evidently intends: a
      null or too short buffer is replaced by one of exactly the file's length. */
  function ModLoad(before: Option<seq<byte>>, name: string, path: string, host: Host): (r: Option<MenuInfo>)
    ensures OpenFile(host, path).None? ==> r.None?
    ensures r.Some? ==> r.value.priority == ModPriority && r.value.fileName == Some(name)
  {
    match OpenFile(host, path)
    case None => None
    case Some(content) => DecodeModMenu(ReadInto(before, content, 0), name, host)
  }

  /** `LoadModDirect` as written: `fileStream.Length > fileBuffer.Length`
      dereferences the buffer before anything checks it for null, so with no
      buffer yet the load throws, and the catch turns that into null. */
  function ModLoadAsWritten(before: Option<seq<byte>>, name: string, path: string, host: Host): (r: Option<MenuInfo>)
    ensures before.None? ==> r.None?
    ensures before.Some? ==> r == ModLoad(before, name, path, host)
  {
    match OpenFile(host, path)
    case None => None
    case Some(content) =>
      if before.None? then None
      else DecodeModMenu(ReadInto(before, content, 0), name, host)
  }

  /** `LoadDirect(menuFileName, menuFilePath, ref fileBuffer)`. */
  function LoadResult(before: Option<seq<byte>>, menuFileName: string, menuFilePath: string, host: Host): (r: Option<MenuInfo>)
    ensures IsModName(Lower(menuFileName)) ==> r == ModLoad(before, Lower(menuFileName), menuFilePath, host)
    ensures !IsModName(Lower(menuFileName)) ==> r == PlainLoad(before, MenuFileName(menuFileName), host)
  {
    var lowered := Lower(menuFileName);
    if IsModName(lowered) then ModLoad(before, lowered, menuFilePath, host)
    else PlainLoad(before, MenuFileName(menuFileName), host)
  }

  /** What `LoadDirect` reads into the buffer, with the buffer's minimum size:
      the mod file at the path (no minimum), or the archive entry of a plain
      menu (`MinBufferSize`); `None` when nothing is read. */
  function LoadedFile(menuFileName: string, menuFilePath: string, host: Host): Option<(seq<byte>, nat)> {
    var lowered := Lower(menuFileName);
    if IsModName(lowered) then
      (match OpenFile(host, menuFilePath)
       case None => None
       case Some(content) => Some((content, 0)))
    else if Readable(host.fs(MenuFileName(menuFileName))) then
      Some((host.fs(MenuFileName(menuFileName)).value.content, MinBufferSize))
    else None
  }

  /** A load that reads nothing gives null. */
  lemma NothingReadIsNull(before: Option<seq<byte>>, menuFileName: string, menuFilePath: string, host: Host)
    requires LoadedFile(menuFileName, menuFilePath, host).None?
    ensures LoadResult(before, menuFileName, menuFilePath, host).None?
  {
  }

  /** `Load` always passes an empty path, so through the cache a mod name never
      finds its file. */
  lemma CachedModNamesAreNull(before: Option<seq<byte>>, menuFileName: string, host: Host)
    requires IsModName(Lower(menuFileName))
    ensures LoadResult(before, menuFileName, "", host) == None
  {
  }

  /** With a buffer already allocated, the code as written and the corrected one
      agree. */
  lemma WarmBufferAgrees(before: seq<byte>, name: string, path: string, host: Host)
    ensures ModLoadAsWritten(Some(before), name, path, host) == ModLoad(Some(before), name, path, host)
  {
  }

  /** With no buffer yet (at start-up, or after `ClearCache`), the code as
      written loses every mod menu that the load is meant to decode: the null
      check after the read comes too late. */
  lemma ColdBufferDropsModMenu(name: string, path: string, host: Host)
    requires OpenFile(host, path).Some? && DecodeModMenu(OpenFile(host, path).value, name, host).Some?
    ensures ModLoad(None, name, path, host) == DecodeModMenu(OpenFile(host, path).value, name, host)
    ensures ModLoad(None, name, path, host).Some? && ModLoadAsWritten(None, name, path, host).None?
  {
    var content := OpenFile(host, path).value;
    assert Zeros(0) == [];
    assert ReadInto(None, content, 0) == content + [];
    assert content + [] == content;
  }

  // ---------------------------------------------------------------------------
  // The loads on the shared buffer

  /** `LoadDirect` for a plain menu, on the lower-cased name. */
  method LoadPlainDirect(lowered: string, fileBuffer: BufferSlot, host: Host) returns (r: Option<MenuInfo>)
    requires Lower(lowered) == lowered && !IsModName(lowered)
    modifies fileBuffer, fileBuffer.buffer
    ensures r == PlainLoad(old(Contents(fileBuffer.buffer)), MenuFileName(lowered), host)
    ensures !Readable(host.fs(MenuFileName(lowered))) ==>
              fileBuffer.buffer == old(fileBuffer.buffer)
              && (old(fileBuffer.buffer) != null ==> unchanged(old(fileBuffer.buffer)))
    ensures Readable(host.fs(MenuFileName(lowered))) ==>
              Refilled(fileBuffer, old(fileBuffer.buffer), host.fs(MenuFileName(lowered)).value.content, MinBufferSize)
  {
    var name := lowered;
    if !EndsWith(name, MenuExtension) {
      name := name + MenuExtension;
    }
    assert name == MenuFileName(lowered);
    var buffer := ReadAFileBase(name, host.fs, fileBuffer);
    if buffer == null {
      return None;
    }
    r := ReadPlainMenu(buffer[..], name, host);
  }

  /** Everything `LoadDirect` does after reading the file: the reader over the
      whole buffer, the signature, the header, the command loop, `FixMenu`. */
  method ReadPlainMenu(data: seq<byte>, name: string, host: Host) returns (r: Option<MenuInfo>)
    ensures r == DecodePlainMenu(data, name, host)
  {
    var menu := NewMenuInfo(name, host.hash(name));
    var reader := new Reader(data);
    var ok, signature := reader.ReadString();
    if !ok || signature != MenuSignature {
      return None;
    }
    var header;
    ok, header := ReadMenuHeader(reader);
    if !ok {
      return None;
    }
    menu := menu.(path := Some(header.path), name := Some(header.name));
    ok, menu := ReadCommands(reader, menu, host);
    if !ok {
      return None;
    }
    var fixed := FixMenu(menu, name, host.isEditable);
    r := if fixed.Threw? then None else Some(fixed.value);
  }

  /** Everything `LoadModDirect` does after reading the file. */
  method ReadModMenu(data: seq<byte>, name: string, host: Host) returns (r: Option<MenuInfo>)
    ensures r == DecodeModMenu(data, name, host)
  {
    var menu := NewMenuInfo(name, host.hash(name));
    menu := menu.(priority := ModPriority);
    var reader := new Reader(data);
    var ok, signature := reader.ReadString();
    if !ok || signature != ModSignature {
      return None;
    }
    var names, part, color, icon;
    ok, names := ReadModNames(reader);
    if !ok {
      return None;
    }
    ok, part := ReadModPart(reader, host);
    if !ok {
      return None;
    }
    ok, color := ReadModColor(reader, host);
    if !ok {
      return None;
    }
    ok, icon := ReadModTable(reader, names.iconName);
    if !ok {
      return None;
    }
    menu := menu.(iconName := Some(names.iconName), modBaseFileName := Some(names.modBaseFileName),
                  name := Some(names.name), mpn := part.0, setumei := Some(part.1), colorSetMPN := color.0);
    if color.0 != NullMPN {
      menu := menu.(colorSetMenuName := color.1);
    }
    menu := menu.(iconData := Some(icon));
    var fixed := FixMenu(menu, name, host.isEditable);
    r := if fixed.Threw? then None else Some(fixed.value);
  }

  /** `LoadModDirect` with the buffer allocated when it is null: grown to exactly
      the file's length when null or too short, then the file at its front. */
  method LoadModDirect(menuFileName: string, menuFilePath: string, fileBuffer: BufferSlot, host: Host) returns (r: Option<MenuInfo>)
    modifies fileBuffer, fileBuffer.buffer
    ensures r == ModLoad(old(Contents(fileBuffer.buffer)), menuFileName, menuFilePath, host)
    ensures OpenFile(host, menuFilePath).None? ==>
              fileBuffer.buffer == old(fileBuffer.buffer)
              && (old(fileBuffer.buffer) != null ==> unchanged(old(fileBuffer.buffer)))
    ensures OpenFile(host, menuFilePath).Some? ==>
              Refilled(fileBuffer, old(fileBuffer.buffer), OpenFile(host, menuFilePath).value, 0)
  {
    var file := OpenFile(host, menuFilePath);
    if file.None? {
      return None;
    }
    fileBuffer.Fill(file.value, 0);
    r := ReadModMenu(fileBuffer.buffer[..], menuFileName, host);
  }

  /** `LoadModDirect` as written: a null buffer throws at the length check. */
  method LoadModDirectAsWritten(menuFileName: string, menuFilePath: string, fileBuffer: BufferSlot, host: Host) returns (r: Option<MenuInfo>)
    modifies fileBuffer, fileBuffer.buffer
    ensures r == ModLoadAsWritten(old(Contents(fileBuffer.buffer)), menuFileName, menuFilePath, host)
    ensures old(fileBuffer.buffer) == null ==> r.None? && fileBuffer.buffer == null
  {
    var file := OpenFile(host, menuFilePath);
    if file.None? || fileBuffer.buffer == null {
      return None;
    }
    fileBuffer.Fill(file.value, 0);
    r := ReadModMenu(fileBuffer.buffer[..], menuFileName, host);
  }

  /** `LoadDirect(menuFileName, menuFilePath, ref fileBuffer)`. */
  method LoadDirect(menuFileName: string, menuFilePath: string, fileBuffer: BufferSlot, host: Host) returns (r: Option<MenuInfo>)
    modifies fileBuffer, fileBuffer.buffer
    ensures r == LoadResult(old(Contents(fileBuffer.buffer)), menuFileName, menuFilePath, host)
    ensures LoadedFile(menuFileName, menuFilePath, host).None? ==>
              fileBuffer.buffer == old(fileBuffer.buffer)
              && (old(fileBuffer.buffer) != null ==> unchanged(old(fileBuffer.buffer)))
    ensures var file := LoadedFile(menuFileName, menuFilePath, host);
            file.Some? ==> Refilled(fileBuffer, old(fileBuffer.buffer), file.value.0, file.value.1)
  {
    var lowered := Lower(menuFileName);
    if StartsWith(lowered, ModPrefix) {
      r := LoadModDirect(lowered, menuFilePath, fileBuffer, host);
      return;
    }
    MenuFileNameOfLowered(menuFileName);
    LowerIdempotent(menuFileName);
    r := LoadPlainDirect(lowered, fileBuffer, host);
  }

  lemma MenuFileNameOfLowered(menuFileName: string)
    ensures MenuFileName(Lower(menuFileName)) == MenuFileName(menuFileName)
  {
    LowerIdempotent(menuFileName);
  }

  /** The static class: the cache and the shared buffer. */
  class ModMenuLoader {
    var menuCache: map<string, Option<MenuInfo>>
    const fileBuffer: BufferSlot

    constructor ()
      ensures menuCache == map[] && fresh(fileBuffer) && fileBuffer.buffer == null
    {
      menuCache := map[];
      fileBuffer := new BufferSlot();
    }

    /** `ClearCache`: forgets every result and drops the buffer. */
    method ClearCache()
      modifies this, fileBuffer
      ensures menuCache == map[] && fileBuffer.buffer == null
    {
      menuCache := map[];
      fileBuffer.Clear();
    }

    /** `Load`: a name asked for before gets the stored result (null included)
        without touching the buffer; a new name is loaded with an empty path and
        its result stored under the name as given. */
    method Load(menuFileName: string, host: Host) returns (r: Option<MenuInfo>)
      modifies this, fileBuffer, fileBuffer.buffer
      ensures menuFileName in menuCache && menuCache[menuFileName] == r
      ensures menuFileName in old(menuCache) ==>
                r == old(menuCache[menuFileName]) && menuCache == old(menuCache)
                && fileBuffer.buffer == old(fileBuffer.buffer)
                && (fileBuffer.buffer != null ==> unchanged(fileBuffer.buffer))
      ensures menuFileName !in old(menuCache) ==>
                menuCache == old(menuCache)[menuFileName := r]
                && r == LoadResult(old(Contents(fileBuffer.buffer)), menuFileName, "", host)
      ensures menuFileName !in old(menuCache) && LoadedFile(menuFileName, "", host).None? ==>
                fileBuffer.buffer == old(fileBuffer.buffer)
                && (old(fileBuffer.buffer) != null ==> unchanged(old(fileBuffer.buffer)))
      ensures var file := LoadedFile(menuFileName, "", host);
              menuFileName !in old(menuCache) && file.Some? ==>
                Refilled(fileBuffer, old(fileBuffer.buffer), file.value.0, file.value.1)
    {
      if menuFileName in menuCache {
        return menuCache[menuFileName];
      }
      r := LoadDirect(menuFileName, "", fileBuffer, host);
      menuCache := menuCache[menuFileName := r];
    }
  }
}
