# COM3D2.MTEUtils, modelled in Dafny

This project models the core of the utility layer of the COM3D2 motion
timeline editor. Its centre is the code that decodes the game's binary
containers:

- plain `.menu` files (`CM3D2_MENU`: a fixed header, then a command stream);
- `.mod` overlays (`CM3D2_MOD`: fixed fields, then a named-blob table);
- the editor's own `MenuInfo` cache records (`Serialize`/`Deserialize`);
- `.tex` textures (`CM3D2_TEX`, with version-gated fields);
- `.preset` files (`CM3D2_PRESET`, with version rejection ranges).

The menu and preset loaders read their files into shared, reused byte
buffers. Only the menu decoders are followed by the menu fix-up (name, path,
description, variation and hidden flag) and the menu memo cache.

Around that core sit the smaller stateful utilities of the same code base:

- the natural-order string comparer;
- the maid part-type enum and its category tables;
- the dictionary, list and array helpers;
- the finger lock flags and the colour-palette slots;
- transform paths;
- the tile-view content tree;
- a GUI view's field-cache pools and the float and int field caches;
- the animation-layer record.

How the model is built:

- **Streams.** They follow the .NET `BinaryReader`/`BinaryWriter` conventions:
  - fixed-width integers are little-endian;
  - a string is a 7-bit-encoded length followed by UTF-8 bytes;
  - a boolean is one byte.

  Every read is a function from a byte sequence and a position to
  `Ok(value, next)` or `Fail`. `Fail` stands for the exception .NET throws on
  a read past the end; the loaders' `catch` turns it into `null`.
- **Cursors.** The readers are classes with a `pos` cursor. Each reading
  method is proved against its reading function, and each writer method
  against the bytes it appends.
- **Round trips.** They are proved layer by layer, up to whole `MenuInfo`
  records, texture files and preset headers.
- **Floats** are opaque 32-bit words.
- **Foreign calls** are parameters of the model. These are the game file
  system, `FileStream`, `MPNUtils.GetMPN`/`IsEditableMPN`,
  `string.GetHashCode`, `float.Parse`, the float formatter and the game's
  preset payload deserializers.
- **Static buffers** (`_fileBuffer`, `m_texTempFile`, `m_tempBuffer`) are
  `BufferSlot` objects holding an `array?<byte>`. They are reallocated and
  filled in place, as `ref byte[]` does.
- **Mutable objects** are classes whose methods update fields, each with its
  `modifies` frame:
  - the content tree, the caches and the pools;
  - the finger flags;
  - the animation-layer record.

Files:

| file | models |
|---|---|
| `wrappers.dfy` | `Option`, `Parse`, `Outcome` |
| `wire.dfy`, `cursor.dfy` | the .NET binary stream conventions, readers and writers |
| `binary_extensions.dfy` | `BinaryExtensions.cs` |
| `game_files.dfy`, `binary_loader.dfy` | the shared buffers and `BinaryLoader.cs` |
| `texture_loader.dfy` | `TextureLoader.cs` |
| `preset_loader.dfy` | `PresetLoader.cs` |
| `menu_info.dfy` | `MenuInfo` and its cache format |
| `menu_commands.dfy`, `menu_decoding.dfy` | the `.menu` command stream and the two menu decoders |
| `menu_fixup.dfy`, `paths.dfy`, `text.dfy` | `FixMenu`, `FixMenuPath` and the string and path operations they use |
| `mod_menu_loader.dfy` | `ModMenuLoader` and its cache |
| `maid_part_type.dfy`, `maid_part_utils.dfy` | `MaidPartType.cs`, `MaidPartUtils.cs` |
| `natural_string_comparer.dfy` | `NaturalStringComparer.cs` |
| `extensions.dfy` | the modelled part of `Extensions.cs` |
| `gui_view.dfy`, `gui_cache.dfy` | the modelled part of `GUIView.cs`, and `GUICache.cs` |
| `animation_layer_info.dfy` | `AnimationLayerInfo.cs` |

## Model

| member | source | states |
|---|---|---|
| BinaryExtensions.NullableStringAt | BinaryExtensions.cs:8-15 | a nullable string reads one flag byte; a zero flag gives null and consumes only that byte; otherwise exactly one string follows |
| BinaryExtensions.EncNullableString | BinaryExtensions.cs:17-25 | null is written as exactly the one byte 0; a string as 1 followed by the string |
| BinaryExtensions.NullableStringRoundTrip | BinaryExtensions.cs:8-25 | what `WriteNullableString` writes, `ReadNullableString` reads back exactly, null included, consuming exactly what was written |
| BinaryExtensions.ReadNullableString | BinaryExtensions.cs:8-15 | the reader method succeeds, returns and advances exactly as the nullable-string reading function says |
| BinaryExtensions.WriteNullableString | BinaryExtensions.cs:17-25 | the writer appends exactly the nullable-string encoding |
| BinaryExtensions.SinglesAt | BinaryExtensions.cs:54-62 | `n` singles read succeed iff `4n` bytes remain, consume exactly `4n` bytes and yield the words at `p`, `p+4`, … in order |
| BinaryExtensions.Vector2At | BinaryExtensions.cs:27-30 | a `Vector2` reads exactly 8 bytes, x then y |
| BinaryExtensions.Vector3At | BinaryExtensions.cs:32-35 | a `Vector3` reads exactly 12 bytes, x, y, z in order |
| BinaryExtensions.Vector4At | BinaryExtensions.cs:44-47 | a `Vector4` reads exactly 16 bytes in component order |
| BinaryExtensions.QuaternionAt | BinaryExtensions.cs:49-52 | a `Quaternion` reads exactly 16 bytes in component order |
| BinaryExtensions.ReadVector2 | BinaryExtensions.cs:27-30 | the reader method agrees with `Vector2At` |
| BinaryExtensions.ReadVector3 | BinaryExtensions.cs:32-35 | the reader method agrees with `Vector3At` |
| BinaryExtensions.ReadVector4 | BinaryExtensions.cs:44-47 | the reader method agrees with `Vector4At` |
| BinaryExtensions.ReadQuaternion | BinaryExtensions.cs:49-52 | the reader method agrees with `QuaternionAt` |
| BinaryExtensions.ReadMatrix4x4 | BinaryExtensions.cs:54-62 | the loop fills elements 0..15 in order from 64 consecutive bytes, as `SinglesAt(…, 16)` says |
| BinaryExtensions.EncVector3 | BinaryExtensions.cs:37-42 | a `Vector3` is written as 12 bytes |
| BinaryExtensions.WriteVector3 | BinaryExtensions.cs:37-42 | the writer appends x, y, z in order |
| BinaryExtensions.Vector3RoundTrip | BinaryExtensions.cs:32-42 | `ReadVector3` recovers the three words `Write(Vector3)` wrote and consumes 12 bytes |
| BinaryExtensions.MPNRoundTrip | BinaryExtensions.cs:64-67 | `ReadMPN` consumes exactly one string and yields the lookup of that name |
| BinaryExtensions.ReadMPN | BinaryExtensions.cs:64-67 | the reader method agrees with the part-type reading function |
| Wire.BooleanRoundTrip | ModMenuLoader.cs:50 | a boolean written as one byte reads back as itself |
| Wire.Int32RoundTrip | ModMenuLoader.cs:37 | a 32-bit integer written little-endian reads back as itself and consumes 4 bytes |
| Wire.Int64RoundTrip | ModMenuLoader.cs:49 | a 64-bit integer written little-endian reads back as itself and consumes 8 bytes |
| Wire.SingleRoundTrip | ModMenuLoader.cs:43 | a float word reads back as itself and consumes 4 bytes |
| Wire.Read7BitRoundTrip | BinaryExtensions.cs:14 | a string length written in the 7-bit encoding reads back as itself |
| Wire.Utf8RoundTrip | BinaryExtensions.cs:14 | the UTF-8 bytes of a string decode back to the string |
| Wire.StringRoundTrip | BinaryExtensions.cs:14-23 | a string written as length + UTF-8 reads back as itself and consumes exactly its encoding |
| GameFiles.BufferSlot.Reserve | BinaryLoader.cs:33-40 | a null buffer becomes a fresh zeroed one of `max(floor, size)` bytes; a too-short one is replaced by one of exactly `size`; a long enough one is kept; the buffer never shrinks |
| GameFiles.BufferSlot.Fill | BinaryLoader.cs:33-41 | after the reservation the file's bytes sit at the front of the buffer and the rest keeps the old (or zero) bytes |
| GameFiles.ReadInto | BinaryLoader.cs:33-42 | the buffer a load leaves behind starts with the file and keeps the old length when the old buffer was long enough |
| BinaryLoading.ReadAFileBase | BinaryLoader.cs:19-53 | a missing, invalid or empty entry gives null and leaves the buffer untouched; otherwise the result is the shared buffer itself, refilled with the file's bytes (first allocation `max(500000, size)`, regrown only when too short) |
| BinaryLoading.BinaryLoader.ClearCache | BinaryLoader.cs:9-12 | the static buffer becomes null |
| BinaryLoading.BinaryLoader.ReadShared | BinaryLoader.cs:14-17 | the one-argument overload does the same on the static buffer |
| TextureLoading.RectAt | TextureLoader.cs:83-88 | a rect reads exactly 16 bytes: x, y, width, height |
| TextureLoading.RectsAt | TextureLoader.cs:81-89 | `n` rects read exactly `16n` bytes, in order |
| TextureLoading.RectTableAt | TextureLoader.cs:75-91 | before version 1011 no table is read; the table is null unless the count is positive |
| TextureLoading.HeaderAt | TextureLoader.cs:69-96 | before version 1010 width, height and format stay 0, 0, ARGB32 and no table is present |
| TextureLoading.DimsAt | TextureLoader.cs:93-95 | width, height and format are three 4-byte reads |
| TextureLoading.PayloadAt | TextureLoader.cs:98-100 | the payload array has exactly the declared length; bytes past the end of the data stay 0 |
| TextureLoading.BigEndianInt32 | TextureLoader.cs:104-105 | four bytes shifted together form a 32-bit int |
| TextureLoading.ResourceAt | TextureLoader.cs:98-110 | the resource exists iff the size is non-negative and a version 1000 payload holds at least 24 bytes; it carries the payload, format and table |
| TextureLoading.TextureAt | TextureLoader.cs:55-64 | a signature other than `CM3D2_TEX` gives null |
| TextureLoading.ReadRect | TextureLoader.cs:83-88 | the reader method agrees with `RectAt` |
| TextureLoading.ReadRectTable | TextureLoader.cs:75-91 | the loop filling `array[i]` agrees with `RectTableAt` |
| TextureLoading.ReadHeader | TextureLoader.cs:69-96 | the reader method agrees with `HeaderAt` |
| TextureLoading.ReadDims | TextureLoader.cs:93-95 | the reader method agrees with `DimsAt` |
| TextureLoading.ReadPreamble | TextureLoader.cs:66-98 | the reader method agrees with the preamble reading function |
| TextureLoading.ReadPayload | TextureLoader.cs:98-100 | `Read` fills the array with what is left and advances by that much |
| TextureLoading.ReadBody | TextureLoader.cs:66-110 | the reader method agrees with the body reading function |
| TextureLoading.TextureLoader.ClearCache | TextureLoader.cs:12-15 | the static buffer becomes null |
| TextureLoading.TextureLoader.LoadTextureFile | TextureLoader.cs:39-111 | a null or invalid file is null and leaves the buffer alone; otherwise the buffer grows as in `BinaryLoader` and the result is the decoding of the buffer |
| TextureLoading.TextureLoader.LoadTextureFileByName | TextureLoader.cs:17-37 | the string overload decodes the opened entry and turns every exception into null; a missing or invalid entry leaves the buffer (pointer and contents) untouched, a valid one refills it as `ReadAFileBase` does |
| TextureLoading.RectsRoundTrip | TextureLoader.cs:81-89 | rects written in order are read back in order |
| TextureLoading.TableRoundTrip | TextureLoader.cs:75-91 | the table read back is the written one from version 1011 on, null before it or when empty |
| TextureLoading.DimsRoundTrip | TextureLoader.cs:93-95 | width, height and format read back as written |
| TextureLoading.HeaderRoundTrip | TextureLoader.cs:69-96 | the header read back keeps exactly the fields the version stores |
| TextureLoading.PreambleRoundTrip | TextureLoader.cs:66-98 | version, name, header and size read back as written |
| TextureLoading.PayloadRoundTrip | TextureLoader.cs:98-100 | a payload written whole is read back exactly |
| TextureLoading.ResourceRoundTrip | TextureLoader.cs:98-110 | the resource built from a written payload is `Loaded(t)`; version 1000 takes width and height big-endian from payload bytes 16..23 |
| TextureLoading.SignatureRoundTrip | TextureLoader.cs:57-58 | the `CM3D2_TEX` signature is read back |
| TextureLoading.BodyRoundTrip | TextureLoader.cs:66-110 | after the signature, a written file reads back as `Loaded(t)`, and a short version 1000 payload throws |
| TextureLoading.TextureRoundTrip | TextureLoader.cs:55-110 | decoding a written texture gives back every field its version keeps: versions 1001..1009 get width = height = 0 |
| TextureLoading.ShortLegacyPayloadThrows | TextureLoader.cs:102-106 | a version 1000 file whose payload is shorter than 24 bytes throws at `array2[16..23]` |
| PresetLoading.ThumbnailAt | PresetLoader.cs:69-74 | the thumbnail bytes are read only when the length is not 0, and are null otherwise |
| PresetLoading.PayloadsAt | PresetLoader.cs:76-86 | the property list is always read, the colours only from version 2 on, the body after them from version 200 on; below 200 the result is exactly the properties and colours read, at 200 and above it succeeds iff the body read where the colours end succeeds, and ends where the body ends |
| PresetLoading.ColorsAt | PresetLoader.cs:78-81 | the colours are read iff the version is at least 2 |
| PresetLoading.AcceptedAt | PresetLoader.cs:67-93 | the result carries the file name, the version and the caller's `lastWriteAt`; colours exist iff version ≥ 2 |
| PresetLoading.PresetAt | PresetLoader.cs:54-94 | the result is null iff the version is ≥ 30000 or in 1560..19999; the header is compared with `CM3D2_PRESET` only by `NDebug.Assert`, which is taken to return |
| PresetLoading.ReadThumbnail | PresetLoader.cs:69-74 | the reader method agrees with `ThumbnailAt` |
| PresetLoading.ReadPayloads | PresetLoader.cs:76-86 | the reader method agrees with `PayloadsAt` |
| PresetLoading.LoadFrom | PresetLoader.cs:54-94 | the loader on a reader agrees with `PresetAt`, and an exception escapes |
| PresetLoading.PresetLoader.ClearCache | PresetLoader.cs:20-23 | the buffer becomes null |
| PresetLoading.PresetLoader.Load | PresetLoader.cs:25-52 | a missing file throws; otherwise the buffer is replaced by one of exactly the file length when null or too short (no floor), filled, and decoded with the bare file name |
| PresetLoading.ThumbnailRoundTrip | PresetLoader.cs:69-74 | a written thumbnail reads back, an empty one as null |
| PresetLoading.AcceptedRoundTrip | PresetLoader.cs:67-93 | the fixed fields after an accepted version read back as written |
| PresetLoading.PresetRoundTrip | PresetLoader.cs:54-94 | a file with a rejected version reads as null right after the version; an accepted one as the preset built from its fields |
| MenuInfos.NewMenuInfo | ModMenuLoader.cs:10-29 | a new record has the given file name and rid, an empty icon, null part types, priority 0, not hidden |
| MenuInfos.IconDataAt | ModMenuLoader.cs:42 | the icon is a non-negative count followed by that many bytes |
| MenuInfos.MenuInfoAt | ModMenuLoader.cs:31-52 | a deserialized record always has icon data |
| MenuInfos.Deserialize | ModMenuLoader.cs:31-52 | the reader method reads the sixteen fields in order, as `MenuInfoAt` says |
| MenuInfos.Serialize | ModMenuLoader.cs:54-73 | the record is written in the fixed field order; a null icon throws after the fields before it |
| MenuInfos.IdentityRoundTrip | ModMenuLoader.cs:35-38 | file name, path, rid and name read back as written |
| MenuInfos.IconRoundTrip | ModMenuLoader.cs:42 | icon data written with its length read back |
| MenuInfos.DescriptionRoundTrip | ModMenuLoader.cs:39-42 | description, part type, icon name and icon read back |
| MenuInfos.ModelRoundTrip | ModMenuLoader.cs:43-46 | priority, model file, colour-set type and menu read back |
| MenuInfos.OriginRoundTrip | ModMenuLoader.cs:47-50 | variation base, mod base, `lastWriteAt` and `isHidden` read back |
| MenuInfos.MenuInfoRoundTrip | ModMenuLoader.cs:31-73 | `Deserialize(Serialize(m))` reproduces every field of `m`, null strings included, whenever `m.iconData` is not null |
| MenuCommands.GroupFrom | ModMenuLoader.cs:164-167 | a group of `k` strings adds exactly `k` strings after the ones already read |
| MenuCommands.Dispatch | ModMenuLoader.cs:177-226 | a command applies only with a non-empty element 1 (`color_set` needs three elements); unknown commands change nothing; only `priority` can throw (`float.Parse`); fields no command writes are untouched |
| MenuCommands.DispatchEffect | ModMenuLoader.cs:177-226 | each keyword writes exactly its field from element 1 (`color_set` also element 2) |
| MenuCommands.CommandsAt | ModMenuLoader.cs:156-228 | the command loop consumes at least its stop byte and stays inside the data |
| MenuCommands.ReadGroup | ModMenuLoader.cs:164-167 | the inner loop agrees with `GroupFrom` |
| MenuCommands.ReadCommands | ModMenuLoader.cs:156-228 | the `for (;;)` loop agrees with `CommandsAt` |
| MenuCommands.GroupRoundTrip | ModMenuLoader.cs:164-167 | a written group reads back as its strings |
| MenuCommands.CommandsRoundTrip | ModMenuLoader.cs:156-228 | a written command stream ended by a zero byte applies its commands in order |
| MenuCommands.ZeroStops | ModMenuLoader.cs:158-163 | a zero count ends the loop |
| MenuCommands.EndStops | ModMenuLoader.cs:172-175 | the command `end` ends the loop, whatever follows |
| MenuCommands.UnknownIgnored | ModMenuLoader.cs:177-226 | a command that is no keyword changes nothing |
| MenuCommands.LaterOverwrites | ModMenuLoader.cs:177-226 | a later command of the same kind overwrites an earlier one |
| MenuDecoding.Finish | ModMenuLoader.cs:231-239 | the menu is returned iff the body decoded and `FixMenu` did not throw; any exception yields null |
| MenuDecoding.PlainBodyAt | ModMenuLoader.cs:149-228 | the header sets the path; file name, rid, icon, mod base and `lastWriteAt` come through untouched |
| MenuDecoding.CommandsKeepUntouched | ModMenuLoader.cs:156-228 | the command loop never touches the fields no command writes |
| MenuDecoding.DecodePlainMenu | ModMenuLoader.cs:137-239 | null unless the first string is `CM3D2_MENU`; a result has the normalized file name, its hash and a path |
| MenuDecoding.ReadMenuHeader | ModMenuLoader.cs:149-154 | the header reads agree with the header reading function |
| MenuDecoding.ModColorAt | ModMenuLoader.cs:288-292 | the colour-set menu name is read iff the colour-set type is not `null_mpn` |
| MenuDecoding.ModBodyAt | ModMenuLoader.cs:282-306 | the mod fields keep priority, file name, rid and `lastWriteAt`, and always set icon data |
| MenuDecoding.DecodeModMenu | ModMenuLoader.cs:255-318 | null unless the first string is `CM3D2_MOD`; a result has priority 1000 and icon data |
| MenuDecoding.ReadModNames | ModMenuLoader.cs:282-285 | the reader method agrees with the names reading function |
| MenuDecoding.ReadModPart | ModMenuLoader.cs:286-287 | the reader method agrees with the part reading function |
| MenuDecoding.ReadModColor | ModMenuLoader.cs:288-292 | the reader method agrees with `ModColorAt` |
| MenuDecoding.ReadBlob | ModMenuLoader.cs:299-301 | one blob is a key then `ReadBytes(ReadInt32())` |
| MenuDecoding.ReadBlobs | ModMenuLoader.cs:296-306 | the blob loop agrees with the blob-table function |
| MenuDecoding.ReadModTable | ModMenuLoader.cs:294-306 | the skipped string, count and blobs agree with the table function |
| MenuDecoding.BlobTableAt | ModMenuLoader.cs:296-306 | the table has exactly `num` blobs |
| MenuDecoding.LastIcon | ModMenuLoader.cs:302-305 | the icon is the data of a blob whose key matches the icon name ignoring case, or the initial one when none matches |
| MenuDecoding.BlobsKeepLastMatch | ModMenuLoader.cs:296-306 | the loop's icon is that of the last matching blob of the table |
| MenuFixup.VariationAt | ModMenuLoader.cs:101 | `_z\d{1,4}` matches at a position iff `_z` and a digit are there; the match is 3 to 6 characters |
| MenuFixup.StripVariation | ModMenuLoader.cs:340 | removing every match never lengthens the name |
| MenuFixup.StripVariationChanges | ModMenuLoader.cs:338-340 | removing the matches changes the name iff it contains one |
| MenuFixup.RewriteMenuPath | ModMenuLoader.cs:367-371 | the rewritten path has no `/` left |
| MenuFixup.FixMenuPath | ModMenuLoader.cs:357-386 | an empty or null path becomes `menu` + separator + file name; a valid file name never throws; the result has a separator |
| MenuFixup.FixMenuPathJoined | ModMenuLoader.cs:367-372 | a path with a separator joins its directory with the file name |
| MenuFixup.FixMenuPathKeepsDirectory | ModMenuLoader.cs:367-372 | `dir/name` with a plain directory becomes `dir` + separator + the file name |
| MenuFixup.FixName | ModMenuLoader.cs:323-326 | an empty or null name becomes the file name without extension; another is kept |
| MenuFixup.FixSetumei | ModMenuLoader.cs:332-335 | a null or empty description is kept; a non-empty one is shorter after the fix-up iff it holds `《改行》` |
| MenuFixup.FixSetumeiLineBreaks | ModMenuLoader.cs:332-335 | marker-free pieces joined by `《改行》` come out joined by `\n`: each marker becomes one line break and nothing else changes |
| MenuFixup.FixVariation | ModMenuLoader.cs:338-343 | the variation base is set iff the file name contains a variation suffix |
| MenuFixup.FixMenu | ModMenuLoader.cs:320-355 | each field is fixed as above; `isHidden` is set when the type is not editable, a variation base exists or a hidden marker occurs, and is never cleared |
| MenuFixup.FixMenuHiddenSticks | ModMenuLoader.cs:345-354 | a hidden menu stays hidden, and fixing twice hides as fixing once |
| MenuFixup.VariationBaseOfSuffixed | ModMenuLoader.cs:338-342 | `head_zNN_i.rest` has the variation base `head_i_.rest` |
| WinPaths.GetFileName | PresetLoader.cs:48 | the file name is the part after the last separator, and throws on invalid characters |
| WinPaths.GetFileNameWithoutExtension | ModMenuLoader.cs:325 | the name without extension has no separator; it throws on invalid characters |
| WinPaths.GetDirectoryName | ModMenuLoader.cs:372 | the directory is a proper prefix of the path, empty iff the path has no separator |
| WinPaths.Combine | ModMenuLoader.cs:372 | combining inserts one separator between a directory and a relative name |
| WinPaths.SplitThenCombine | ModMenuLoader.cs:372 | combining the directory and file name of `dir\name` gives back the path |
| Text.Lower | ModMenuLoader.cs:117 | lower-casing maps each character and keeps the length |
| Text.LowerIdempotent | ModMenuLoader.cs:117 | lower-casing twice is lower-casing once |
| Text.Digits | GUICache.cs:85 | the decimal spelling of `n` is all digits, has no leading zero and reads back as `n` |
| Text.Replace | ModMenuLoader.cs:334 | replacing a pattern that does not occur changes nothing |
| Text.ReplaceShrinks | ModMenuLoader.cs:367-370 | deleting a pattern shortens the string iff it occurs |
| ModMenuLoading.MenuFileName | ModMenuLoader.cs:117-129 | the lower-cased name gets `.menu` appended iff it does not already end with it |
| ModMenuLoading.MenuFileNameIdempotent | ModMenuLoader.cs:126-129 | normalizing a normalized name changes nothing |
| ModMenuLoading.PlainLoad | ModMenuLoader.cs:124-239 | a missing entry gives null; a result has the normalized file name and an empty icon |
| ModMenuLoading.ModLoad | ModMenuLoader.cs:242-318 | a file that cannot be opened gives null; a result has priority 1000 and the given file name |
| ModMenuLoading.ModLoadAsWritten | ModMenuLoader.cs:264-275 | with a null buffer the load as written is always null; otherwise it is `ModLoad` |
| ModMenuLoading.LoadResult | ModMenuLoader.cs:112-122 | names starting with `mod_` go to the mod loader with the lower-cased name; others to the plain loader with the normalized name |
| ModMenuLoading.CachedModNamesAreNull | ModMenuLoader.cs:94 | through the cache (empty path) a mod name always loads as null |
| ModMenuLoading.ColdBufferDropsModMenu | ModMenuLoader.cs:264-276 | with no buffer yet, every mod menu the load is meant to decode is lost by the code as written |
| ModMenuLoading.LoadPlainDirect | ModMenuLoader.cs:124-239 | the plain load on the shared buffer agrees with `PlainLoad` and refills the buffer as `ReadAFileBase` does |
| ModMenuLoading.ReadPlainMenu | ModMenuLoader.cs:137-233 | the reader code agrees with `DecodePlainMenu` |
| ModMenuLoading.ReadModMenu | ModMenuLoader.cs:250-311 | the reader code agrees with `DecodeModMenu` |
| ModMenuLoading.LoadModDirect | ModMenuLoader.cs:242-318 | the corrected mod load agrees with `ModLoad` and refills the buffer to at least the file length |
| ModMenuLoading.LoadModDirectAsWritten | ModMenuLoader.cs:242-318 | the mod load as written agrees with `ModLoadAsWritten`: a null buffer gives null |
| ModMenuLoading.LoadDirect | ModMenuLoader.cs:112-240 | the method agrees with `LoadResult`; when no file is read (`LoadedFile` is null) the buffer is untouched, otherwise it is refilled with that file as `ReadAFileBase` does (minimum 500000 for plain menus, none for mod files) |
| ModMenuLoading.NothingReadIsNull | ModMenuLoader.cs:112-240 | a load that reads no file gives null |
| ModMenuLoading.ModMenuLoader.ClearCache | ModMenuLoader.cs:81-85 | the cache is emptied and the buffer nulled |
| ModMenuLoading.ModMenuLoader.Load | ModMenuLoader.cs:87-99 | a cached name returns its entry (null included) without touching the buffer; a new one is loaded with an empty path and stored under the raw name, even when null, and the buffer is left untouched or refilled with the file read, as for `LoadDirect` |
| MaidPartTypes.FromValue | MaidPartType.cs:3-98 | the enum values are exactly 0, 100..119, 200..205, 300..309, 400..409, 500..517, 600..604, 700..709 |
| MaidPartTypes.ValueOfFromValue | MaidPartType.cs:3-98 | a value that names a type is that type's value |
| MaidPartTypes.FromValueOfValue | MaidPartType.cs:3-98 | every type is found again from its value |
| MaidPartTypes.ValueInjective | MaidPartType.cs:3-98 | all enumerator values are distinct |
| MaidPartTypes.NullIsDefault | MaidPartType.cs:5 | `null_mpn` is the only type with value 0, the default |
| MaidPartTypes.AllTypes | MaidPartUtils.cs:10-11 | all types, in increasing value order |
| MaidPartTypes.AllTypesComplete | MaidPartUtils.cs:10-11 | every type is in the list of all types |
| MaidPartTypes.AllTypesDistinct | MaidPartUtils.cs:10-11 | the list of all types has no duplicate |
| MaidPartTypes.Name | MaidPartUtils.cs:54-62 | `GetMaidPartName`: the map holds every enumerator, so every type has its identifier as its name, and no name is empty |
| MaidPartUtils.TablesAgree | MaidPartUtils.cs:64-221 | the JP-name map and the category map have the same keys, and no key has category None |
| MaidPartUtils.GetMaidPartCategory | MaidPartUtils.cs:223-226 | the category is not None iff the type is editable (a key of the map) |
| MaidPartUtils.IsEquippableType | MaidPartUtils.cs:269-273 | equippable iff editable and not a set type; equippable implies editable |
| MaidPartUtils.SetTypesNotEquippable | MaidPartUtils.cs:216-220 | the four `set_*` types are editable but not equippable |
| MaidPartUtils.FolderTypesEditable | MaidPartUtils.cs:275-290 | every folder type is editable, with category Face or Body |
| MaidPartUtils.GetAllMaidPartType | MaidPartUtils.cs:247-250 | the JP-name keys, in the map's order (ascending enum value), are exactly the editable types |
| MaidPartUtils.GetMaidPartJpName | MaidPartUtils.cs:135-139 | a non-empty JP name is returned; absent types get the enum name |
| MaidPartUtils.ToMaidPartType | MaidPartUtils.cs:42-52 | enum names match ignoring (ASCII) case, as `OrdinalIgnoreCase` does; null and unknown names give `null_mpn`; the type found is the least-valued one with a matching name, so by `ValueInjective` the result is determined |
| MaidPartUtils.FindByNameLeast | MaidPartUtils.cs:42-46 | in the enum's ascending order the first type whose name matches is the least-valued match |
| MaidPartUtils.NameLookupRoundTrip | MaidPartUtils.cs:42-62 | `ToMaidPartType(GetMaidPartName(t))` has the name of `t` up to case and is no greater in value than `t` |
| MaidPartUtils.ToMPN | MaidPartUtils.cs:27-40 | `null_mpn` maps to `MPN.null_mpn`; other types to `GetMPN` of their name |
| MaidPartUtils.FilterKeepsOrder | MaidPartUtils.cs:20 | filtering the ascending list of all types keeps it ascending |
| MaidPartUtils.PartTypeLists.EquippableMaidPartTypes | MaidPartUtils.cs:13-25 | the list is computed once and is then returned as stored; it holds exactly the equippable types in enum order |
| NaturalOrder.DigitRunEnd | NaturalStringComparer.cs:28-31 | a digit run ends at the first non-digit or the end |
| NaturalOrder.RunDigits | NaturalStringComparer.cs:28-31 | every character the inner loop collects is a digit |
| NaturalOrder.TryParseRun | NaturalStringComparer.cs:36-37 | a run parses iff its value fits in an `int` |
| NaturalOrder.CompareInts | NaturalStringComparer.cs:39 | `CompareTo` is negative, zero or positive as `a < b`, `a == b`, `a > b` |
| NaturalOrder.Compare | NaturalStringComparer.cs:11-13 | both null gives 0, only x null gives -1, only y null gives 1 |
| NaturalOrder.NaturalCompare | NaturalStringComparer.cs:9-13 | the null cases, then the walk over both strings, compute `Compare` |
| NaturalOrder.CompareWalk | NaturalStringComparer.cs:15-49 | the outer loop over two non-null strings computes the comparison from the first characters |
| NaturalOrder.TakeDigits | NaturalStringComparer.cs:28-31 | the inner loop collects exactly the digit run |
| NaturalOrder.Antisymmetric | NaturalStringComparer.cs:9-50 | swapping the arguments negates the result |
| NaturalOrder.Reflexive | NaturalStringComparer.cs:20-49 | every string compares equal to itself |
| NaturalOrder.PrefixComparesByLength | NaturalStringComparer.cs:49 | when the loop exhausts one string the result is `len1 - len2`, not normalized |
| NaturalOrder.NumbersCompareByValue | NaturalStringComparer.cs:33-41 | aligned digit runs with different values compare numerically, so "a2" < "a10" |
| NaturalOrder.OverflowComparesFirstDigits | NaturalStringComparer.cs:36-44 | a run that overflows falls back to the difference of the runs' first characters |
| NaturalOrder.SkipsCharacterAfterNumber | NaturalStringComparer.cs:28-46 | the character right after a digit run is skipped: `Compare("a1b", "a1c") == 0` |
| Extensions.Dictionary.GetOrCreate | Extensions.cs:574-600 | a present key returns its value and changes nothing; an absent one inserts the new value and returns it |
| Extensions.GetOrDefault | Extensions.cs:602-637 | a null or missing key gives the default; a present key its value |
| Extensions.ListGetOrDefault | Extensions.cs:639-656 | the element iff `0 <= index < Count`, the default otherwise |
| Extensions.ArrayGetOrDefault | Extensions.cs:658-675 | the array lookup is the list lookup on its contents |
| Extensions.ListLookupIsDictionaryLookup | Extensions.cs:602-675 | the list lookup is the dictionary lookup on the index map |
| Extensions.KeepFirst | Extensions.cs:544-560 | what is kept is at most the first element |
| Extensions.KeepFirstIdempotent | Extensions.cs:544-560 | removing all but the first twice is doing it once |
| Extensions.RemoveAllButFirst | Extensions.cs:544-560 | a null list changes nothing; otherwise the list becomes exactly its old first element, or stays empty |
| Extensions.Finger.IsLock | Extensions.cs:263-298 | out-of-range indices and other fingers are never locked; in range it is the flag |
| Extensions.Finger.LockAllItems | Extensions.cs:300-319 | after `LockAllItems(b)` every index in range is locked iff `b` |
| Extensions.Finger.LockReverse | Extensions.cs:321-340 | every flag in range flips |
| Extensions.FlippedTwice | Extensions.cs:321-340 | `LockReverse` twice restores all flags |
| Extensions.Finger.CopyFrom | Extensions.cs:342-379 | enabled and the open/fist values are copied; the lock arrays only between fingers of the same kind |
| Extensions.GetItem | Extensions.cs:420-436 | every category other than Main and Shadow reads the outline slot |
| Extensions.SetItem | Extensions.cs:438-455 | `GetItem` after `SetItem` returns the item |
| Extensions.SetThenGet | Extensions.cs:420-455 | `SetItem` changes only the slot of its category |
| Extensions.GetFullPath | Extensions.cs:472-486 | "" when the transform or the root is null; otherwise the path ends with the transform's name |
| Extensions.FullPathIsPathBelow | Extensions.cs:472-486 | the full path joins with "/" the names from just below the root (or the topmost ancestor) down to the transform |
| GuiCache.FloatFieldCache.Format | GUICache.cs:36 | "F0" for Int, "F2" for Float |
| GuiCache.FloatFieldCache.SetFieldType | GUICache.cs:17-34 | the same type changes nothing; another one sets the type, clears the value to NaN and the text to "" |
| GuiCache.FloatFieldCache.UpdateValue | GUICache.cs:41-54 | an equal number is ignored (`+0` and `-0` are equal); NaN equals nothing, so it is always stored; otherwise the value is stored and, with `updateText`, the text is the formatting or "" for NaN |
| GuiCache.FloatFieldCache.UpdateValueAndText | GUICache.cs:56-59 | the one-argument form is the two-argument one with `updateText` |
| GuiCache.IntText | GUICache.cs:85 | `int.ToString()` is the decimal spelling with a minus sign for negatives |
| GuiCache.IntTextRoundTrip | GUICache.cs:85 | the text an int field shows reads back as its value |
| GuiCache.IntFieldCache.UpdateValue | GUICache.cs:74-87 | the current value is ignored (a fresh cache keeps "" on 0); another is stored and spelt out iff `updateText` |
| GuiCache.IntFieldCache.UpdateValueAndText | GUICache.cs:89-92 | the one-argument form is the two-argument one with `updateText` |
| AnimationLayers.AnimationLayerInfo.constructor | AnimationLayerInfo.cs:8-39 | the field initialisers, then `layer`; the tag invariant holds |
| AnimationLayers.AnimationLayerInfo.SetAnmName | AnimationLayerInfo.cs:13-24 | a different name sets the name and its lower-cased tag; the current name changes nothing; `layer` is kept |
| AnimationLayers.AnimationLayerInfo.Reset | AnimationLayerInfo.cs:41-50 | the playback fields get their initial values and the name "" through the setter; `layer` and the tag invariant are kept |
| GuiViews.RemoveFirst | GUIView.cs:168 | `List.Remove` drops one element iff it occurs |
| GuiViews.RemoveFirstElements | GUIView.cs:164-172 | removal takes exactly one occurrence away from the elements |
| GuiViews.RemoveFirstUndoesAppend | GUIView.cs:143-172 | removing a child just appended gives back the previous list |
| GuiViews.TileContent.RemoveChild | GUIView.cs:164-172 | the first occurrence leaves the list; a base content nulls the child's parent even when it was absent; a temporary one never touches it; the list and parent of no other content change, and no content changes kind |
| GuiViews.TileContent.AddChild | GUIView.cs:143-162 | the list is created if null; a child of this content changes nothing more; otherwise it is removed from its old parent, appended and given this parent; a temporary content (`TempTileViewContent`) only appends: the child keeps its parent and the old parent keeps its list; no content changes kind, this content keeps its parent, the child keeps its own children, and the old parent keeps its parent |
| GuiViews.TileContent.RemoveAllChildren | GUIView.cs:174-184 | every former child gets a null parent and the list is emptied; a null child throws with the earlier children detached; every child at or after the null entry keeps its parent; a temporary content (`TempTileViewContent`) only clears, and every former child keeps its parent; no content changes kind, this content keeps its parent (unless it was its own child), and the children keep their children |
| GuiViews.TileContent.RemoveFromParent | GUIView.cs:186-189 | the content leaves its parent's list, if it has a parent; its own kind and (unless it is its own parent) its own children stay the same, and so do the old parent's parent and kind |
| GuiViews.GetFileCount | GUIView.cs:93-115 | the loop computes `FileCount`: 0 for a file or a null list, null children skipped, nested counts added when recursive |
| GuiViews.GetDirCount | GUIView.cs:117-141 | the loop computes `DirCount` likewise |
| GuiViews.CountsGrowWithRecursion | GUIView.cs:93-141 | the recursive counts are at least the direct ones |
| GuiViews.AllFiles | GUIView.cs:205-223 | only non-directories are collected |
| GuiViews.AllFilesCounted | GUIView.cs:93-115 | what `GetAllFiles` collects is as many as `GetFileCount(true)` counts |
| GuiViews.SubtreeOf | GUIView.cs:197-201 | each child comes before its own descendants |
| GuiViews.GetAllFiles | GUIView.cs:205-223 | the loop appends `AllFiles` to the result, or throws on a null child |
| GuiViews.GetAllChildren | GUIView.cs:191-203 | the loop appends all descendants in pre-order, or throws on a null child |
| GuiViews.GuiView.ResetLayout | GUIView.cs:537-551 | every pool index returns to 0 and the pools are kept, so the same caches come back in the same order |
| GuiViews.GuiView.GetFieldCache | GUIView.cs:2311-2331 | served by the top view; the pool grows by one only when the index reached its end; the cache at the old index is returned labelled, with the type set through its setter, and the index moves on; the top view keeps its parent and every other pooled cache is unchanged |
| GuiViews.GuiView.GetIntFieldCache | GUIView.cs:2345-2362 | the same discipline on the int pool, with the label set; every other pooled int cache is unchanged |
| GuiViews.GuiView.GetTransformCache | GUIView.cs:2374-2395 | the next transform cache, or a new one appended; the index moves on either way; the other pools, their indices and the top view's parent stay the same |

## Left out

- Logging, the game singletons, Unity textures, colours and IMGUI drawing are not modelled. Only the decoded data matters here.
- The game file system, `FileStream`, `File.GetLastWriteTime`, `MPNUtils.GetMPN`/`IsEditableMPN`, `MaidPartUtils.GetMaidPartType`, `string.GetHashCode`, `float.Parse`, `float.ToString(format)` and `Maid.Deserialize*` are parameters (a `Host` value or function arguments). Their code is not part of this model. `NDebug.Assert` is not part of this model either; it is taken to return.
- `UTY.GetStringCom`/`GetStringList`: the command is taken as the first string of a group and the list as all its strings.
- Float values are opaque 32-bit words. No float arithmetic or rounding is modelled. The only float comparison, in `FloatFieldCache.UpdateValue`, is modelled with NaN as `None` (a stored number is never a NaN bit pattern) and `+0` equal to `-0`.
- String decoding replaces each invalid UTF-8 byte with U+FFFD, a simplification of .NET's maximal-subpart rule. `ToLower` and case-insensitive comparison are ASCII-only.
- NaturalOrder.Compare: `char.IsDigit` is modelled as the ASCII digits only. Other Unicode decimal digits are not.
- NaturalOrder.Compare: a string is a sequence of Unicode scalar values, not of .NET's UTF-16 code units. Above U+FFFF the results differ. A character difference such as "😀" against "！" is the difference of scalar values (positive here), where .NET subtracts the leading surrogate (negative). The length of "😀" is 1 here and 2 in .NET.
- NaturalOrder.NaturalCompare: it computes `Compare` over scalar values, so above U+FFFF its character and length differences are not .NET's UTF-16 ones (see `NaturalOrder.Compare`).
- NaturalOrder.CompareWalk: it walks scalar values, not UTF-16 code units, so a character outside the Basic Multilingual Plane is one step here and two in .NET.
- NaturalOrder.PrefixComparesByLength: `len1 - len2` counts scalar values. .NET counts UTF-16 code units, which differ for characters above U+FFFF.
- PresetLoading.PresetAt: the header is compared with `CM3D2_PRESET` only by the game's `NDebug.Assert`, whose effect on failure is not part of this model. The model takes the assert to return and goes on reading, so a wrong header does not by itself make the result null.
- MaidPartTypes.Name: that the 80 identifiers are pairwise distinct, even up to case, is not proved. The proof over all pairs of string literals is beyond the solver budget. `ToMaidPartType` is therefore pinned as the least-valued type with a matching name, and `NameLookupRoundTrip` states the way back only up to that. The source relies on the same fact: `ToDictionary` throws on a duplicate key.
- MenuFixup.VariationAt: `\d` is modelled as the ASCII digits only (as is `MenuFixup.DigitRun`). .NET's `\d` also matches the other Unicode decimal digits, so a name such as `a_z١_i.menu` is a variation in .NET but not in this model.
- ModMenuLoading.LoadResult: a mod name is decoded with the corrected `ModLoad` (a null buffer is allocated), not with `ModLoadAsWritten`. The two differ only while the buffer is null and the path is non-empty; `ColdBufferDropsModMenu` shows that case, and `CachedModNamesAreNull` shows that `Load`, which always passes an empty path, is null for mod names either way.
- ModMenuLoading.LoadDirect: it calls the corrected `LoadModDirect`, not `LoadModDirectAsWritten`, for the reason above.
- BinaryLoading.ReadAFileBase: the game file system is total here, so a read that throws after the buffer was reallocated (the `catch`, which returns null with the new buffer kept) is not modelled.
- WinPaths.GetDirectoryName: the path is split at its last separator only. Mono's clean-up of doubled separators, its path-root rule and its drive-letter handling are not modelled. So a root such as `C:` or `\\server\share`, for which .NET gives null, and paths such as `C:/a.menu` are not treated as .NET treats them in `FixMenuPath`.
- MenuInfos: the cached `MenuInfo` is a value. Aliasing of the one object shared by the cache and its callers is not modelled.
- Extensions.Dictionary.GetOrCreate: a null key, which throws in .NET, is not modelled. Keys are non-null values.
- Extensions.GetFullPath: transforms are values. Two transforms are the same when they are equal as values.
- Extensions: the `Finger` class stands for `FingerBlend.BaseFinger` with only the fields the lock code uses. Categories other than Main and Shadow are one `OtherCategory` value.
- The reflection accessors, texture resizing and the other Unity helpers of `Extensions.cs` are not modelled. They need the host assembly.
- GuiViews: the counts and traversals work on a value snapshot of the tree (`Tile`), not on the `TileContent` objects. When a traversal throws, the partly filled result list is not modelled.
- GuiViews.TileContent.AddChild and RemoveChild: a null child, which throws, is not modelled.
- GuiViews.TileContent: the `thum` property and the display fields are not modelled.
- GuiViews.GuiView.GetTransformCache: `TransformCache` is not part of this model, so what `Update(transform)` records is not modelled. Only the pool discipline is.
- GuiViews.GuiView: the `GetFieldCache(label)`, `GetFieldCache(label, value)` and `GetFieldCaches` overloads are not modelled. They only call the modelled `GetFieldCache` and `UpdateValue`.
- GuiViews.GuiView: layout state and drawing are not modelled. `ResetLayout` is reduced to its pool indices.
- AnimationLayers.AnimationLayerInfo: the `original` field is not modelled, and neither is assigning a null name (which throws in `ToLower`).
- Threading, `MainThreadDispatcher`, `ParallelHelper`, `ManagerRegistry` and `CustomFieldBase` are not modelled. They are thread marshalling and host-assembly interop.

## Findings

| source | as written | input that shows it | evidently intended | confidence | as-written member | corrected member |
|---|---|---|---|---|---|---|
| ModMenuLoader.cs:264-276 | `fileStream.Length > fileBuffer.Length` dereferences the buffer before the `fileBuffer == null` check, so a null buffer throws and the catch returns null | the first `LoadModDirect` after start-up or `ClearCache()` (static `_fileBuffer` still null), with a non-empty path to any well-formed `.mod` file | a null buffer is allocated (as for plain menus) and the file decodes | not executed | ModMenuLoading.LoadModDirectAsWritten | ModMenuLoading.LoadModDirect |
