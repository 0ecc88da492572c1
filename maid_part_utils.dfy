/** The part-type tables of `MaidPartUtils`: display names, categories, folder
    types, and the name and game-enum conversions. The static dictionaries are
    lookups that answer `None` for a key they do not hold. */
module MaidPartUtils {
  import Wrappers
  import opened Text
  import opened MaidPartTypes

  datatype MaidPartCategory = None | Face | Hair | Body | Wear | Accessory | Set

  /** `maidPartJpNameMap` as a lookup: the display name of a type, `None` for a
      type the map does not list. */
  function JpNameEntry(t: MaidPartType): Wrappers.Option<string> {
    match t
    case null_mpn => Wrappers.None
    case head => Wrappers.Some("顔")
    case facegloss => Wrappers.Some("頬")
    case folder_mayu => Wrappers.Some("眉")
    case mayu => Wrappers.None
    case folder_matsuge_up => Wrappers.Some("上まつ毛")
    case matsuge_up => Wrappers.None
    case folder_matsuge_low => Wrappers.Some("下まつ毛")
    case matsuge_low => Wrappers.None
    case folder_futae => Wrappers.Some("二重")
    case futae => Wrappers.None
    case folder_eye => Wrappers.Some("目")
    case eye => Wrappers.None
    case eye_hi => Wrappers.Some("目ハイライト")
    case eye_hi_r => Wrappers.None
    case folder_eyewhite => Wrappers.Some("白目")
    case eyewhite => Wrappers.None
    case nose => Wrappers.Some("鼻")
    case hokuro => Wrappers.Some("ほくろ")
    case lip => Wrappers.Some("唇")
    case accha => Wrappers.Some("歯")
    case hairf => Wrappers.Some("前髪")
    case hairr => Wrappers.Some("後髪")
    case hairs => Wrappers.Some("横髪")
    case hairt => Wrappers.Some("エクステ髪")
    case hairaho => Wrappers.Some("アホ毛")
    case haircolor => Wrappers.None
    case folder_skin => Wrappers.Some("肌")
    case skin => Wrappers.None
    case chikubi => Wrappers.Some("乳首")
    case chikubicolor => Wrappers.None
    case acctatoo => Wrappers.Some("タトゥー")
    case accnail => Wrappers.Some("ネイル")
    case folder_underhair => Wrappers.Some("アンダーヘア")
    case underhair => Wrappers.None
    case body => Wrappers.Some("ボディ")
    case moza => Wrappers.None
    case acchat => Wrappers.Some("帽子")
    case headset => Wrappers.Some("ヘッドドレス")
    case wear => Wrappers.Some("トップス")
    case skirt => Wrappers.Some("ボトムス")
    case onepiece => Wrappers.Some("ワンピース")
    case mizugi => Wrappers.Some("水着")
    case bra => Wrappers.Some("ブラジャー")
    case panz => Wrappers.Some("パンツ")
    case stkg => Wrappers.Some("靴下")
    case shoes => Wrappers.Some("靴")
    case acckami => Wrappers.Some("前髪アクセ")
    case megane => Wrappers.Some("メガネ")
    case acchead => Wrappers.Some("アイマスク")
    case acchana => Wrappers.Some("鼻アクセ")
    case accmimi => Wrappers.Some("耳アクセ")
    case glove => Wrappers.Some("手袋")
    case acckubi => Wrappers.Some("ネックレス")
    case acckubiwa => Wrappers.Some("チョーカー")
    case acckamisub => Wrappers.Some("リボン")
    case accnip => Wrappers.Some("乳首アクセ")
    case accude => Wrappers.Some("腕")
    case accheso => Wrappers.Some("へそアクセ")
    case accashi => Wrappers.Some("足首")
    case accsenaka => Wrappers.Some("背中")
    case accshippo => Wrappers.Some("しっぽ")
    case accvag => Wrappers.Some("前穴")
    case accxxx => Wrappers.Some("前穴")
    case accanl => Wrappers.Some("後穴")
    case set_body => Wrappers.Some("体型")
    case set_maidwear => Wrappers.Some("メイド服")
    case set_mywear => Wrappers.Some("私服")
    case set_underwear => Wrappers.Some("下着")
    case set_head_slider => Wrappers.None
    case handitem => Wrappers.None
    case kousoku_upper => Wrappers.None
    case kousoku_lower => Wrappers.None
    case seieki_naka => Wrappers.None
    case seieki_hara => Wrappers.None
    case seieki_face => Wrappers.None
    case seieki_mune => Wrappers.None
    case seieki_hip => Wrappers.None
    case seieki_ude => Wrappers.None
    case seieki_ashi => Wrappers.None
  }

  /** `_maidPartCategoryMap` as a lookup: the category of a type, `None` for a
      type the map does not list. */
  function CategoryEntry(t: MaidPartType): Wrappers.Option<MaidPartCategory> {
    match t
    case null_mpn => Wrappers.None
    case head => Wrappers.Some(Face)
    case facegloss => Wrappers.Some(Face)
    case folder_mayu => Wrappers.Some(Face)
    case mayu => Wrappers.None
    case folder_matsuge_up => Wrappers.Some(Face)
    case matsuge_up => Wrappers.None
    case folder_matsuge_low => Wrappers.Some(Face)
    case matsuge_low => Wrappers.None
    case folder_futae => Wrappers.Some(Face)
    case futae => Wrappers.None
    case folder_eye => Wrappers.Some(Face)
    case eye => Wrappers.None
    case eye_hi => Wrappers.Some(Face)
    case eye_hi_r => Wrappers.None
    case folder_eyewhite => Wrappers.Some(Face)
    case eyewhite => Wrappers.None
    case nose => Wrappers.Some(Face)
    case hokuro => Wrappers.Some(Face)
    case lip => Wrappers.Some(Face)
    case accha => Wrappers.Some(Face)
    case hairf => Wrappers.Some(Hair)
    case hairr => Wrappers.Some(Hair)
    case hairs => Wrappers.Some(Hair)
    case hairt => Wrappers.Some(Hair)
    case hairaho => Wrappers.Some(Hair)
    case haircolor => Wrappers.None
    case folder_skin => Wrappers.Some(Body)
    case skin => Wrappers.None
    case chikubi => Wrappers.Some(Body)
    case chikubicolor => Wrappers.None
    case acctatoo => Wrappers.Some(Body)
    case accnail => Wrappers.Some(Body)
    case folder_underhair => Wrappers.Some(Body)
    case underhair => Wrappers.None
    case body => Wrappers.Some(Body)
    case moza => Wrappers.None
    case acchat => Wrappers.Some(Wear)
    case headset => Wrappers.Some(Wear)
    case wear => Wrappers.Some(Wear)
    case skirt => Wrappers.Some(Wear)
    case onepiece => Wrappers.Some(Wear)
    case mizugi => Wrappers.Some(Wear)
    case bra => Wrappers.Some(Wear)
    case panz => Wrappers.Some(Wear)
    case stkg => Wrappers.Some(Wear)
    case shoes => Wrappers.Some(Wear)
    case acckami => Wrappers.Some(Accessory)
    case megane => Wrappers.Some(Accessory)
    case acchead => Wrappers.Some(Accessory)
    case acchana => Wrappers.Some(Accessory)
    case accmimi => Wrappers.Some(Accessory)
    case glove => Wrappers.Some(Accessory)
    case acckubi => Wrappers.Some(Accessory)
    case acckubiwa => Wrappers.Some(Accessory)
    case acckamisub => Wrappers.Some(Accessory)
    case accnip => Wrappers.Some(Accessory)
    case accude => Wrappers.Some(Accessory)
    case accheso => Wrappers.Some(Accessory)
    case accashi => Wrappers.Some(Accessory)
    case accsenaka => Wrappers.Some(Accessory)
    case accshippo => Wrappers.Some(Accessory)
    case accvag => Wrappers.Some(Accessory)
    case accxxx => Wrappers.Some(Accessory)
    case accanl => Wrappers.Some(Accessory)
    case set_body => Wrappers.Some(Set)
    case set_maidwear => Wrappers.Some(Set)
    case set_mywear => Wrappers.Some(Set)
    case set_underwear => Wrappers.Some(Set)
    case set_head_slider => Wrappers.None
    case handitem => Wrappers.None
    case kousoku_upper => Wrappers.None
    case kousoku_lower => Wrappers.None
    case seieki_naka => Wrappers.None
    case seieki_hara => Wrappers.None
    case seieki_face => Wrappers.None
    case seieki_mune => Wrappers.None
    case seieki_hip => Wrappers.None
    case seieki_ude => Wrappers.None
    case seieki_ashi => Wrappers.None
  }

  /** `_folderTypeSet`. */
  const FolderTypes: set<MaidPartType> := {folder_futae, folder_matsuge_low, folder_matsuge_up, folder_eye, folder_mayu, folder_skin, folder_underhair, chikubi}

  /** The display-name map and the category map list the same types, and no
      category entry is `None`. */
  lemma TablesAgree(t: MaidPartType)
    ensures JpNameEntry(t).Some? <==> CategoryEntry(t).Some?
    ensures CategoryEntry(t).Some? ==> CategoryEntry(t).value != None
  {
    match t
    case null_mpn =>
    case head | facegloss | folder_mayu | mayu | folder_matsuge_up | matsuge_up | folder_matsuge_low | matsuge_low | folder_futae | futae | folder_eye | eye | eye_hi | eye_hi_r | folder_eyewhite | eyewhite | nose | hokuro | lip | accha => FaceTablesAgree(t);
    case hairf | hairr | hairs | hairt | hairaho | haircolor => HairTablesAgree(t);
    case folder_skin | skin | chikubi | chikubicolor | acctatoo | accnail | folder_underhair | underhair | body | moza => BodyTablesAgree(t);
    case acchat | headset | wear | skirt | onepiece | mizugi | bra | panz | stkg | shoes => WearTablesAgree(t);
    case acckami | megane | acchead | acchana | accmimi | glove | acckubi | acckubiwa | acckamisub | accnip | accude | accheso | accashi | accsenaka | accshippo | accvag | accxxx | accanl => AccessoryTablesAgree(t);
    case set_body | set_maidwear => SetTablesAgree(t);
    case set_mywear | set_underwear | set_head_slider => SetOtherTablesAgree(t);
    case handitem | kousoku_upper | kousoku_lower => ItemTablesAgree(t);
    case seieki_naka | seieki_hara | seieki_face => SeiekiTablesAgree(t);
    case seieki_mune | seieki_hip | seieki_ude | seieki_ashi => SeiekiOtherTablesAgree(t);
  }

  lemma FaceTablesAgree(t: MaidPartType)
    requires t.head? || t.facegloss? || t.folder_mayu? || t.mayu? || t.folder_matsuge_up? || t.matsuge_up? || t.folder_matsuge_low? || t.matsuge_low? || t.folder_futae? || t.futae? || t.folder_eye? || t.eye? || t.eye_hi? || t.eye_hi_r? || t.folder_eyewhite? || t.eyewhite? || t.nose? || t.hokuro? || t.lip? || t.accha?
    ensures JpNameEntry(t).Some? <==> CategoryEntry(t).Some?
    ensures CategoryEntry(t).Some? ==> CategoryEntry(t).value != None
  {
    match t
    case head =>
    case facegloss =>
    case folder_mayu =>
    case mayu =>
    case folder_matsuge_up =>
    case matsuge_up =>
    case folder_matsuge_low =>
    case matsuge_low =>
    case folder_futae =>
    case futae =>
    case folder_eye =>
    case eye =>
    case eye_hi =>
    case eye_hi_r =>
    case folder_eyewhite =>
    case eyewhite =>
    case nose =>
    case hokuro =>
    case lip =>
    case accha =>
    case _ =>
  }

  lemma HairTablesAgree(t: MaidPartType)
    requires t.hairf? || t.hairr? || t.hairs? || t.hairt? || t.hairaho? || t.haircolor?
    ensures JpNameEntry(t).Some? <==> CategoryEntry(t).Some?
    ensures CategoryEntry(t).Some? ==> CategoryEntry(t).value != None
  {
    match t
    case hairf =>
    case hairr =>
    case hairs =>
    case hairt =>
    case hairaho =>
    case haircolor =>
    case _ =>
  }

  lemma BodyTablesAgree(t: MaidPartType)
    requires t.folder_skin? || t.skin? || t.chikubi? || t.chikubicolor? || t.acctatoo? || t.accnail? || t.folder_underhair? || t.underhair? || t.body? || t.moza?
    ensures JpNameEntry(t).Some? <==> CategoryEntry(t).Some?
    ensures CategoryEntry(t).Some? ==> CategoryEntry(t).value != None
  {
    match t
    case folder_skin =>
    case skin =>
    case chikubi =>
    case chikubicolor =>
    case acctatoo =>
    case accnail =>
    case folder_underhair =>
    case underhair =>
    case body =>
    case moza =>
    case _ =>
  }

  lemma WearTablesAgree(t: MaidPartType)
    requires t.acchat? || t.headset? || t.wear? || t.skirt? || t.onepiece? || t.mizugi? || t.bra? || t.panz? || t.stkg? || t.shoes?
    ensures JpNameEntry(t).Some? <==> CategoryEntry(t).Some?
    ensures CategoryEntry(t).Some? ==> CategoryEntry(t).value != None
  {
    match t
    case acchat =>
    case headset =>
    case wear =>
    case skirt =>
    case onepiece =>
    case mizugi =>
    case bra =>
    case panz =>
    case stkg =>
    case shoes =>
    case _ =>
  }

  lemma AccessoryTablesAgree(t: MaidPartType)
    requires t.acckami? || t.megane? || t.acchead? || t.acchana? || t.accmimi? || t.glove? || t.acckubi? || t.acckubiwa? || t.acckamisub? || t.accnip? || t.accude? || t.accheso? || t.accashi? || t.accsenaka? || t.accshippo? || t.accvag? || t.accxxx? || t.accanl?
    ensures JpNameEntry(t).Some? <==> CategoryEntry(t).Some?
    ensures CategoryEntry(t).Some? ==> CategoryEntry(t).value != None
  {
    match t
    case acckami =>
    case megane =>
    case acchead =>
    case acchana =>
    case accmimi =>
    case glove =>
    case acckubi =>
    case acckubiwa =>
    case acckamisub =>
    case accnip =>
    case accude =>
    case accheso =>
    case accashi =>
    case accsenaka =>
    case accshippo =>
    case accvag =>
    case accxxx =>
    case accanl =>
    case _ =>
  }

  lemma SetTablesAgree(t: MaidPartType)
    requires t.set_body? || t.set_maidwear?
    ensures JpNameEntry(t).Some? <==> CategoryEntry(t).Some?
    ensures CategoryEntry(t).Some? ==> CategoryEntry(t).value != None
  {
    match t
    case set_body =>
    case set_maidwear =>
    case _ =>
  }

  lemma SetOtherTablesAgree(t: MaidPartType)
    requires t.set_mywear? || t.set_underwear? || t.set_head_slider?
    ensures JpNameEntry(t).Some? <==> CategoryEntry(t).Some?
    ensures CategoryEntry(t).Some? ==> CategoryEntry(t).value != None
  {
    match t
    case set_mywear =>
    case set_underwear =>
    case set_head_slider =>
    case _ =>
  }

  lemma ItemTablesAgree(t: MaidPartType)
    requires t.handitem? || t.kousoku_upper? || t.kousoku_lower?
    ensures JpNameEntry(t).Some? <==> CategoryEntry(t).Some?
    ensures CategoryEntry(t).Some? ==> CategoryEntry(t).value != None
  {
    match t
    case handitem =>
    case kousoku_upper =>
    case kousoku_lower =>
    case _ =>
  }

  lemma SeiekiTablesAgree(t: MaidPartType)
    requires t.seieki_naka? || t.seieki_hara? || t.seieki_face?
    ensures JpNameEntry(t).Some? <==> CategoryEntry(t).Some?
    ensures CategoryEntry(t).Some? ==> CategoryEntry(t).value != None
  {
    match t
    case seieki_naka =>
    case seieki_hara =>
    case seieki_face =>
    case _ =>
  }

  lemma SeiekiOtherTablesAgree(t: MaidPartType)
    requires t.seieki_mune? || t.seieki_hip? || t.seieki_ude? || t.seieki_ashi?
    ensures JpNameEntry(t).Some? <==> CategoryEntry(t).Some?
    ensures CategoryEntry(t).Some? ==> CategoryEntry(t).value != None
  {
    match t
    case seieki_mune =>
    case seieki_hip =>
    case seieki_ude =>
    case seieki_ashi =>
    case _ =>
  }

  /** `GetMaidPartCategory`: a type missing from the category map gets `None`. */
  function GetMaidPartCategory(t: MaidPartType): (r: MaidPartCategory)
    ensures r != None <==> IsEditableType(t)
  {
    TablesAgree(t);
    match CategoryEntry(t)
    case Some(category) => category
    case None => None
  }

  /** `IsEditableType`: the type has a category entry (the sets included). */
  predicate IsEditableType(t: MaidPartType) {
    CategoryEntry(t).Some?
  }

  /** `IsEquippableType`: the type has a category other than `None` and `Set`. */
  function IsEquippableType(t: MaidPartType): (r: bool)
    ensures r ==> IsEditableType(t)
    ensures r <==> IsEditableType(t) && GetMaidPartCategory(t) != Set
  {
    var category := GetMaidPartCategory(t);
    category != None && category != Set
  }

  /** `IsFolderType`. */
  predicate IsFolderType(t: MaidPartType) {
    t in FolderTypes
  }

  /** The four set types are editable but cannot be equipped. */
  lemma SetTypesNotEquippable(t: MaidPartType)
    requires t in {set_body, set_maidwear, set_mywear, set_underwear}
    ensures IsEditableType(t) && !IsEquippableType(t)
  {
    assert CategoryEntry(t) == Wrappers.Some(Set) by {
      match t
      case set_body =>
      case set_maidwear =>
      case set_mywear =>
      case set_underwear =>
      case _ =>
    }
  }

  /** Every folder type is editable and belongs to the face or the body. */
  lemma FolderTypesEditable(t: MaidPartType)
    requires IsFolderType(t)
    ensures IsEditableType(t)
    ensures GetMaidPartCategory(t) == Face || GetMaidPartCategory(t) == Body
  {
    match t
    case folder_mayu =>
    case folder_matsuge_up =>
    case folder_matsuge_low =>
    case folder_futae =>
    case folder_eye =>
    case folder_skin =>
    case chikubi =>
    case folder_underhair =>
    case _ =>
  }

  /** `GetAllMaidPartType`: the keys of the display-name map in the map's
      order, which is ascending by value; they are exactly the editable types. */
  function GetAllMaidPartType(): (r: seq<MaidPartType>)
    ensures forall t :: t in r <==> IsEditableType(t)
    ensures Ascending(r)
  {
    var keys := Filter(AllTypes(), HasJpName);
    FilterKeepsOrder(AllTypes(), HasJpName);
    assert forall t :: t in keys <==> IsEditableType(t) by {
      forall t ensures t in keys <==> IsEditableType(t) {
        AllTypesComplete(t);
        TablesAgree(t);
      }
    }
    keys
  }

  /** The type is a key of the display-name map. */
  predicate HasJpName(t: MaidPartType) {
    JpNameEntry(t).Some?
  }

  /** `GetMaidPartJpName`: the display name, or the enumerator's own name when the
      type has no display name or an empty one. */
  function GetMaidPartJpName(t: MaidPartType): (r: string)
    ensures JpNameEntry(t).Some? && JpNameEntry(t).value != "" ==> r == JpNameEntry(t).value
    ensures !IsEditableType(t) ==> r == Name(t)
  {
    TablesAgree(t);
    var name := JpNameEntry(t);
    if name.None? || name.value == "" then Name(t) else name.value
  }

  /** `ToMaidPartType`: the first enumerator, in `AllTypes` order, whose name
      equals `s` up to ASCII case, as the map's `OrdinalIgnoreCase` comparer
      matches keys; `null_mpn` for a null or unknown name. */
  function ToMaidPartType(s: Wrappers.Option<string>): (r: MaidPartType)
    ensures s.None? ==> r == null_mpn
    ensures s.Some? ==> forall t :: EqualsIgnoreCase(Name(t), s.value) ==> EqualsIgnoreCase(Name(r), s.value)
    ensures r != null_mpn ==> s.Some? && EqualsIgnoreCase(Name(r), s.value)
    ensures s.Some? ==> forall t :: EqualsIgnoreCase(Name(t), s.value) ==> Value(r) <= Value(t)
  {
    match s
    case None => null_mpn
    case Some(name) =>
      if exists t :: EqualsIgnoreCase(Name(t), name) then
        var t :| EqualsIgnoreCase(Name(t), name);
        AllTypesComplete(t);
        var r := FindByName(AllTypes(), name);
        assert forall u :: EqualsIgnoreCase(Name(u), name) ==> Value(r) <= Value(u) by {
          forall u | EqualsIgnoreCase(Name(u), name) ensures Value(r) <= Value(u) {
            AllTypesComplete(u);
            FindByNameLeast(AllTypes(), name, u);
          }
        }
        r
      else null_mpn
  }

  /** `GetMaidPartName` then `ToMaidPartType`: a type's name is found again,
      and the type found has that name up to case and is no greater in value
      than the type it came from. */
  lemma NameLookupRoundTrip(t: MaidPartType)
    ensures EqualsIgnoreCase(Name(ToMaidPartType(Wrappers.Some(Name(t)))), Name(t))
    ensures Value(ToMaidPartType(Wrappers.Some(Name(t)))) <= Value(t)
  {
    assert EqualsIgnoreCase(Name(t), Name(t));
  }

  /** The first element of `s` whose name equals `key` up to case. */
  function FindByName(s: seq<MaidPartType>, key: string): (r: MaidPartType)
    requires exists i :: 0 <= i < |s| && EqualsIgnoreCase(Name(s[i]), key)
    ensures EqualsIgnoreCase(Name(r), key) && r in s
  {
    if EqualsIgnoreCase(Name(s[0]), key) then s[0] else FindByName(s[1..], key)
  }

  /** In an ascending list the first match is the least-valued match. */
  lemma {:induction false} FindByNameLeast(s: seq<MaidPartType>, key: string, t: MaidPartType)
    requires exists i :: 0 <= i < |s| && EqualsIgnoreCase(Name(s[i]), key)
    requires Ascending(s) && t in s && EqualsIgnoreCase(Name(t), key)
    ensures Value(FindByName(s, key)) <= Value(t)
  {
    if !EqualsIgnoreCase(Name(s[0]), key) {
      assert t in s[1..];
      assert exists i :: 0 <= i < |s[1..]| && EqualsIgnoreCase(Name(s[1..][i]), key) by {
        var i :| 0 <= i < |s| && EqualsIgnoreCase(Name(s[i]), key);
        assert i != 0 && s[1..][i - 1] == s[i];
      }
      FindByNameLeast(s[1..], key, t);
    }
  }

  /** The game's `MPN` enumeration, defined outside this code: a code whose
      default, `MPN.null_mpn`, is 0. */
  type MPN = int
  const NullMPN: MPN := 0

  /** `ToMPN`: `null_mpn` maps to `MPN.null_mpn`; any other type goes through the
      game's name lookup `getMpn` (`MPNUtils.GetMPN`) applied to its name. */
  function ToMPN(t: MaidPartType, getMpn: string -> MPN): (r: MPN)
    ensures t == null_mpn ==> r == NullMPN
    ensures t != null_mpn ==> r == getMpn(Name(t))
  {
    if t == null_mpn then NullMPN else getMpn(Name(t))
  }

  /** `s.Where(keep)`: the elements of `s` that `keep` accepts, in the order of `s`. */
  function Filter(s: seq<MaidPartType>, keep: MaidPartType -> bool): (r: seq<MaidPartType>)
    ensures forall t :: t in r <==> t in s && keep(t)
  {
    if s == [] then []
    else if keep(s[0]) then [s[0]] + Filter(s[1..], keep)
    else Filter(s[1..], keep)
  }

  lemma {:induction false} FilterKeepsOrder(s: seq<MaidPartType>, keep: MaidPartType -> bool)
    requires Ascending(s)
    ensures Ascending(Filter(s, keep))
  {
    if s != [] {
      FilterKeepsOrder(s[1..], keep);
      var rest := Filter(s[1..], keep);
      forall j | 0 <= j < |rest|
        ensures Value(s[0]) < Value(rest[j])
      {
        assert rest[j] in s[1..];
        var k :| 0 <= k < |s[1..]| && s[1..][k] == rest[j];
        assert s[k + 1] == rest[j];
      }
    }
  }

  /** The static state of `MaidPartUtils` that changes: the lazily computed
      `equippableMaidPartTypes` list. */
  class PartTypeLists {
    var equippableCache: Wrappers.Option<seq<MaidPartType>>

    ghost predicate Valid()
      reads this
    {
      equippableCache.Some? ==> equippableCache.value == Filter(AllTypes(), IsEquippableType)
    }

    constructor ()
      ensures Valid() && equippableCache.None?
    {
      equippableCache := Wrappers.None;
    }

    /** `equippableMaidPartTypes`: computed on first use, then returned from the
        cache. */
    method EquippableMaidPartTypes() returns (r: seq<MaidPartType>)
      requires Valid()
      modifies this
      ensures Valid() && equippableCache == Wrappers.Some(r)
      ensures old(equippableCache).Some? ==> r == old(equippableCache).value
      ensures forall t :: t in r <==> IsEquippableType(t)
      ensures Ascending(r)
    {
      if equippableCache.None? {
        equippableCache := Wrappers.Some(Filter(AllTypes(), IsEquippableType));
      }
      r := equippableCache.value;
      FilterKeepsOrder(AllTypes(), IsEquippableType);
      forall t ensures t in r <==> IsEquippableType(t) {
        AllTypesComplete(t);
      }
    }
  }
}
