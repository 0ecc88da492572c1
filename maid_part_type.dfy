/** The `MaidPartType` enumeration: each enumerator, its integer value and its
    name. Values are those the C# compiler assigns: an explicit anchor, then
    one more than the previous enumerator. */
module MaidPartTypes {
  import opened Wrappers

  datatype MaidPartType =
    | null_mpn
    | head
    | facegloss
    | folder_mayu
    | mayu
    | folder_matsuge_up
    | matsuge_up
    | folder_matsuge_low
    | matsuge_low
    | folder_futae
    | futae
    | folder_eye
    | eye
    | eye_hi
    | eye_hi_r
    | folder_eyewhite
    | eyewhite
    | nose
    | hokuro
    | lip
    | accha
    | hairf
    | hairr
    | hairs
    | hairt
    | hairaho
    | haircolor
    | folder_skin
    | skin
    | chikubi
    | chikubicolor
    | acctatoo
    | accnail
    | folder_underhair
    | underhair
    | body
    | moza
    | acchat
    | headset
    | wear
    | skirt
    | onepiece
    | mizugi
    | bra
    | panz
    | stkg
    | shoes
    | acckami
    | megane
    | acchead
    | acchana
    | accmimi
    | glove
    | acckubi
    | acckubiwa
    | acckamisub
    | accnip
    | accude
    | accheso
    | accashi
    | accsenaka
    | accshippo
    | accvag
    | accxxx
    | accanl
    | set_body
    | set_maidwear
    | set_mywear
    | set_underwear
    | set_head_slider
    | handitem
    | kousoku_upper
    | kousoku_lower
    | seieki_naka
    | seieki_hara
    | seieki_face
    | seieki_mune
    | seieki_hip
    | seieki_ude
    | seieki_ashi

  /** The integer value of the enumerator. */
  function Value(t: MaidPartType): int {
    match t
    case null_mpn => 0
    case head => 100
    case facegloss => 101
    case folder_mayu => 102
    case mayu => 103
    case folder_matsuge_up => 104
    case matsuge_up => 105
    case folder_matsuge_low => 106
    case matsuge_low => 107
    case folder_futae => 108
    case futae => 109
    case folder_eye => 110
    case eye => 111
    case eye_hi => 112
    case eye_hi_r => 113
    case folder_eyewhite => 114
    case eyewhite => 115
    case nose => 116
    case hokuro => 117
    case lip => 118
    case accha => 119
    case hairf => 200
    case hairr => 201
    case hairs => 202
    case hairt => 203
    case hairaho => 204
    case haircolor => 205
    case folder_skin => 300
    case skin => 301
    case chikubi => 302
    case chikubicolor => 303
    case acctatoo => 304
    case accnail => 305
    case folder_underhair => 306
    case underhair => 307
    case body => 308
    case moza => 309
    case acchat => 400
    case headset => 401
    case wear => 402
    case skirt => 403
    case onepiece => 404
    case mizugi => 405
    case bra => 406
    case panz => 407
    case stkg => 408
    case shoes => 409
    case acckami => 500
    case megane => 501
    case acchead => 502
    case acchana => 503
    case accmimi => 504
    case glove => 505
    case acckubi => 506
    case acckubiwa => 507
    case acckamisub => 508
    case accnip => 509
    case accude => 510
    case accheso => 511
    case accashi => 512
    case accsenaka => 513
    case accshippo => 514
    case accvag => 515
    case accxxx => 516
    case accanl => 517
    case set_body => 600
    case set_maidwear => 601
    case set_mywear => 602
    case set_underwear => 603
    case set_head_slider => 604
    case handitem => 700
    case kousoku_upper => 701
    case kousoku_lower => 702
    case seieki_naka => 703
    case seieki_hara => 704
    case seieki_face => 705
    case seieki_mune => 706
    case seieki_hip => 707
    case seieki_ude => 708
    case seieki_ashi => 709
  }

  /** `ToString()` of the enumerator. `GetMaidPartName` returns it for every
      type, since its map is built from all the enumerators. */
  function Name(t: MaidPartType): (r: string)
    ensures 0 < |r|
  {
    match t
    case null_mpn => "null_mpn"
    case head => "head"
    case facegloss => "facegloss"
    case folder_mayu => "folder_mayu"
    case mayu => "mayu"
    case folder_matsuge_up => "folder_matsuge_up"
    case matsuge_up => "matsuge_up"
    case folder_matsuge_low => "folder_matsuge_low"
    case matsuge_low => "matsuge_low"
    case folder_futae => "folder_futae"
    case futae => "futae"
    case folder_eye => "folder_eye"
    case eye => "eye"
    case eye_hi => "eye_hi"
    case eye_hi_r => "eye_hi_r"
    case folder_eyewhite => "folder_eyewhite"
    case eyewhite => "eyewhite"
    case nose => "nose"
    case hokuro => "hokuro"
    case lip => "lip"
    case accha => "accha"
    case hairf => "hairf"
    case hairr => "hairr"
    case hairs => "hairs"
    case hairt => "hairt"
    case hairaho => "hairaho"
    case haircolor => "haircolor"
    case folder_skin => "folder_skin"
    case skin => "skin"
    case chikubi => "chikubi"
    case chikubicolor => "chikubicolor"
    case acctatoo => "acctatoo"
    case accnail => "accnail"
    case folder_underhair => "folder_underhair"
    case underhair => "underhair"
    case body => "body"
    case moza => "moza"
    case acchat => "acchat"
    case headset => "headset"
    case wear => "wear"
    case skirt => "skirt"
    case onepiece => "onepiece"
    case mizugi => "mizugi"
    case bra => "bra"
    case panz => "panz"
    case stkg => "stkg"
    case shoes => "shoes"
    case acckami => "acckami"
    case megane => "megane"
    case acchead => "acchead"
    case acchana => "acchana"
    case accmimi => "accmimi"
    case glove => "glove"
    case acckubi => "acckubi"
    case acckubiwa => "acckubiwa"
    case acckamisub => "acckamisub"
    case accnip => "accnip"
    case accude => "accude"
    case accheso => "accheso"
    case accashi => "accashi"
    case accsenaka => "accsenaka"
    case accshippo => "accshippo"
    case accvag => "accvag"
    case accxxx => "accxxx"
    case accanl => "accanl"
    case set_body => "set_body"
    case set_maidwear => "set_maidwear"
    case set_mywear => "set_mywear"
    case set_underwear => "set_underwear"
    case set_head_slider => "set_head_slider"
    case handitem => "handitem"
    case kousoku_upper => "kousoku_upper"
    case kousoku_lower => "kousoku_lower"
    case seieki_naka => "seieki_naka"
    case seieki_hara => "seieki_hara"
    case seieki_face => "seieki_face"
    case seieki_mune => "seieki_mune"
    case seieki_hip => "seieki_hip"
    case seieki_ude => "seieki_ude"
    case seieki_ashi => "seieki_ashi"
  }

  /** The enumerator with value `v`, if one is declared. The declared values are
      0 and, from each anchor, an unbroken run inside the anchor's hundred. */
  function FromValue(v: int): (r: Option<MaidPartType>)
    ensures r.Some? <==> v == 0 || 100 <= v <= 119 || 200 <= v <= 205 || 300 <= v <= 309 || 400 <= v <= 409 || 500 <= v <= 517 || 600 <= v <= 604 || 700 <= v <= 709
  {
    if v == 0 then Some(null_mpn)
    else if 100 <= v <= 119 then Some(FromFaceValue(v))
    else if 200 <= v <= 205 then Some(FromHairValue(v))
    else if 300 <= v <= 309 then Some(FromBodyValue(v))
    else if 400 <= v <= 409 then Some(FromWearValue(v))
    else if 500 <= v <= 517 then Some(FromAccessoryValue(v))
    else if 600 <= v <= 604 then Some(FromSetValue(v))
    else if 700 <= v <= 709 then Some(FromOtherValue(v))
    else None
  }

  function FromFaceValue(v: int): (r: MaidPartType)
    requires 100 <= v <= 119
  {
    match v
    case 100 => head
    case 101 => facegloss
    case 102 => folder_mayu
    case 103 => mayu
    case 104 => folder_matsuge_up
    case 105 => matsuge_up
    case 106 => folder_matsuge_low
    case 107 => matsuge_low
    case 108 => folder_futae
    case 109 => futae
    case 110 => folder_eye
    case 111 => eye
    case 112 => eye_hi
    case 113 => eye_hi_r
    case 114 => folder_eyewhite
    case 115 => eyewhite
    case 116 => nose
    case 117 => hokuro
    case 118 => lip
    case _ => accha
  }

  function FromHairValue(v: int): (r: MaidPartType)
    requires 200 <= v <= 205
  {
    match v
    case 200 => hairf
    case 201 => hairr
    case 202 => hairs
    case 203 => hairt
    case 204 => hairaho
    case _ => haircolor
  }

  function FromBodyValue(v: int): (r: MaidPartType)
    requires 300 <= v <= 309
  {
    match v
    case 300 => folder_skin
    case 301 => skin
    case 302 => chikubi
    case 303 => chikubicolor
    case 304 => acctatoo
    case 305 => accnail
    case 306 => folder_underhair
    case 307 => underhair
    case 308 => body
    case _ => moza
  }

  function FromWearValue(v: int): (r: MaidPartType)
    requires 400 <= v <= 409
  {
    match v
    case 400 => acchat
    case 401 => headset
    case 402 => wear
    case 403 => skirt
    case 404 => onepiece
    case 405 => mizugi
    case 406 => bra
    case 407 => panz
    case 408 => stkg
    case _ => shoes
  }

  function FromAccessoryValue(v: int): (r: MaidPartType)
    requires 500 <= v <= 517
  {
    match v
    case 500 => acckami
    case 501 => megane
    case 502 => acchead
    case 503 => acchana
    case 504 => accmimi
    case 505 => glove
    case 506 => acckubi
    case 507 => acckubiwa
    case 508 => acckamisub
    case 509 => accnip
    case 510 => accude
    case 511 => accheso
    case 512 => accashi
    case 513 => accsenaka
    case 514 => accshippo
    case 515 => accvag
    case 516 => accxxx
    case _ => accanl
  }

  function FromSetValue(v: int): (r: MaidPartType)
    requires 600 <= v <= 604
  {
    match v
    case 600 => set_body
    case 601 => set_maidwear
    case 602 => set_mywear
    case 603 => set_underwear
    case _ => set_head_slider
  }

  function FromOtherValue(v: int): (r: MaidPartType)
    requires 700 <= v <= 709
  {
    match v
    case 700 => handitem
    case 701 => kousoku_upper
    case 702 => kousoku_lower
    case 703 => seieki_naka
    case 704 => seieki_hara
    case 705 => seieki_face
    case 706 => seieki_mune
    case 707 => seieki_hip
    case 708 => seieki_ude
    case _ => seieki_ashi
  }

  lemma ValueOfFromValue(v: int)
    ensures FromValue(v).Some? ==> Value(FromValue(v).value) == v
  {
    if 100 <= v <= 119 {
      ValueOfFaceValue(v);
    }
    else if 200 <= v <= 205 {
      ValueOfHairValue(v);
    }
    else if 300 <= v <= 309 {
      ValueOfBodyValue(v);
    }
    else if 400 <= v <= 409 {
      ValueOfWearValue(v);
    }
    else if 500 <= v <= 517 {
      ValueOfAccessoryValue(v);
    }
    else if 600 <= v <= 604 {
      ValueOfSetValue(v);
    }
    else if 700 <= v <= 709 {
      ValueOfOtherValue(v);
    }
  }

  lemma ValueOfFaceValue(v: int)
    requires 100 <= v <= 119
    ensures Value(FromFaceValue(v)) == v
  {
    match FromFaceValue(v)
    case head =>
    case facegloss =>
    case folder_mayu =>
    case mayu =>
    case folder_matsuge_up =>
    case matsuge_up =>
    case folder_matsuge_low =>
    case matsuge_low =>
    case folder_futae =>
    case futae =>
    case folder_eye =>
    case eye =>
    case eye_hi =>
    case eye_hi_r =>
    case folder_eyewhite =>
    case eyewhite =>
    case nose =>
    case hokuro =>
    case lip =>
    case accha =>
    case _ =>
  }

  lemma ValueOfHairValue(v: int)
    requires 200 <= v <= 205
    ensures Value(FromHairValue(v)) == v
  {
    match FromHairValue(v)
    case hairf =>
    case hairr =>
    case hairs =>
    case hairt =>
    case hairaho =>
    case haircolor =>
    case _ =>
  }

  lemma ValueOfBodyValue(v: int)
    requires 300 <= v <= 309
    ensures Value(FromBodyValue(v)) == v
  {
    match FromBodyValue(v)
    case folder_skin =>
    case skin =>
    case chikubi =>
    case chikubicolor =>
    case acctatoo =>
    case accnail =>
    case folder_underhair =>
    case underhair =>
    case body =>
    case moza =>
    case _ =>
  }

  lemma ValueOfWearValue(v: int)
    requires 400 <= v <= 409
    ensures Value(FromWearValue(v)) == v
  {
    match FromWearValue(v)
    case acchat =>
    case headset =>
    case wear =>
    case skirt =>
    case onepiece =>
    case mizugi =>
    case bra =>
    case panz =>
    case stkg =>
    case shoes =>
    case _ =>
  }

  lemma ValueOfAccessoryValue(v: int)
    requires 500 <= v <= 517
    ensures Value(FromAccessoryValue(v)) == v
  {
    match FromAccessoryValue(v)
    case acckami =>
    case megane =>
    case acchead =>
    case acchana =>
    case accmimi =>
    case glove =>
    case acckubi =>
    case acckubiwa =>
    case acckamisub =>
    case accnip =>
    case accude =>
    case accheso =>
    case accashi =>
    case accsenaka =>
    case accshippo =>
    case accvag =>
    case accxxx =>
    case accanl =>
    case _ =>
  }

  lemma ValueOfSetValue(v: int)
    requires 600 <= v <= 604
    ensures Value(FromSetValue(v)) == v
  {
    match FromSetValue(v)
    case set_body =>
    case set_maidwear =>
    case set_mywear =>
    case set_underwear =>
    case set_head_slider =>
    case _ =>
  }

  lemma ValueOfOtherValue(v: int)
    requires 700 <= v <= 709
    ensures Value(FromOtherValue(v)) == v
  {
    match FromOtherValue(v)
    case handitem =>
    case kousoku_upper =>
    case kousoku_lower =>
    case seieki_naka =>
    case seieki_hara =>
    case seieki_face =>
    case seieki_mune =>
    case seieki_hip =>
    case seieki_ude =>
    case seieki_ashi =>
    case _ =>
  }

  lemma FromValueOfValue(t: MaidPartType)
    ensures FromValue(Value(t)) == Some(t)
  {
    match t
    case null_mpn =>
    case head | facegloss | folder_mayu | mayu | folder_matsuge_up | matsuge_up | folder_matsuge_low | matsuge_low | folder_futae | futae | folder_eye | eye | eye_hi | eye_hi_r | folder_eyewhite | eyewhite | nose | hokuro | lip | accha => FaceFromValue(t);
    case hairf | hairr | hairs | hairt | hairaho | haircolor => HairFromValue(t);
    case folder_skin | skin | chikubi | chikubicolor | acctatoo | accnail | folder_underhair | underhair | body | moza => BodyFromValue(t);
    case acchat | headset | wear | skirt | onepiece | mizugi | bra | panz | stkg | shoes => WearFromValue(t);
    case acckami | megane | acchead | acchana | accmimi | glove | acckubi | acckubiwa | acckamisub | accnip | accude | accheso | accashi | accsenaka | accshippo | accvag | accxxx | accanl => AccessoryFromValue(t);
    case set_body | set_maidwear | set_mywear | set_underwear | set_head_slider => SetFromValue(t);
    case handitem | kousoku_upper | kousoku_lower | seieki_naka | seieki_hara | seieki_face | seieki_mune | seieki_hip | seieki_ude | seieki_ashi => OtherFromValue(t);
  }

  lemma FaceFromValue(t: MaidPartType)
    requires t.head? || t.facegloss? || t.folder_mayu? || t.mayu? || t.folder_matsuge_up? || t.matsuge_up? || t.folder_matsuge_low? || t.matsuge_low? || t.folder_futae? || t.futae? || t.folder_eye? || t.eye? || t.eye_hi? || t.eye_hi_r? || t.folder_eyewhite? || t.eyewhite? || t.nose? || t.hokuro? || t.lip? || t.accha?
    ensures FromValue(Value(t)) == Some(t)
  {
    match t
    case head =>
    case facegloss =>
    case folder_mayu =>
    case mayu =>
    case folder_matsuge_up =>
    case matsuge_up =>
    case folder_matsuge_low =>
    case matsuge_low =>
    case folder_futae =>
    case futae =>
    case folder_eye =>
    case eye =>
    case eye_hi =>
    case eye_hi_r =>
    case folder_eyewhite =>
    case eyewhite =>
    case nose =>
    case hokuro =>
    case lip =>
    case accha =>
    case _ =>
  }

  lemma HairFromValue(t: MaidPartType)
    requires t.hairf? || t.hairr? || t.hairs? || t.hairt? || t.hairaho? || t.haircolor?
    ensures FromValue(Value(t)) == Some(t)
  {
    match t
    case hairf =>
    case hairr =>
    case hairs =>
    case hairt =>
    case hairaho =>
    case haircolor =>
    case _ =>
  }

  lemma BodyFromValue(t: MaidPartType)
    requires t.folder_skin? || t.skin? || t.chikubi? || t.chikubicolor? || t.acctatoo? || t.accnail? || t.folder_underhair? || t.underhair? || t.body? || t.moza?
    ensures FromValue(Value(t)) == Some(t)
  {
    match t
    case folder_skin =>
    case skin =>
    case chikubi =>
    case chikubicolor =>
    case acctatoo =>
    case accnail =>
    case folder_underhair =>
    case underhair =>
    case body =>
    case moza =>
    case _ =>
  }

  lemma WearFromValue(t: MaidPartType)
    requires t.acchat? || t.headset? || t.wear? || t.skirt? || t.onepiece? || t.mizugi? || t.bra? || t.panz? || t.stkg? || t.shoes?
    ensures FromValue(Value(t)) == Some(t)
  {
    match t
    case acchat =>
    case headset =>
    case wear =>
    case skirt =>
    case onepiece =>
    case mizugi =>
    case bra =>
    case panz =>
    case stkg =>
    case shoes =>
    case _ =>
  }

  lemma AccessoryFromValue(t: MaidPartType)
    requires t.acckami? || t.megane? || t.acchead? || t.acchana? || t.accmimi? || t.glove? || t.acckubi? || t.acckubiwa? || t.acckamisub? || t.accnip? || t.accude? || t.accheso? || t.accashi? || t.accsenaka? || t.accshippo? || t.accvag? || t.accxxx? || t.accanl?
    ensures FromValue(Value(t)) == Some(t)
  {
    match t
    case acckami =>
    case megane =>
    case acchead =>
    case acchana =>
    case accmimi =>
    case glove =>
    case acckubi =>
    case acckubiwa =>
    case acckamisub =>
    case accnip =>
    case accude =>
    case accheso =>
    case accashi =>
    case accsenaka =>
    case accshippo =>
    case accvag =>
    case accxxx =>
    case accanl =>
    case _ =>
  }

  lemma SetFromValue(t: MaidPartType)
    requires t.set_body? || t.set_maidwear? || t.set_mywear? || t.set_underwear? || t.set_head_slider?
    ensures FromValue(Value(t)) == Some(t)
  {
    match t
    case set_body =>
    case set_maidwear =>
    case set_mywear =>
    case set_underwear =>
    case set_head_slider =>
    case _ =>
  }

  lemma OtherFromValue(t: MaidPartType)
    requires t.handitem? || t.kousoku_upper? || t.kousoku_lower? || t.seieki_naka? || t.seieki_hara? || t.seieki_face? || t.seieki_mune? || t.seieki_hip? || t.seieki_ude? || t.seieki_ashi?
    ensures FromValue(Value(t)) == Some(t)
  {
    match t
    case handitem =>
    case kousoku_upper =>
    case kousoku_lower =>
    case seieki_naka =>
    case seieki_hara =>
    case seieki_face =>
    case seieki_mune =>
    case seieki_hip =>
    case seieki_ude =>
    case seieki_ashi =>
    case _ =>
  }


  /** All enumerators are distinct: no two share a value. */
  lemma ValueInjective(t: MaidPartType, u: MaidPartType)
    ensures Value(t) == Value(u) <==> t == u
  {
    FromValueOfValue(t);
    FromValueOfValue(u);
  }

  /** `null_mpn` is the only enumerator with value 0, the default of the type. */
  lemma NullIsDefault(t: MaidPartType)
    ensures Value(t) == 0 <==> t == null_mpn
  {
    ValueInjective(t, null_mpn);
  }

  const MaxValue := 709

  /** The declared enumerators with a value of at least `v`, in ascending order of
      value: the tail of `Enum.GetValues` from `v`. */
  function TypesFrom(v: nat): seq<MaidPartType>
    requires v <= MaxValue + 1
    decreases MaxValue + 1 - v
  {
    if v == MaxValue + 1 then []
    else
      match FromValue(v)
      case Some(t) => [t] + TypesFrom(v + 1)
      case None => TypesFrom(v + 1)
  }

  /** The values along `r` strictly increase. */
  predicate Ascending(r: seq<MaidPartType>) {
    forall i, j :: 0 <= i < j < |r| ==> Value(r[i]) < Value(r[j])
  }

  /** Each value along `r` is above the one before it. */
  predicate Chained(r: seq<MaidPartType>) {
    forall i :: 0 < i < |r| ==> Value(r[i - 1]) < Value(r[i])
  }

  /** Values that rise step by step rise overall. */
  lemma {:induction false} ChainedAscending(r: seq<MaidPartType>)
    requires Chained(r)
    ensures Ascending(r)
  {
    if |r| > 1 {
      var rest := r[1..];
      assert Chained(rest) by {
        forall i | 0 < i < |rest| ensures Value(rest[i - 1]) < Value(rest[i]) {
          assert rest[i - 1] == r[i] && rest[i] == r[i + 1];
        }
      }
      ChainedAscending(rest);
      forall i, j | 0 <= i < j < |r| ensures Value(r[i]) < Value(r[j]) {
        if i == 0 {
          assert Value(r[0]) < Value(r[1]);
          if j > 1 {
            assert r[1] == rest[0] && r[j] == rest[j - 1];
          }
        } else {
          assert r[i] == rest[i - 1] && r[j] == rest[j - 1];
        }
      }
    }
  }

  /** The enumerators from `v` on start at `v` or above, and rise step by step. */
  lemma {:induction false} TypesFromChained(v: nat)
    requires v <= MaxValue + 1
    ensures TypesFrom(v) != [] ==> v <= Value(TypesFrom(v)[0])
    ensures Chained(TypesFrom(v))
    decreases MaxValue + 1 - v
  {
    if v <= MaxValue {
      TypesFromChained(v + 1);
      ChainedStep(v);
    }
  }

  lemma ChainedStep(v: nat)
    requires v <= MaxValue
    requires TypesFrom(v + 1) != [] ==> v + 1 <= Value(TypesFrom(v + 1)[0])
    requires Chained(TypesFrom(v + 1))
    ensures TypesFrom(v) != [] ==> v <= Value(TypesFrom(v)[0])
    ensures Chained(TypesFrom(v))
  {
    var rest := TypesFrom(v + 1);
    match FromValue(v)
    case None =>
      assert TypesFrom(v) == rest;
    case Some(t) =>
      ValueOfFromValue(v);
      var r := [t] + rest;
      assert TypesFrom(v) == r;
      forall i | 0 < i < |r| ensures Value(r[i - 1]) < Value(r[i]) {
        if i > 1 {
          assert r[i - 1] == rest[i - 2] && r[i] == rest[i - 1];
        }
      }
  }

  lemma {:induction false} TypesFromMembers(v: nat, t: MaidPartType)
    requires v <= MaxValue + 1
    ensures t in TypesFrom(v) <==> v <= Value(t)
    decreases MaxValue + 1 - v
  {
    if v <= MaxValue {
      TypesFromMembers(v + 1, t);
      TypesFromStep(v, t);
    } else {
      TypesFromEnd(t);
    }
  }

  lemma TypesFromEnd(t: MaidPartType)
    ensures t !in TypesFrom(MaxValue + 1) && Value(t) <= MaxValue
  {
    FromValueOfValue(t);
  }

  lemma TypesFromStep(v: nat, t: MaidPartType)
    requires v <= MaxValue
    ensures t in TypesFrom(v) <==> Value(t) == v || t in TypesFrom(v + 1)
  {
    match FromValue(v)
    case None =>
      assert Value(t) != v by {
        FromValueOfValue(t);
      }
    case Some(u) =>
      assert TypesFrom(v) == [u] + TypesFrom(v + 1);
      assert u == t <==> Value(t) == v by {
        ValueOfFromValue(v);
        FromValueOfValue(t);
      }
  }

  /** `Enum.GetValues(typeof(MaidPartType))`: every enumerator, in ascending order
      of value, which here is declaration order. */
  function AllTypes(): (r: seq<MaidPartType>)
    ensures Ascending(r)
  {
    TypesFromChained(0);
    ChainedAscending(TypesFrom(0));
    TypesFrom(0)
  }

  lemma AllTypesComplete(t: MaidPartType)
    ensures t in AllTypes()
  {
    FromValueOfValue(t);
    TypesFromMembers(0, t);
  }

  /** Ascending values make `AllTypes` free of duplicates. */
  lemma AllTypesDistinct()
    ensures forall i, j :: 0 <= i < j < |AllTypes()| ==> AllTypes()[i] != AllTypes()[j]
  {
  }
}
