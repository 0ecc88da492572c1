/** `AnimationLayerInfo`: the state of one animation layer, whose `anmName`
    setter keeps a lower-cased tag beside the name. Float fields are opaque
    32-bit words. */
module AnimationLayers {
  import opened Wrappers
  import opened Wire
  import opened Text

  /** `0f` and `1f` as IEEE 754 single-precision words. */
  const FloatZero: Word32 := 0x0000_0000
  const FloatOne: Word32 := 0x3F80_0000

  /** A Unity `AnimationState`, known only by its instance id. */
  datatype AnimationState = AnimationState(id: int)

  class AnimationLayerInfo {
    var layer: int
    var anmName: string
    /** `null` until a name different from the current one is assigned. */
    var anmTag: Option<string>
    var startTime: Word32
    var weight: Word32
    var speed: Word32
    var loop: bool
    var overrideTime: bool
    var state: Option<AnimationState>

    /** The tag follows the name: either nothing was ever assigned (the name
        is still "" and the tag null), or the tag is the lower-cased name. */
    predicate Valid()
      reads this
    {
      (anmName == "" && anmTag.None?) || anmTag == Some(Lower(anmName))
    }

    /** `AnimationLayerInfo(layer)`: the field initialisers, then `layer`. */
    constructor (layer: int)
      ensures Valid()
      ensures this.layer == layer && anmName == "" && anmTag.None?
      ensures startTime == FloatZero && weight == FloatOne && speed == FloatOne
      ensures loop && !overrideTime && state.None?
    {
      this.layer := layer;
      anmName := "";
      anmTag := None;
      startTime, weight, speed := FloatZero, FloatOne, FloatOne;
      loop, overrideTime := true, false;
      state := None;
    }

    /** The `anmName` setter: a different name is stored with its lower-cased
        tag; the current name changes nothing. */
    method SetAnmName(value: string)
      requires Valid()
      modifies this
      ensures Valid()
      ensures value != old(anmName) ==> anmName == value && anmTag == Some(Lower(value))
      ensures value == old(anmName) ==> anmName == old(anmName) && anmTag == old(anmTag)
      ensures layer == old(layer) && startTime == old(startTime) && weight == old(weight)
      ensures speed == old(speed) && loop == old(loop) && overrideTime == old(overrideTime)
      ensures state == old(state)
    {
      if anmName != value {
        anmName := value;
        anmTag := Some(Lower(value));
      }
    }

    /** `Reset()`: the name set to "" through the setter, and the playback
        fields back to their initial values; `layer` is kept. */
    method Reset()
      requires Valid()
      modifies this
      ensures Valid()
      ensures anmName == ""
      ensures old(anmName) == "" ==> anmTag == old(anmTag)
      ensures old(anmName) != "" ==> anmTag == Some("")
      ensures startTime == FloatZero && weight == FloatOne && speed == FloatOne
      ensures loop && !overrideTime && state.None?
      ensures layer == old(layer)
    {
      SetAnmName("");
      startTime := FloatZero;
      weight := FloatOne;
      speed := FloatOne;
      loop := true;
      overrideTime := false;
      state := None;
    }
  }
}
