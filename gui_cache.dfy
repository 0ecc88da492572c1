/** The small per-field caches the GUI keeps between frames: a float field and
    an int field, each with its label, the text shown and the last value. A
    float value is an opaque 32-bit word, and `NaN` is `None`. */
module GuiCache {
  import opened Wrappers
  import opened Wire
  import opened Text

  datatype FloatFieldType = Float | Int

  /** C#'s `int`. */
  type Int32 = v: int | IsInt32(v)

  /** `float.ToString(format)`, which depends on the culture: a parameter. */
  type FloatFormatter = (Word32, string) -> string

  /** `FloatFieldCache`. */
  class FloatFieldCache {
    /** The source's `label` field (`label` is a reserved word here). */
    var caption: Option<string>
    var text: string
    var fieldType: FloatFieldType
    var value: Option<Number>

    constructor ()
      ensures caption.None? && text == "" && fieldType == Float && value.None?
    {
      caption, text, fieldType, value := None, "", Float, None;
    }

    /** `format`. */
    function Format(): (f: string)
      reads this
      ensures fieldType == Int ==> f == "F0"
      ensures fieldType == Float ==> f == "F2"
    {
      if fieldType == Int then "F0" else "F2"
    }

    /** The `fieldType` setter: the same type changes nothing; another type
        clears the value (to `NaN`) and the text. */
    method SetFieldType(t: FloatFieldType)
      modifies this
      ensures t == old(fieldType) ==> fieldType == t && value == old(value) && text == old(text)
      ensures t != old(fieldType) ==> fieldType == t && value.None? && text == ""
      ensures caption == old(caption)
    {
      if t == fieldType {
        return;
      }
      fieldType := t;
      value := None;
      text := "";
    }

    /** `UpdateValue(value, updateText)`. Float equality never holds for `NaN`,
        so only a number equal to the current number is ignored; any other
        value is stored, and with `updateText` the text becomes its formatting,
        or "" for `NaN`. */
    method UpdateValue(v: Option<Number>, updateText: bool, toText: FloatFormatter)
      modifies this
      ensures FloatEquals(v, old(value)) ==> value == old(value) && text == old(text)
      ensures !FloatEquals(v, old(value)) ==> value == v
      ensures !FloatEquals(v, old(value)) && updateText ==>
                text == if v.None? then "" else toText(v.value, Format())
      ensures !updateText ==> text == old(text)
      ensures caption == old(caption) && fieldType == old(fieldType)
    {
      if FloatEquals(v, value) {
        return;
      }
      value := v;
      if updateText {
        text := if value.None? then "" else toText(v.value, Format());
      }
    }

    /** `UpdateValue(value)`: the two-argument form with `updateText`. */
    method UpdateValueAndText(v: Option<Number>, toText: FloatFormatter)
      modifies this
      ensures FloatEquals(v, old(value)) ==> value == old(value) && text == old(text)
      ensures !FloatEquals(v, old(value)) ==> value == v && text == if v.None? then "" else toText(v.value, Format())
      ensures caption == old(caption) && fieldType == old(fieldType)
    {
      UpdateValue(v, true, toText);
    }
  }

  /** A NaN bit pattern: the exponent all ones and the mantissa non-zero. */
  predicate IsNaNPattern(w: Word32) {
    (w / 0x80_0000) % 0x100 == 0xFF && w % 0x80_0000 != 0
  }

  /** A float that is a number; `NaN` is written `None` instead. */
  type Number = w: Word32 | !IsNaNPattern(w)

  /** `==` on floats, with `None` for `NaN`: `NaN` equals nothing, itself
      included, and `+0` equals `-0` (the two words that are zero but for the
      sign bit). */
  predicate FloatEquals(a: Option<Number>, b: Option<Number>) {
    a.Some? && b.Some? && (a.value == b.value || (a.value % 0x8000_0000 == 0 && b.value % 0x8000_0000 == 0))
  }

  /** `int.ToString()`: the decimal spelling, with a leading minus sign for a
      negative number. */
  function IntText(n: int): (s: string)
    ensures n >= 0 ==> s == Digits(n)
    ensures n < 0 ==> s == "-" + Digits(-n)
  {
    if n < 0 then "-" + Digits(-n) else Digits(n)
  }

  /** Reading the text back: an optional minus sign and decimal digits. */
  function ParseIntText(s: string): Option<int> {
    if s != [] && s[0] == '-' && s[1..] != [] && AllDigits(s[1..]) then Some(-(DecimalValue(s[1..]) as int))
    else if s != [] && AllDigits(s) then Some(DecimalValue(s))
    else None
  }

  /** The text an int field shows reads back as its value. */
  lemma IntTextRoundTrip(n: int)
    ensures ParseIntText(IntText(n)) == Some(n)
  {
    if n < 0 {
      assert IntText(n)[1..] == Digits(-n);
    }
  }

  /** `IntFieldCache`. */
  class IntFieldCache {
    /** The source's `label` field (`label` is a reserved word here). */
    var caption: Option<string>
    var text: string
    var value: Int32

    constructor ()
      ensures caption.None? && text == "" && value == 0
    {
      caption, text, value := None, "", 0;
    }

    /** `UpdateValue(value, updateText)`: the current value is ignored; another
        one is stored and, with `updateText`, spelt out as the text. A fresh
        cache therefore keeps its empty text on `UpdateValue(0)`. */
    method UpdateValue(v: Int32, updateText: bool)
      modifies this
      ensures v == old(value) ==> value == old(value) && text == old(text)
      ensures v != old(value) ==> value == v
      ensures v != old(value) && updateText ==> text == IntText(v)
      ensures !updateText ==> text == old(text)
      ensures caption == old(caption)
    {
      if v == value {
        return;
      }
      value := v;
      if updateText {
        text := IntText(v);
      }
    }

    /** `UpdateValue(value)`: the two-argument form with `updateText`. */
    method UpdateValueAndText(v: Int32)
      modifies this
      ensures v == old(value) ==> value == old(value) && text == old(text)
      ensures v != old(value) ==> value == v && text == IntText(v)
      ensures caption == old(caption)
    {
      UpdateValue(v, true);
    }
  }
}
