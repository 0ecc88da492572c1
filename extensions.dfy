/** The extension helpers of `Extensions`: dictionary, list and array lookups
    with a fallback, `RemoveAllButFirst`, the finger lock flags, the colour
    palette slots and the transform path. */
module Extensions {
  import opened Wrappers
  import opened Wire
  import opened Text

  // ---------------------------------------------------------------------------
  // Dictionaries

  /** A `Dictionary<TKey, TValue>`, a table the helpers update in place. */
  class Dictionary<K(==), V> {
    var entries: map<K, V>

    constructor ()
      ensures entries == map[]
    {
      entries := map[];
    }

    /** `GetOrCreate(key, create)`: the stored value, or a value made by
        `create` (for the one-argument overload, `new TValue()`) that is then
        stored under the key. Either way the key afterwards maps to the result. */
    method GetOrCreate(key: K, create: () -> V) returns (value: V)
      modifies this
      ensures key in old(entries) ==> value == old(entries)[key] && entries == old(entries)
      ensures key !in old(entries) ==> value == create() && entries == old(entries)[key := value]
      ensures key in entries && entries[key] == value
    {
      if key in entries {
        value := entries[key];
      } else {
        value := create();
        entries := entries[key := value];
      }
    }
  }

  /** `GetOrDefault(key, defaultValue)` on a dictionary's entries (the
      one-argument overload passes `default(TValue)`): a null key is not looked
      up, and a missing key gives the fallback. The table is only read. */
  function GetOrDefault<K, V>(entries: map<K, V>, key: Option<K>, defaultValue: V): (r: V)
    ensures key.Some? && key.value in entries ==> r == entries[key.value]
    ensures key.None? || key.value !in entries ==> r == defaultValue
  {
    if key.None? then defaultValue
    else if key.value !in entries then defaultValue
    else entries[key.value]
  }

  // ---------------------------------------------------------------------------
  // Lists and arrays

  /** A `List<T>`, whose contents the helpers replace in place. */
  class List<T> {
    var items: seq<T>

    constructor (items: seq<T>)
      ensures this.items == items
    {
      this.items := items;
    }
  }

  /** `GetOrDefault(index, defaultValue)` on a list (the one-argument overload
      passes `null`): the element when the index is in range. */
  function ListGetOrDefault<T>(items: seq<T>, index: int, defaultValue: T): (r: T)
    ensures 0 <= index < |items| ==> r == items[index]
    ensures index < 0 || |items| <= index ==> r == defaultValue
  {
    if 0 <= index < |items| then items[index] else defaultValue
  }

  /** The array overloads of `GetOrDefault`: the same rule on the array's
      elements. */
  function ArrayGetOrDefault<T>(a: array<T>, index: int, defaultValue: T): (r: T)
    reads a
    ensures r == ListGetOrDefault(a[..], index, defaultValue)
  {
    if 0 <= index < a.Length then a[index] else defaultValue
  }

  /** The list seen as a dictionary from positions to elements. */
  function Indexed<T>(items: seq<T>): (m: map<int, T>)
    ensures forall i :: i in m <==> 0 <= i < |items|
  {
    map i | 0 <= i < |items| :: items[i]
  }

  /** The list lookup answers what a dictionary lookup keyed by position
      answers: the two fallbacks agree. */
  lemma ListLookupIsDictionaryLookup<T>(items: seq<T>, index: int, defaultValue: T)
    ensures ListGetOrDefault(items, index, defaultValue) == GetOrDefault(Indexed(items), Some(index), defaultValue)
  {
  }

  /** What `RemoveAllButFirst` leaves: the first element alone, or the whole
      list when it has at most one element. */
  function KeepFirst<T>(items: seq<T>): (r: seq<T>)
    ensures |r| <= 1 && r <= items
    ensures items != [] ==> r == [items[0]]
  {
    if |items| <= 1 then items else [items[0]]
  }

  lemma KeepFirstIdempotent<T>(items: seq<T>)
    ensures KeepFirst(KeepFirst(items)) == KeepFirst(items)
  {
  }

  /** `RemoveAllButFirst`: a null list is only logged; otherwise the list keeps
      exactly its first element. */
  method RemoveAllButFirst<T>(list: List?<T>)
    modifies list
    ensures list != null ==> list.items == KeepFirst(old(list.items))
  {
    if list == null {
      return;
    }
    if |list.items| <= 1 {
      return;
    }
    var first := list.items[0];
    list.items := [];
    list.items := list.items + [first];
  }

  // ---------------------------------------------------------------------------
  // Finger lock flags

  /** Which subclass of `FingerBlend.BaseFinger` a finger is. */
  datatype FingerKind = Arm | Leg | OtherFinger

  /** How many `lock_enabled`/`lock_value` pairs the subclass has. */
  function LockCount(kind: FingerKind): nat {
    match kind
    case Arm => 5
    case Leg => 3
    case OtherFinger => 0
  }

  /** A `FingerBlend.BaseFinger`; the lock flags and values of the subclass
      are indexed 0, 1, …; float values are opaque 32-bit words. */
  class Finger {
    const kind: FingerKind
    var enabled: bool
    var lockEnabled: seq<bool>
    var lockValue: seq<Word32>
    var valueOpen: Word32
    var valueFist: Word32

    predicate Valid()
      reads this
    {
      |lockEnabled| == LockCount(kind) && |lockValue| == LockCount(kind)
    }

    constructor (kind: FingerKind)
      ensures Valid() && this.kind == kind && !enabled
      ensures forall i :: 0 <= i < LockCount(kind) ==> !lockEnabled[i] && lockValue[i] == 0
    {
      this.kind := kind;
      enabled := false;
      lockEnabled := seq(LockCount(kind), _ => false);
      lockValue := seq(LockCount(kind), _ => 0);
      valueOpen, valueFist := 0, 0;
    }

    /** `IsLock(index)`: false for an index the subclass has no flag for and for
        a finger that is neither an arm nor a leg finger. */
    function IsLock(index: int): (r: bool)
      reads this
      requires Valid()
      ensures r ==> kind != OtherFinger && 0 <= index < LockCount(kind)
      ensures 0 <= index < LockCount(kind) ==> (r <==> lockEnabled[index])
    {
      if 0 <= index < |lockEnabled| then lockEnabled[index] else false
    }

    /** `LockAllItems(isLock)`: every flag of the subclass set to `isLock`. */
    method LockAllItems(isLock: bool)
      requires Valid()
      modifies this
      ensures Valid()
      ensures forall i :: 0 <= i < LockCount(kind) ==> IsLock(i) == isLock
      ensures enabled == old(enabled) && lockValue == old(lockValue)
      ensures valueOpen == old(valueOpen) && valueFist == old(valueFist)
    {
      lockEnabled := seq(|lockEnabled|, _ => isLock);
    }

    /** `LockReverse()`: every flag of the subclass negated. */
    method LockReverse()
      requires Valid()
      modifies this
      ensures Valid()
      ensures lockEnabled == Flipped(old(lockEnabled))
      ensures forall i :: 0 <= i < LockCount(kind) ==> IsLock(i) == !old(IsLock(i))
      ensures enabled == old(enabled) && lockValue == old(lockValue)
      ensures valueOpen == old(valueOpen) && valueFist == old(valueFist)
    {
      lockEnabled := Flipped(lockEnabled);
    }

    /** `CopyFrom(source)`: `enabled`, `value_open` and `value_fist` always;
        the lock flags and values only between fingers of the same subclass. */
    method CopyFrom(source: Finger)
      requires Valid() && source.Valid()
      modifies this
      ensures Valid()
      ensures enabled == old(source.enabled)
      ensures valueOpen == old(source.valueOpen) && valueFist == old(source.valueFist)
      ensures kind == source.kind ==> lockEnabled == old(source.lockEnabled) && lockValue == old(source.lockValue)
      ensures kind != source.kind ==> lockEnabled == old(lockEnabled) && lockValue == old(lockValue)
    {
      enabled := source.enabled;
      if kind == source.kind && kind != OtherFinger {
        lockEnabled := source.lockEnabled;
        lockValue := source.lockValue;
      }
      valueOpen := source.valueOpen;
      valueFist := source.valueFist;
    }
  }

  /** Every flag negated. */
  function Flipped(flags: seq<bool>): (r: seq<bool>)
    ensures |r| == |flags|
    ensures forall i :: 0 <= i < |flags| ==> r[i] != flags[i]
  {
    seq(|flags|, i requires 0 <= i < |flags| => !flags[i])
  }

  /** `LockReverse` twice restores every flag. */
  lemma FlippedTwice(flags: seq<bool>)
    ensures Flipped(Flipped(flags)) == flags
  {
    assert forall i :: 0 <= i < |flags| ==> Flipped(Flipped(flags))[i] == flags[i];
  }

  // ---------------------------------------------------------------------------
  // Colour palette slots

  /** `ColorPaletteManager.Category`; the members besides `Main` and `Shadow`
      are told apart only by their value. */
  datatype Category = Main | Shadow | OtherCategory(value: int)

  /** `ColorPaletteManager.ColorData`, a struct: one item per slot. */
  datatype ColorData<T> = ColorData(main: T, shadow: T, outline: T)

  /** `GetItem(category)`: `Main` and `Shadow` read their own slot, every other
      category reads `outline`. */
  function GetItem<T>(data: ColorData<T>, category: Category): (r: T)
    ensures category.OtherCategory? ==> r == data.outline
  {
    match category
    case Main => data.main
    case Shadow => data.shadow
    case OtherCategory(_) => data.outline
  }

  /** `SetItem(category, item)` on the struct passed by `ref`: the new value of
      the struct. */
  function SetItem<T>(data: ColorData<T>, category: Category, item: T): (r: ColorData<T>)
    ensures GetItem(r, category) == item
  {
    match category
    case Main => data.(main := item)
    case Shadow => data.(shadow := item)
    case OtherCategory(_) => data.(outline := item)
  }

  /** Two categories that share a slot. */
  predicate SameSlot(a: Category, b: Category) {
    (a.Main? && b.Main?) || (a.Shadow? && b.Shadow?) || (a.OtherCategory? && b.OtherCategory?)
  }

  /** `SetItem` followed by `GetItem` of another category: the value set there
      when both share a slot, the old value otherwise. */
  lemma SetThenGet<T>(data: ColorData<T>, c: Category, d: Category, item: T)
    ensures GetItem(SetItem(data, c, item), d) == if SameSlot(c, d) then item else GetItem(data, d)
  {
  }

  // ---------------------------------------------------------------------------
  // Transform paths

  /** A Unity `Transform`: its instance id, its name and its parent. */
  datatype Transform = Transform(id: int, name: string, parent: Option<Transform>)

  /** `GetFullPath(root)`: "" for a null transform or root; otherwise the
      names from just below `root` (or from the topmost ancestor when `root`
      is not above it) down to the transform, joined by "/". */
  function GetFullPath(t: Option<Transform>, root: Option<Transform>): (r: string)
    ensures t.None? || root.None? ==> r == ""
    ensures t.Some? && root.Some? ==> EndsWith(r, t.value.name)
    decreases t
  {
    if t.None? || root.None? then ""
    else
      var parent := t.value.parent;
      if parent.None? || parent == root then t.value.name
      else GetFullPath(parent, root) + "/" + t.value.name
  }

  /** The transform and its ancestors, nearest first. */
  function Lineage(t: Transform): (s: seq<Transform>)
    ensures s != [] && s[0] == t
    decreases t
  {
    [t] + if t.parent.None? then [] else Lineage(t.parent.value)
  }

  /** The first position from `k` on that holds `root`, or the length. */
  function StopAt(s: seq<Transform>, root: Transform, k: nat): (n: nat)
    requires k <= |s|
    ensures k <= n <= |s|
    ensures n < |s| ==> s[n] == root
    decreases |s| - k
  {
    if k == |s| then k else if s[k] == root then k else StopAt(s, root, k + 1)
  }

  /** The names of the nodes, the last node's first. */
  function NamesUpward(nodes: seq<Transform>): (names: seq<string>)
    ensures |names| == |nodes|
  {
    if nodes == [] then [] else NamesUpward(nodes[1..]) + [nodes[0].name]
  }

  function Join(names: seq<string>): string
    requires names != []
  {
    if |names| == 1 then names[0] else Join(names[..|names| - 1]) + "/" + names[|names| - 1]
  }

  /** The path below `root`: the lineage cut at the first ancestor that is
      `root`. */
  function PathBelow(t: Transform, root: Transform): (names: seq<string>)
    ensures names != []
  {
    var s := Lineage(t);
    NamesUpward(s[..StopAt(s, root, 1)])
  }

  lemma {:induction false} StopShift(t: Transform, s: seq<Transform>, root: Transform, k: nat)
    requires k <= |s|
    ensures StopAt([t] + s, root, k + 1) == 1 + StopAt(s, root, k)
    decreases |s| - k
  {
    if k < |s| {
      assert ([t] + s)[k + 1] == s[k];
      StopShift(t, s, root, k + 1);
    }
  }

  /** A transform right below `root`, or without a parent, is its own path. */
  lemma PathBelowTop(t: Transform, root: Transform)
    requires t.parent.None? || t.parent == Some(root)
    ensures PathBelow(t, root) == [t.name]
  {
    var s := Lineage(t);
    if t.parent.Some? {
      assert s[1] == Lineage(t.parent.value)[0] == root;
    }
    assert s[..StopAt(s, root, 1)] == [t];
  }

  /** Any other transform extends its parent's path by its own name. */
  lemma PathBelowStep(t: Transform, root: Transform)
    requires t.parent.Some? && t.parent != Some(root)
    ensures PathBelow(t, root) == PathBelow(t.parent.value, root) + [t.name]
  {
    var rest := Lineage(t.parent.value);
    var s := Lineage(t);
    assert s == [t] + rest;
    StopShift(t, rest, root, 0);
    var n := StopAt(rest, root, 1);
    assert StopAt(rest, root, 0) == n;
    assert s[..n + 1] == [t] + rest[..n];
    assert ([t] + rest[..n])[1..] == rest[..n];
  }

  lemma JoinSnoc(names: seq<string>, x: string)
    requires names != []
    ensures Join(names + [x]) == Join(names) + "/" + x
  {
    assert (names + [x])[..|names|] == names;
  }

  /** The recursive `GetFullPath` spells out the lineage below `root`. */
  lemma {:induction false} FullPathIsPathBelow(t: Transform, root: Transform)
    ensures GetFullPath(Some(t), Some(root)) == Join(PathBelow(t, root))
    decreases t
  {
    if t.parent.None? || t.parent == Some(root) {
      PathBelowTop(t, root);
    } else {
      FullPathIsPathBelow(t.parent.value, root);
      PathBelowStep(t, root);
      JoinSnoc(PathBelow(t.parent.value, root), t.name);
    }
  }
}
