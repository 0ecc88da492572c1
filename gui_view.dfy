/** The parts of `GUIView.cs` that keep state: the tile-view content tree
    (`TileViewContentBase` and `TempTileViewContent`) and a view's pools of
    field caches, handed out in order and rewound by `ResetLayout`. */
module GuiViews {
  import opened Wrappers
  import opened GuiCache

  // ---------------------------------------------------------------------------
  // The content tree

  /** `list.Remove(x)`: the first occurrence of `x` dropped, if any. */
  function RemoveFirst<T(==)>(s: seq<T>, x: T): (r: seq<T>)
    ensures x !in s ==> r == s
    ensures x in s ==> |r| == |s| - 1
  {
    if s == [] then []
    else if s[0] == x then s[1..]
    else [s[0]] + RemoveFirst(s[1..], x)
  }

  /** `Remove` takes exactly one `x` away from the elements. */
  lemma {:induction false} RemoveFirstElements<T>(s: seq<T>, x: T)
    ensures multiset(RemoveFirst(s, x)) == multiset(s) - multiset{x}
  {
    if s != [] {
      assert s == [s[0]] + s[1..];
      if s[0] != x {
        RemoveFirstElements(s[1..], x);
      }
    }
  }

  /** Removing a child that `AddChild` just appended gives back the list it
      was appended to, when the child was not in it already. */
  lemma {:induction false} RemoveFirstUndoesAppend<T>(s: seq<T>, x: T)
    requires x !in s
    ensures RemoveFirst(s + [x], x) == s
  {
    if s != [] {
      assert (s + [x])[1..] == s[1..] + [x];
      RemoveFirstUndoesAppend(s[1..], x);
    }
  }

  /** The position of the first null entry, or the length. */
  function FirstNull(s: seq<TileContent?>): (i: nat)
    ensures i <= |s|
    ensures forall k :: 0 <= k < i ==> s[k] != null
    ensures i < |s| <==> null in s
  {
    if s == [] then 0 else if s[0] == null then 0 else 1 + FirstNull(s[1..])
  }

  /** An index holding null with no null before it is `FirstNull`. */
  lemma {:induction false} FirstNullAt(s: seq<TileContent?>, i: nat)
    requires i < |s| && s[i] == null && forall k :: 0 <= k < i ==> s[k] != null
    ensures FirstNull(s) == i
    decreases i
  {
    if i > 0 {
      FirstNullAt(s[1..], i - 1);
    }
  }

  /** An `ITileViewContent`: a `TileViewContentBase`, or with `temporary` a
      `TempTileViewContent`, whose overrides never touch `parent`. A null
      `children` list is `None`. */
  class TileContent {
    const temporary: bool
    var isDir: bool
    var children: Option<seq<TileContent?>>
    var parent: TileContent?

    constructor (temporary: bool, isDir: bool)
      ensures this.temporary == temporary && this.isDir == isDir
      ensures children.None? && parent == null
    {
      this.temporary := temporary;
      this.isDir := isDir;
      children := None;
      parent := null;
    }

    /** The non-null entries of the children list. */
    function Kids(): set<TileContent>
      reads this
    {
      if children.None? then {} else set c: TileContent | c in children.value
    }

    /** `RemoveChild(child)`: the first occurrence leaves the list (if there is
        a list), and a base content then sets `child.parent` to null whether or
        not the child was found. */
    method RemoveChild(child: TileContent)
      modifies this, child
      ensures children == if old(children).None? then None else Some(RemoveFirst(old(children).value, child))
      ensures !temporary ==> child.parent == null
      ensures temporary ==> child.parent == old(child.parent)
      ensures child != this ==> parent == old(parent) && child.children == old(child.children)
      ensures isDir == old(isDir) && child.isDir == old(child.isDir)
    {
      if children.Some? {
        children := Some(RemoveFirst(children.value, child));
      }
      if !temporary {
        child.parent := null;
      }
    }

    /** `AddChild(child)`. A base content makes sure it has a list, does
        nothing more for its own child, and otherwise takes the child from its
        old parent (through that parent's `RemoveChild`), appends it and
        becomes its parent. A temporary content only appends. */
    method AddChild(child: TileContent)
      modifies this, child, child.parent
      ensures temporary ==> children == Some(OrEmpty(old(children)) + [child]) && child.parent == old(child.parent)
      ensures !temporary && old(child.parent) == this ==>
                children == Some(OrEmpty(old(children))) && child.parent == this
      ensures !temporary && old(child.parent) != this ==>
                children == Some(OrEmpty(old(children)) + [child]) && child.parent == this
      ensures !temporary && old(child.parent) != this && old(child.parent) != null && old(child.parent) != child ==>
                var p := old(child.parent);
                p.children == if old(p.children).None? then None else Some(RemoveFirst(old(p.children).value, child))
      ensures isDir == old(isDir) && child.isDir == old(child.isDir)
      ensures child != this ==> parent == old(parent)
      ensures child != this && old(child.parent) != child ==> child.children == old(child.children)
      ensures var p := old(child.parent);
              p != null && p != child ==> p.parent == old(p.parent) && p.isDir == old(p.isDir)
      ensures var p := old(child.parent);
              temporary && p != null && p != this ==> p.children == old(p.children)
    {
      if children.None? {
        children := Some([]);
      }
      if temporary {
        children := Some(children.value + [child]);
        return;
      }
      if child.parent == this {
        return;
      }
      if child.parent != null {
        child.parent.RemoveChild(child);
      }
      children := Some(children.value + [child]);
      child.parent := this;
    }

    /** `RemoveAllChildren()`. A base content walks its list setting every
        child's parent to null and then empties the list; a null entry throws
        (`threw`) with the children before it already detached and the list
        left as it was. A temporary content only empties the list. */
    method RemoveAllChildren() returns (threw: bool)
      modifies this, Kids()
      ensures temporary ==> !threw && children == Emptied(old(children))
      ensures !temporary ==> (threw <==> old(children).Some? && null in old(children).value)
      ensures !temporary && !threw ==> children == Emptied(old(children))
      ensures !temporary && !threw ==> forall c :: c in old(Kids()) ==> c.parent == null
      ensures !temporary && threw ==>
                children == old(children)
                && forall k :: 0 <= k < FirstNull(old(children).value) ==> old(children).value[k].parent == null
      ensures isDir == old(isDir) && (this !in old(Kids()) ==> parent == old(parent))
      ensures forall c :: c in old(Kids()) ==> c.isDir == old(c.isDir) && (c != this ==> c.children == old(c.children))
      ensures temporary ==> forall c :: c in old(Kids()) ==> c.parent == old(c.parent)
      ensures !temporary && threw ==>
                forall c :: c in old(Kids()) && c !in old(children).value[..FirstNull(old(children).value)] ==>
                  c.parent == old(c.parent)
    {
      if temporary {
        children := Emptied(children);
        return false;
      }
      if children.None? {
        return false;
      }
      var list := children.value;
      var i := 0;
      while i < |list|
        invariant 0 <= i <= |list|
        invariant children == old(children)
        invariant forall k :: 0 <= k < i ==> list[k] != null && list[k].parent == null
        invariant isDir == old(isDir) && (this !in old(Kids()) ==> parent == old(parent))
        invariant forall c :: c in old(Kids()) ==> c.isDir == old(c.isDir) && (c != this ==> c.children == old(c.children))
        invariant forall c :: c in old(Kids()) && c !in list[..i] ==> c.parent == old(c.parent)
      {
        if list[i] == null {
          FirstNullAt(list, i);
          return true;
        }
        list[i].parent := null;
        i := i + 1;
      }
      children := Some([]);
      return false;
    }

    /** `RemoveFromParent()`: `parent?.RemoveChild(this)`. */
    method RemoveFromParent()
      modifies this, parent
      ensures old(parent) == null ==> parent == null && children == old(children)
      ensures old(parent) != null && old(parent) != this ==>
                var p := old(parent);
                p.children == (if old(p.children).None? then None else Some(RemoveFirst(old(p.children).value, this)))
                && parent == (if p.temporary then p else null)
      ensures isDir == old(isDir)
      ensures old(parent) != this ==> children == old(children)
      ensures var p := old(parent);
              p != null && p != this ==> p.parent == old(p.parent) && p.isDir == old(p.isDir)
    {
      if parent != null {
        parent.RemoveChild(this);
      }
    }
  }

  function OrEmpty<T>(list: Option<seq<T>>): seq<T> {
    if list.None? then [] else list.value
  }

  /** `Clear()` on a list that may be null. */
  function Emptied<T>(list: Option<seq<T>>): (r: Option<seq<T>>)
    ensures r.Some? <==> list.Some?
    ensures r.Some? ==> r.value == []
  {
    if list.None? then None else Some([])
  }

  // ---------------------------------------------------------------------------
  // Counting and collecting, on a snapshot of the tree

  /** The tree as a value: whether each content is a directory, whether it
      has a children list (`listed`; a null list otherwise) and the entries
      of that list, a null entry being `None`. */
  datatype Tile = Tile(isDir: bool, listed: bool, children: seq<Option<Tile>>)

  /** A child entry, and the tile in it, are smaller than their parent. */
  lemma ChildBelow(t: Tile, i: nat)
    requires i < |t.children| && t.children[i].Some?
    ensures t.children[i].value < t
  {
    assert t.children[i] in t.children;
  }

  /** `GetFileCount(recursive)`: 0 for a file or a missing list; otherwise
      one per file child, null children skipped, and with `recursive` the
      files of every directory child. */
  function FileCount(t: Tile, recursive: bool): nat
    decreases t
  {
    if !t.isDir || !t.listed then 0 else FilesAmong(t, |t.children|, recursive)
  }

  function FilesAmong(t: Tile, n: nat, recursive: bool): nat
    requires n <= |t.children|
    decreases t, n
  {
    if n == 0 then 0 else FilesAmong(t, n - 1, recursive) + FilesOf(t, n - 1, recursive)
  }

  function FilesOf(t: Tile, i: nat, recursive: bool): nat
    requires i < |t.children|
    decreases t, 0
  {
    var c := t.children[i];
    if c.None? then 0
    else if !c.value.isDir then 1
    else if recursive then ChildBelow(t, i); FileCount(c.value, true)
    else 0
  }

  /** `GetDirCount(recursive)`: 0 for a file or a missing list; otherwise
      one per directory child, null children skipped, plus with `recursive`
      the directories below it. */
  function DirCount(t: Tile, recursive: bool): nat
    decreases t
  {
    if !t.isDir || !t.listed then 0 else DirsAmong(t, |t.children|, recursive)
  }

  function DirsAmong(t: Tile, n: nat, recursive: bool): nat
    requires n <= |t.children|
    decreases t, n
  {
    if n == 0 then 0 else DirsAmong(t, n - 1, recursive) + DirsOf(t, n - 1, recursive)
  }

  function DirsOf(t: Tile, i: nat, recursive: bool): nat
    requires i < |t.children|
    decreases t, 0
  {
    var c := t.children[i];
    if c.None? || !c.value.isDir then 0
    else 1 + if recursive then ChildBelow(t, i); DirCount(c.value, true) else 0
  }

  /** The `foreach` of `GetFileCount`. */
  method GetFileCount(t: Tile, recursive: bool) returns (count: nat)
    ensures count == FileCount(t, recursive)
    decreases t
  {
    if !t.isDir || !t.listed {
      return 0;
    }
    var children := t.children;
    count := 0;
    for i := 0 to |children|
      invariant count == FilesAmong(t, i, recursive)
    {
      var child := children[i];
      if child.None? {
        continue;
      }
      if !child.value.isDir {
        count := count + 1;
      } else if recursive {
        ChildBelow(t, i);
        var below := GetFileCount(child.value, true);
        count := count + below;
      }
    }
  }

  /** The `foreach` of `GetDirCount`. */
  method GetDirCount(t: Tile, recursive: bool) returns (count: nat)
    ensures count == DirCount(t, recursive)
    decreases t
  {
    if !t.isDir || !t.listed {
      return 0;
    }
    var children := t.children;
    count := 0;
    for i := 0 to |children|
      invariant count == DirsAmong(t, i, recursive)
    {
      var child := children[i];
      if child.None? {
        continue;
      }
      if child.value.isDir {
        count := count + 1;
        if recursive {
          ChildBelow(t, i);
          var below := GetDirCount(child.value, true);
          count := count + below;
        }
      }
    }
  }

  /** Recursion only adds: the non-recursive counts are at most the recursive
      ones. */
  lemma {:induction false} FilesAmongGrow(t: Tile, n: nat)
    requires n <= |t.children|
    ensures FilesAmong(t, n, false) <= FilesAmong(t, n, true)
    decreases n
  {
    if n > 0 {
      FilesAmongGrow(t, n - 1);
    }
  }

  lemma {:induction false} DirsAmongGrow(t: Tile, n: nat)
    requires n <= |t.children|
    ensures DirsAmong(t, n, false) <= DirsAmong(t, n, true)
    decreases n
  {
    if n > 0 {
      DirsAmongGrow(t, n - 1);
    }
  }

  lemma CountsGrowWithRecursion(t: Tile)
    ensures FileCount(t, false) <= FileCount(t, true)
    ensures DirCount(t, false) <= DirCount(t, true)
  {
    if t.isDir && t.listed {
      FilesAmongGrow(t, |t.children|);
      DirsAmongGrow(t, |t.children|);
    }
  }

  /** `GetAllFiles(result)`: every file child appended in order, and the files
      of every directory child in their place; the content's own `isDir` is
      not looked at. A null child throws (`None`). */
  function AllFiles(t: Tile): (r: Option<seq<Tile>>)
    ensures r.Some? ==> forall x :: x in r.value ==> !x.isDir
    decreases t
  {
    if !t.listed then Some([]) else FilesUpTo(t, |t.children|)
  }

  function FilesUpTo(t: Tile, n: nat): (r: Option<seq<Tile>>)
    requires n <= |t.children|
    ensures r.Some? ==> forall x :: x in r.value ==> !x.isDir
    decreases t, n
  {
    if n == 0 then Some([])
    else
      var front := FilesUpTo(t, n - 1);
      var more := FilesUnder(t, n - 1);
      if front.None? || more.None? then None else Some(front.value + more.value)
  }

  function FilesUnder(t: Tile, i: nat): (r: Option<seq<Tile>>)
    requires i < |t.children|
    ensures r.Some? ==> forall x :: x in r.value ==> !x.isDir
    decreases t, 0
  {
    var c := t.children[i];
    if c.None? then None
    else if !c.value.isDir then Some([c.value])
    else ChildBelow(t, i); AllFiles(c.value)
  }

  /** What `GetAllFiles` collects is what `GetFileCount(true)` counts. */
  lemma {:induction false} AllFilesCounted(t: Tile)
    requires t.isDir && AllFiles(t).Some?
    ensures |AllFiles(t).value| == FileCount(t, true)
    decreases t, 1
  {
    if t.listed {
      FilesUpToCounted(t, |t.children|);
    }
  }

  lemma {:induction false} FilesUpToCounted(t: Tile, n: nat)
    requires n <= |t.children| && FilesUpTo(t, n).Some?
    ensures |FilesUpTo(t, n).value| == FilesAmong(t, n, true)
    decreases t, 0, n
  {
    if n > 0 {
      FilesUpToCounted(t, n - 1);
      var c := t.children[n - 1];
      if c.value.isDir {
        ChildBelow(t, n - 1);
        AllFilesCounted(c.value);
      }
    }
  }

  /** `GetAllChildren(result)`: every child appended, each followed by its
      own descendants (pre-order), directory or not. A null child throws
      (`None`). */
  function Descendants(t: Tile): (r: Option<seq<Tile>>)
    decreases t
  {
    if !t.listed then Some([]) else DescendantsUpTo(t, |t.children|)
  }

  function DescendantsUpTo(t: Tile, n: nat): (r: Option<seq<Tile>>)
    requires n <= |t.children|
    decreases t, n
  {
    if n == 0 then Some([])
    else
      var front := DescendantsUpTo(t, n - 1);
      var more := SubtreeOf(t, n - 1);
      if front.None? || more.None? then None else Some(front.value + more.value)
  }

  function SubtreeOf(t: Tile, i: nat): (r: Option<seq<Tile>>)
    requires i < |t.children|
    ensures r.Some? ==> t.children[i].Some? && r.value != [] && r.value[0] == t.children[i].value
    decreases t, 0
  {
    var c := t.children[i];
    if c.None? then None
    else
      ChildBelow(t, i);
      var below := Descendants(c.value);
      if below.None? then None else Some([c.value] + below.value)
  }

  /** Once a null child has thrown, the rest of the walk does not matter. */
  lemma {:induction false} FilesStayMissing(t: Tile, i: nat, n: nat)
    requires i <= n <= |t.children| && FilesUpTo(t, i).None?
    ensures FilesUpTo(t, n).None?
    decreases n
  {
    if n > i {
      FilesStayMissing(t, i, n - 1);
    }
  }

  lemma {:induction false} DescendantsStayMissing(t: Tile, i: nat, n: nat)
    requires i <= n <= |t.children| && DescendantsUpTo(t, i).None?
    ensures DescendantsUpTo(t, n).None?
    decreases n
  {
    if n > i {
      DescendantsStayMissing(t, i, n - 1);
    }
  }

  /** The `foreach` of `GetAllFiles`, appending to `result`. */
  method GetAllFiles(t: Tile, result: seq<Tile>) returns (r: Option<seq<Tile>>)
    ensures r == if AllFiles(t).None? then None else Some(result + AllFiles(t).value)
    decreases t
  {
    if !t.listed {
      assert result + [] == result;
      return Some(result);
    }
    var children := t.children;
    var acc := result;
    for i := 0 to |children|
      invariant FilesUpTo(t, i).Some? && acc == result + FilesUpTo(t, i).value
    {
      var child := children[i];
      if child.None? {
        FilesStayMissing(t, i + 1, |children|);
        return None;
      }
      ChildBelow(t, i);
      if !child.value.isDir {
        acc := acc + [child.value];
      } else {
        var next := GetAllFiles(child.value, acc);
        if next.None? {
          FilesStayMissing(t, i + 1, |children|);
          return None;
        }
        acc := next.value;
      }
    }
    return Some(acc);
  }

  /** The `foreach` of `GetAllChildren`, appending to `result`. */
  method GetAllChildren(t: Tile, result: seq<Tile>) returns (r: Option<seq<Tile>>)
    ensures r == if Descendants(t).None? then None else Some(result + Descendants(t).value)
    decreases t
  {
    if !t.listed {
      assert result + [] == result;
      return Some(result);
    }
    var children := t.children;
    var acc := result;
    for i := 0 to |children|
      invariant DescendantsUpTo(t, i).Some? && acc == result + DescendantsUpTo(t, i).value
    {
      var child := children[i];
      if child.None? {
        DescendantsStayMissing(t, i + 1, |children|);
        return None;
      }
      ChildBelow(t, i);
      acc := acc + [child.value];
      var next := GetAllChildren(child.value, acc);
      if next.None? {
        DescendantsStayMissing(t, i + 1, |children|);
        return None;
      }
      acc := next.value;
    }
    return Some(acc);
  }

  // ---------------------------------------------------------------------------
  // The field-cache pools

  /** A `TransformCache`; what its `Update(transform)` records is not part of
      this model. */
  class TransformCache {
    constructor ()
    {
    }
  }

  /** A `GUIView`, reduced to its parent and its three pools, each a list and
      the index of the next entry to hand out. */
  class GuiView {
    var parent: GuiView?
    var fieldCaches: seq<FloatFieldCache>
    var fieldCacheIndex: nat
    var intFieldCaches: seq<IntFieldCache>
    var intFieldCacheIndex: nat
    var transformCaches: seq<TransformCache>
    var transformCacheIndex: nat

    /** No index runs past its list: each grows by one entry exactly when the
        index reaches the end. */
    predicate PoolsValid()
      reads this
    {
      fieldCacheIndex <= |fieldCaches|
      && intFieldCacheIndex <= |intFieldCaches|
      && transformCacheIndex <= |transformCaches|
    }

    constructor ()
      ensures parent == null && PoolsValid()
      ensures fieldCaches == [] && intFieldCaches == [] && transformCaches == []
      ensures fieldCacheIndex == 0 && intFieldCacheIndex == 0 && transformCacheIndex == 0
    {
      parent := null;
      fieldCaches, intFieldCaches, transformCaches := [], [], [];
      fieldCacheIndex, intFieldCacheIndex, transformCacheIndex := 0, 0, 0;
    }

    /** `ResetLayout()`: every pool rewound, so the next frame is handed the
        same caches in the same order. */
    method ResetLayout()
      requires PoolsValid()
      modifies this
      ensures PoolsValid()
      ensures fieldCacheIndex == 0 && intFieldCacheIndex == 0 && transformCacheIndex == 0
      ensures fieldCaches == old(fieldCaches) && intFieldCaches == old(intFieldCaches)
      ensures transformCaches == old(transformCaches) && parent == old(parent)
    {
      fieldCacheIndex := 0;
      intFieldCacheIndex := 0;
      transformCacheIndex := 0;
    }

    /** `GetFieldCache(label, fieldType)`. A view with a parent asks the parent,
        so the pool used is the one of the top view of `above`, the chain of
        ancestors. There the next cache is handed out (a new one when the pool
        is used up), labelled, and given the field type through its setter. */
    method GetFieldCache(name: string, fieldType: FloatFieldType, ghost above: seq<GuiView>) returns (cache: FloatFieldCache)
      requires Chain(this, above) && Top(this, above).PoolsValid()
      modifies Top(this, above), Top(this, above).fieldCaches
      ensures Top(this, above).PoolsValid()
      ensures var top := Top(this, above);
              top.fieldCacheIndex == old(top.fieldCacheIndex) + 1
              && old(top.fieldCacheIndex) < |top.fieldCaches|
              && cache == top.fieldCaches[old(top.fieldCacheIndex)]
              && old(|top.fieldCaches|) <= |top.fieldCaches| && top.fieldCaches[..old(|top.fieldCaches|)] == old(top.fieldCaches)
              && (old(top.fieldCacheIndex) < old(|top.fieldCaches|) ==> top.fieldCaches == old(top.fieldCaches))
              && (old(top.fieldCacheIndex) == old(|top.fieldCaches|) ==> fresh(cache) && |top.fieldCaches| == old(|top.fieldCaches|) + 1)
      ensures cache.caption == Some(name) && cache.fieldType == fieldType
      ensures fresh(cache) ==> cache.value.None? && cache.text == ""
      ensures !fresh(cache) && old(cache.fieldType) != fieldType ==> cache.value.None? && cache.text == ""
      ensures !fresh(cache) && old(cache.fieldType) == fieldType ==> cache.value == old(cache.value) && cache.text == old(cache.text)
      ensures var top := Top(this, above);
              top.intFieldCaches == old(top.intFieldCaches) && top.intFieldCacheIndex == old(top.intFieldCacheIndex)
              && top.transformCaches == old(top.transformCaches) && top.transformCacheIndex == old(top.transformCacheIndex)
              && top.parent == old(top.parent)
      ensures var top := Top(this, above);
              forall c :: c in old(top.fieldCaches) && c != cache ==> unchanged(c)
      decreases |above|
    {
      if parent != null {
        ChainUp(this, above);
        cache := parent.GetFieldCache(name, fieldType, above[1..]);
        return;
      }
      if fieldCacheIndex >= |fieldCaches| {
        cache := new FloatFieldCache();
        fieldCaches := fieldCaches + [cache];
      }
      cache := fieldCaches[fieldCacheIndex];
      fieldCacheIndex := fieldCacheIndex + 1;
      cache.caption := Some(name);
      cache.SetFieldType(fieldType);
    }

    /** `GetIntFieldCache(label)`: the same discipline on the int pool. */
    method GetIntFieldCache(name: string, ghost above: seq<GuiView>) returns (cache: IntFieldCache)
      requires Chain(this, above) && Top(this, above).PoolsValid()
      modifies Top(this, above), Top(this, above).intFieldCaches
      ensures Top(this, above).PoolsValid()
      ensures var top := Top(this, above);
              top.intFieldCacheIndex == old(top.intFieldCacheIndex) + 1
              && old(top.intFieldCacheIndex) < |top.intFieldCaches|
              && cache == top.intFieldCaches[old(top.intFieldCacheIndex)]
              && old(|top.intFieldCaches|) <= |top.intFieldCaches| && top.intFieldCaches[..old(|top.intFieldCaches|)] == old(top.intFieldCaches)
              && (old(top.intFieldCacheIndex) < old(|top.intFieldCaches|) ==> top.intFieldCaches == old(top.intFieldCaches))
              && (old(top.intFieldCacheIndex) == old(|top.intFieldCaches|) ==> fresh(cache) && |top.intFieldCaches| == old(|top.intFieldCaches|) + 1)
      ensures cache.caption == Some(name)
      ensures fresh(cache) ==> cache.value == 0 && cache.text == ""
      ensures !fresh(cache) ==> cache.value == old(cache.value) && cache.text == old(cache.text)
      ensures var top := Top(this, above);
              top.fieldCaches == old(top.fieldCaches) && top.fieldCacheIndex == old(top.fieldCacheIndex)
              && top.transformCaches == old(top.transformCaches) && top.transformCacheIndex == old(top.transformCacheIndex)
              && top.parent == old(top.parent)
      ensures var top := Top(this, above);
              forall c :: c in old(top.intFieldCaches) && c != cache ==> unchanged(c)
      decreases |above|
    {
      if parent != null {
        ChainUp(this, above);
        cache := parent.GetIntFieldCache(name, above[1..]);
        return;
      }
      if intFieldCacheIndex >= |intFieldCaches| {
        cache := new IntFieldCache();
        intFieldCaches := intFieldCaches + [cache];
      }
      cache := intFieldCaches[intFieldCacheIndex];
      intFieldCacheIndex := intFieldCacheIndex + 1;
      cache.caption := Some(name);
    }

    /** `GetTransformCache(transform)`: the next transform cache, or a new one
        added to the pool; the index moves on either way. */
    method GetTransformCache(ghost above: seq<GuiView>) returns (cache: TransformCache)
      requires Chain(this, above) && Top(this, above).PoolsValid()
      modifies Top(this, above)
      ensures Top(this, above).PoolsValid()
      ensures var top := Top(this, above);
              top.transformCacheIndex == old(top.transformCacheIndex) + 1
              && cache == top.transformCaches[old(top.transformCacheIndex)]
              && (old(top.transformCacheIndex) < old(|top.transformCaches|) ==> top.transformCaches == old(top.transformCaches))
              && (old(top.transformCacheIndex) == old(|top.transformCaches|) ==>
                    fresh(cache) && top.transformCaches == old(top.transformCaches) + [cache])
      ensures var top := Top(this, above);
              top.fieldCaches == old(top.fieldCaches) && top.fieldCacheIndex == old(top.fieldCacheIndex)
              && top.intFieldCaches == old(top.intFieldCaches) && top.intFieldCacheIndex == old(top.intFieldCacheIndex)
              && top.parent == old(top.parent)
      decreases |above|
    {
      if parent != null {
        ChainUp(this, above);
        cache := parent.GetTransformCache(above[1..]);
        return;
      }
      if transformCacheIndex < |transformCaches| {
        cache := transformCaches[transformCacheIndex];
        transformCacheIndex := transformCacheIndex + 1;
        return;
      }
      cache := new TransformCache();
      transformCaches := transformCaches + [cache];
      transformCacheIndex := transformCacheIndex + 1;
    }
  }

  /** `above` lists the ancestors of `v`, nearest first, up to a view without
      a parent. */
  ghost predicate Chain(v: GuiView, above: seq<GuiView>)
    reads v, above
  {
    (above == [] ==> v.parent == null)
    && (above != [] ==> v.parent == above[0] && above[|above| - 1].parent == null)
    && forall i :: 0 <= i < |above| - 1 ==> above[i].parent == above[i + 1]
  }

  /** The view whose pools serve `v`. */
  function Top(v: GuiView, above: seq<GuiView>): GuiView {
    if above == [] then v else above[|above| - 1]
  }

  lemma ChainUp(v: GuiView, above: seq<GuiView>)
    requires Chain(v, above) && v.parent != null
    ensures above != [] && Chain(above[0], above[1..]) && Top(above[0], above[1..]) == Top(v, above)
  {
  }
}
