/** The `System.IO.Path` operations the loaders use, with the Windows rules: `\`
    is the directory separator, `/` the alternative one and `:` the volume
    separator. A call that throws is `Threw`; a null result is `None`. */
module WinPaths {
  import opened Wrappers

  const DirectorySeparator: char := '\\'

  /** A character `GetFileName` and `GetDirectoryName` split at. */
  predicate IsSeparator(c: char) {
    c == '\\' || c == '/' || c == ':'
  }

  /** `Path.InvalidPathChars`: the double quote, `<`, `>`, `|` and the control
      characters below 32. */
  predicate InvalidPathChar(c: char) {
    c == '"' || c == '<' || c == '>' || c == '|' || c < ' '
  }

  predicate ValidPath(path: string) {
    forall i :: 0 <= i < |path| ==> !InvalidPathChar(path[i])
  }

  predicate HasSeparator(path: string) {
    exists i :: 0 <= i < |path| && IsSeparator(path[i])
  }

  /** The index just past the last separator, 0 when there is none. */
  function AfterLastSeparator(path: string): (k: nat)
    ensures k <= |path|
    ensures k > 0 ==> IsSeparator(path[k - 1])
    ensures forall i :: k <= i < |path| ==> !IsSeparator(path[i])
  {
    if path == [] then 0
    else if IsSeparator(path[|path| - 1]) then |path|
    else AfterLastSeparator(path[..|path| - 1])
  }

  /** `Path.GetFileName`: what follows the last separator. */
  function GetFileName(path: string): (r: Outcome<string>)
    ensures r.Returned? <==> ValidPath(path)
    ensures r.Returned? ==> !HasSeparator(r.value) && |r.value| <= |path|
    ensures r.Returned? ==> path == path[..|path| - |r.value|] + r.value
    ensures r.Returned? && |r.value| < |path| ==> IsSeparator(path[|path| - |r.value| - 1])
  {
    if !ValidPath(path) then Threw
    else
      var k := AfterLastSeparator(path);
      assert path == path[..k] + path[k..];
      Returned(path[k..])
  }

  /** The index of the last `.`, if any. */
  function LastDot(name: string): (r: Option<nat>)
    ensures r.Some? ==> r.value < |name| && name[r.value] == '.'
    ensures r.Some? ==> forall i :: r.value < i < |name| ==> name[i] != '.'
    ensures r.None? ==> forall i :: 0 <= i < |name| ==> name[i] != '.'
  {
    if name == [] then None
    else if name[|name| - 1] == '.' then Some(|name| - 1)
    else LastDot(name[..|name| - 1])
  }

  /** `Path.GetFileNameWithoutExtension`: the file name up to its last `.`. */
  function GetFileNameWithoutExtension(path: string): (r: Outcome<string>)
    ensures r.Returned? <==> ValidPath(path)
    ensures r.Returned? ==> !HasSeparator(r.value)
  {
    var name :- GetFileName(path);
    match LastDot(name)
    case None => Returned(name)
    case Some(i) =>
      NoSeparatorInPrefix(name, i);
      Returned(name[..i])
  }

  lemma NoSeparatorInPrefix(name: string, i: nat)
    requires i <= |name| && !HasSeparator(name)
    ensures !HasSeparator(name[..i])
  {
    forall j | 0 <= j < i ensures !IsSeparator(name[..i][j]) {
      assert name[..i][j] == name[j];
    }
  }

  predicate WhitespaceOnly(path: string) {
    forall i :: 0 <= i < |path| ==> path[i] == ' ' || path[i] == '\t' || path[i] == '\n' || path[i] == '\r'
  }

  /** `Path.GetDirectoryName`: the part before the last separator (the leading
      separator itself when that is the only one), `""` when there is no
      separator, null for a lone separator; an empty, blank or invalid path
      throws. */
  function GetDirectoryName(path: string): (r: Outcome<Option<string>>)
    ensures r.Returned? <==> path != [] && !WhitespaceOnly(path) && ValidPath(path)
    ensures r.Returned? && r.value.Some? ==> |r.value.value| < |path| && r.value.value == path[..|r.value.value|]
    ensures r.Returned? && r.value.Some? ==> (r.value.value == [] <==> !HasSeparator(path))
  {
    if path == [] || WhitespaceOnly(path) || !ValidPath(path) then Threw
    else if |path| == 1 && IsSeparator(path[0]) then Returned(None)
    else
      var k := AfterLastSeparator(path);
      if k == 0 then Returned(Some([]))
      else
        var cut := if k == 1 then 1 else k - 1;
        Returned(Some(path[..cut]))
  }

  /** `Path.IsPathRooted`. */
  predicate IsPathRooted(path: string) {
    |path| > 0 && (path[0] == '\\' || path[0] == '/' || (|path| > 1 && path[1] == ':'))
  }

  /** `Path.Combine(path1, path2)`: null arguments and invalid characters throw;
      an empty side gives the other; a rooted `path2` wins; otherwise the two are
      joined by `\` unless `path1` already ends in a separator. */
  function Combine(path1: Option<string>, path2: string): (r: Outcome<string>)
    ensures r.Returned? <==> path1.Some? && (path1.value == [] || path2 == [] || (ValidPath(path1.value) && ValidPath(path2)))
    ensures r.Returned? && path1.value != [] && path2 != [] && !IsPathRooted(path2) ==>
              r.value == path1.value + (if IsSeparator(path1.value[|path1.value| - 1]) then [] else [DirectorySeparator]) + path2
  {
    match path1
    case None => Threw
    case Some(p1) =>
      if p1 == [] then Returned(path2)
      else if path2 == [] then Returned(p1)
      else if !ValidPath(p1) || !ValidPath(path2) then Threw
      else if IsPathRooted(path2) then Returned(path2)
      else if IsSeparator(p1[|p1| - 1]) then Returned(p1 + path2)
      else Returned(p1 + [DirectorySeparator] + path2)
  }

  lemma {:induction false} AfterLastSeparatorOf(prefix: string, name: string)
    requires prefix != [] && IsSeparator(prefix[|prefix| - 1]) && !HasSeparator(name)
    ensures AfterLastSeparator(prefix + name) == |prefix|
    decreases |name|
  {
    if name == [] {
      assert prefix + name == prefix;
    } else {
      var init := name[..|name| - 1];
      assert (prefix + name)[..|prefix + name| - 1] == prefix + init;
      assert !IsSeparator((prefix + name)[|prefix + name| - 1]);
      assert !HasSeparator(init) by {
        forall i | 0 <= i < |init| ensures !IsSeparator(init[i]) {
          assert init[i] == name[i];
        }
      }
      AfterLastSeparatorOf(prefix, init);
    }
  }

  /** Splitting a path at its last separator and joining the pieces again gives
      the path back, when that separator is `\` and is not doubled. */
  lemma SplitThenCombine(dir: string, name: string)
    requires dir != [] && !IsSeparator(dir[|dir| - 1]) && name != [] && !HasSeparator(name)
    requires ValidPath(dir) && ValidPath(name)
    ensures var path := dir + [DirectorySeparator] + name;
            GetDirectoryName(path) == Returned(Some(dir))
            && GetFileName(path) == Returned(name)
            && Combine(Some(dir), name) == Returned(path)
  {
    var prefix := dir + [DirectorySeparator];
    var path := prefix + name;
    AfterLastSeparatorOf(prefix, name);
    assert path[..|dir|] == dir && path[|prefix|..] == name;
    assert !WhitespaceOnly(path) by {
      assert path[|dir|] == '\\';
    }
    assert ValidPath(path) by {
      forall i | 0 <= i < |path| ensures !InvalidPathChar(path[i]) {
        if i < |dir| {
          assert path[i] == dir[i];
        } else if i > |dir| {
          assert path[i] == name[i - |prefix|];
        }
      }
    }
  }
}
