/** `FixMenu` and `FixMenuPath`: what both menu decoders do to a freshly read
    menu before handing it out. */
module MenuFixup {
  import opened Wrappers
  import opened Text
  import opened WinPaths
  import opened MenuInfos

  // ---------------------------------------------------------------------------
  // The variation pattern `_z\d{1,4}`

  /** The number of leading digits of `s`, at most `limit`. */
  function DigitRun(s: string, limit: nat): (n: nat)
    ensures n <= limit && n <= |s|
    ensures forall i :: 0 <= i < n ==> IsDigit(s[i])
    ensures n < limit && n < |s| ==> !IsDigit(s[n])
  {
    if limit == 0 || s == [] || !IsDigit(s[0]) then 0 else 1 + DigitRun(s[1..], limit - 1)
  }

  /** The length of the match of `_z\d{1,4}` at the start of `s`; 0 when there is
      none. The digit run is greedy. */
  function VariationAt(s: string): (n: nat)
    ensures n == 0 || 3 <= n <= 6
    ensures n <= |s|
    ensures n > 0 <==> |s| >= 3 && s[0] == '_' && s[1] == 'z' && IsDigit(s[2])
  {
    if |s| >= 3 && s[0] == '_' && s[1] == 'z' && IsDigit(s[2]) then 2 + DigitRun(s[2..], 4) else 0
  }

  /** `_variationRegex.IsMatch(s)`. */
  predicate IsVariation(s: string) {
    exists i :: 0 <= i < |s| && VariationAt(s[i..]) > 0
  }

  /** `_variationRegex.Replace(s, "")`: the matches found left to right, each
      resuming after the previous one, are removed. */
  function StripVariation(s: string): (r: string)
    ensures |r| <= |s|
    decreases |s|
  {
    if s == [] then []
    else
      var n := VariationAt(s);
      if n > 0 then StripVariation(s[n..]) else [s[0]] + StripVariation(s[1..])
  }

  /** Removing the matches changes the name exactly when there is a match, and
      then shortens it. */
  lemma {:induction false} StripVariationChanges(s: string)
    ensures !IsVariation(s) ==> StripVariation(s) == s
    ensures IsVariation(s) ==> |StripVariation(s)| < |s|
    decreases |s|
  {
    if s != [] {
      var n := VariationAt(s);
      if n > 0 {
        assert s[0..] == s;
        StripVariationChanges(s[n..]);
      } else {
        VariationInTail(s);
        StripVariationChanges(s[1..]);
        assert s == [s[0]] + s[1..];
      }
    }
  }

  /** With no match at the start, a match is one in the tail. */
  lemma VariationInTail(s: string)
    requires s != [] && VariationAt(s) == 0
    ensures IsVariation(s) <==> IsVariation(s[1..])
  {
    if IsVariation(s[1..]) {
      var i :| 0 <= i < |s[1..]| && VariationAt(s[1..][i..]) > 0;
      assert s[1..][i..] == s[i + 1..];
    }
    if IsVariation(s) {
      var i :| 0 <= i < |s| && VariationAt(s[i..]) > 0;
      assert i != 0 by {
        assert s[0..] == s;
      }
      assert s[1..][i - 1..] == s[i..];
    }
  }

  /** The name of the menu a variation belongs to: the matches removed, then
      `_i.` written as `_i_.`. */
  function VariationBase(fileName: string): string {
    Replace(StripVariation(fileName), "_i.", "_i_.")
  }

  /** The file names of menus hidden by name. */
  predicate HasHiddenMarker(fileName: string) {
    Contains(fileName, "_zurashi") || Contains(fileName, "_mekure")
    || Contains(fileName, "_porori") || Contains(fileName, "_back")
  }

  // ---------------------------------------------------------------------------
  // FixMenuPath

  /** The folder prefixes dropped from a menu's path, then `/` turned into the
      directory separator. */
  function RewriteMenuPath(menuPath: string): (r: string)
    ensures forall i :: 0 <= i < |r| ==> r[i] != '/'
  {
    var stripped := Replace(Replace(Replace(Replace(menuPath, "assets/", []), "menu/", []), "parts/", []), "dress/", []);
    ReplaceChar(stripped, '/', DirectorySeparator)
  }

  /** The guarded part of `FixMenuPath`: the directory of the rewritten path
      joined with the file name. */
  function JoinMenuDirectory(menuPath: string, menuFileName: string): Outcome<string> {
    var dir :- GetDirectoryName(RewriteMenuPath(menuPath));
    Combine(dir, menuFileName)
  }

  /** `FixMenuPath(menuPath, menuFileName)`. A missing path, or one whose rewrite
      throws, counts as `""`; a result without a separator is replaced by
      `menu\<file name>`, and that last `Path.Combine` is not guarded. */
  function FixMenuPath(menuPath: Option<string>, menuFileName: string): (r: Outcome<string>)
    ensures ValidPath(menuFileName) ==> r.Returned?
    ensures r.Returned? && menuFileName != [] && !IsPathRooted(menuFileName) ==> ContainsChar(r.value, DirectorySeparator)
    ensures menuPath.None? || menuPath == Some([]) ==> r == Combine(Some("menu"), menuFileName)
  {
    var tried :=
      if menuPath.None? || menuPath.value == [] then []
      else match JoinMenuDirectory(menuPath.value, menuFileName)
        case Threw => []
        case Returned(joined) => joined;
    if ContainsChar(tried, DirectorySeparator) then Returned(tried)
    else
      assert ValidPath("menu");
      var r := Combine(Some("menu"), menuFileName);
      assert r.Returned? && menuFileName != [] && !IsPathRooted(menuFileName) ==> r.value[4] == DirectorySeparator;
      r
  }

  lemma FixMenuPathJoined(menuPath: string, menuFileName: string, joined: string)
    requires menuPath != [] && JoinMenuDirectory(menuPath, menuFileName) == Returned(joined)
    requires ContainsChar(joined, DirectorySeparator)
    ensures FixMenuPath(Some(menuPath), menuFileName) == Returned(joined)
  {
  }

  /** A path whose rewrite is `dir\name` keeps its directory and takes the
      menu's own file name. */
  lemma FixMenuPathKeepsDirectory(menuPath: string, dir: string, name: string, menuFileName: string)
    requires dir != [] && !IsSeparator(dir[|dir| - 1]) && ValidPath(dir)
    requires name != [] && !HasSeparator(name) && ValidPath(name)
    requires RewriteMenuPath(menuPath) == dir + [DirectorySeparator] + name
    requires menuFileName != [] && ValidPath(menuFileName) && !IsPathRooted(menuFileName)
    ensures FixMenuPath(Some(menuPath), menuFileName) == Returned(dir + [DirectorySeparator] + menuFileName)
  {
    var joined := dir + [DirectorySeparator] + menuFileName;
    assert GetDirectoryName(RewriteMenuPath(menuPath)) == Returned(Some(dir)) by {
      SplitThenCombine(dir, name);
    }
    assert Combine(Some(dir), menuFileName) == Returned(joined);
    assert JoinMenuDirectory(menuPath, menuFileName) == Returned(joined);
    assert joined[|dir|] == DirectorySeparator;
    assert menuPath != [] by {
      assert |RewriteMenuPath(menuPath)| > 0;
    }
    FixMenuPathJoined(menuPath, menuFileName, joined);
  }

  // ---------------------------------------------------------------------------
  // FixMenu

  /** The description's line-break marker. */
  const LineBreakMarker: string := "《改行》"

  /** An empty name becomes the file name without its extension. */
  function FixName(name: Option<string>, menuFileName: string): (r: Outcome<Option<string>>)
    ensures name.Some? && name.value != [] ==> r == Returned(name)
    ensures (name.None? || name.value == []) ==>
              (r.Returned? <==> ValidPath(menuFileName))
              && (r.Returned? ==> r.value.Some? && GetFileNameWithoutExtension(menuFileName) == Returned(r.value.value))
  {
    if name.Some? && name.value != [] then Returned(name)
    else
      var n :- GetFileNameWithoutExtension(menuFileName);
      Returned(Some(n))
  }

  /** A non-empty description has its line-break markers turned into `\n`. */
  function FixSetumei(setumei: Option<string>): (r: Option<string>)
    ensures setumei.None? || setumei == Some([]) ==> r == setumei
    ensures setumei.Some? && setumei.value != [] ==>
              r.Some? && (|r.value| < |setumei.value| <==> Contains(setumei.value, LineBreakMarker))
  {
    if setumei.Some? && setumei.value != [] then
      ReplaceShrinks(setumei.value, LineBreakMarker, "\n");
      Some(Replace(setumei.value, LineBreakMarker, "\n"))
    else setumei
  }

  /** The pieces, with `sep` between each two. */
  function Joined(pieces: seq<string>, sep: string): string
    decreases |pieces|
  {
    if |pieces| == 0 then []
    else if |pieces| == 1 then pieces[0]
    else pieces[0] + sep + Joined(pieces[1..], sep)
  }

  /** A description made of marker-free pieces with the line-break marker
      between them comes out as the same pieces with `\n` between them: every
      marker becomes one line break and nothing else changes. */
  lemma FixSetumeiLineBreaks(pieces: seq<string>)
    requires forall i :: 0 <= i < |pieces| ==> Avoids(pieces[i], LineBreakMarker[0])
    ensures FixSetumei(Some(Joined(pieces, LineBreakMarker))) == Some(Joined(pieces, "\n"))
  {
    ReplaceJoined(pieces, LineBreakMarker, "\n");
  }

  /** The variation's base name when the file name is a variation; otherwise
      what was there. */
  function FixVariation(fileName: string, variation: Option<string>): (r: Option<string>)
    ensures IsVariation(fileName) ==> r == Some(VariationBase(fileName))
    ensures !IsVariation(fileName) ==> r == variation
  {
    if IsVariation(fileName) then Some(VariationBase(fileName)) else variation
  }

  /** The hiding rule, applied after the variation is known. */
  predicate HiddenBy(fileName: string, mpn: MPN, variation: Option<string>, isEditable: MPN -> bool) {
    !isEditable(mpn) || (variation.Some? && variation.value != []) || HasHiddenMarker(fileName)
  }

  /** `FixMenu(menu, menuFileName)`, with `MPNUtils.IsEditableMPN` as
      `isEditable`. A throw (an invalid file name, a null `fileName`) makes the
      caller return null. Only the name, path, description, variation and
      hidden flag change, and the flag is only ever set. */
  function FixMenu(m: MenuInfo, menuFileName: string, isEditable: MPN -> bool): (r: Outcome<MenuInfo>)
    ensures m.fileName.Some? && ValidPath(menuFileName) ==> r.Returned?
    ensures m.fileName.None? ==> r.Threw?
    ensures r.Returned? ==>
              r.value.(name := m.name, path := m.path, setumei := m.setumei,
                       variationBaseFileName := m.variationBaseFileName, isHidden := m.isHidden) == m
    ensures r.Returned? ==> FixName(m.name, menuFileName) == Returned(r.value.name)
    ensures r.Returned? ==> r.value.path.Some? && FixMenuPath(m.path, menuFileName) == Returned(r.value.path.value)
    ensures r.Returned? ==> r.value.setumei == FixSetumei(m.setumei)
    ensures r.Returned? ==> r.value.variationBaseFileName == FixVariation(m.fileName.value, m.variationBaseFileName)
    ensures r.Returned? ==>
              (r.value.isHidden <==>
                 m.isHidden || HiddenBy(m.fileName.value, m.mpn, r.value.variationBaseFileName, isEditable))
  {
    var name :- FixName(m.name, menuFileName);
    var path :- FixMenuPath(m.path, menuFileName);
    if m.fileName.None? then Threw
    else
      var variation := FixVariation(m.fileName.value, m.variationBaseFileName);
      var hidden := HiddenBy(m.fileName.value, m.mpn, variation, isEditable);
      Returned(m.(name := name, path := Some(path), setumei := FixSetumei(m.setumei),
                  variationBaseFileName := variation, isHidden := m.isHidden || hidden))
  }

  /** Fixing never shows a hidden menu, and a second fix keeps the flag. */
  lemma FixMenuHiddenSticks(m: MenuInfo, menuFileName: string, isEditable: MPN -> bool)
    requires FixMenu(m, menuFileName, isEditable).Returned?
    ensures m.isHidden ==> FixMenu(m, menuFileName, isEditable).value.isHidden
    ensures var once := FixMenu(m, menuFileName, isEditable).value;
            FixMenu(once, menuFileName, isEditable).Returned? ==> FixMenu(once, menuFileName, isEditable).value.isHidden == once.isHidden
  {
    var once := FixMenu(m, menuFileName, isEditable).value;
    if FixMenu(once, menuFileName, isEditable).Returned? {
      assert once.fileName == m.fileName && once.mpn == m.mpn;
    }
  }

  lemma StripStep(s: string)
    requires s != [] && s[0] != '_'
    ensures StripVariation(s) == [s[0]] + StripVariation(s[1..])
  {
  }

  /** `s` has no `c`. */
  predicate Avoids(s: string, c: char) {
    forall i :: 0 <= i < |s| ==> s[i] != c
  }

  lemma AvoidsTail(s: string, c: char)
    requires s != [] && Avoids(s, c)
    ensures s[0] != c && Avoids(s[1..], c)
  {
    forall i | 0 <= i < |s| - 1 ensures s[1..][i] != c {
      assert s[1..][i] == s[i + 1];
    }
  }

  /** A stretch without `_` passes through unchanged. */
  lemma {:induction false} StripAfterPlain(a: string, b: string)
    requires Avoids(a, '_')
    ensures StripVariation(a + b) == a + StripVariation(b)
    decreases |a|
  {
    if a == [] {
      assert a + b == b;
    } else {
      var s := a + b;
      var tail := a[1..];
      AvoidsTail(a, '_');
      assert s[0] == a[0] && s[1..] == tail + b;
      StripStep(s);
      StripAfterPlain(tail, b);
      Regroup(a[0], tail, StripVariation(b));
      assert a == [a[0]] + tail;
    }
  }

  lemma Regroup(c: char, a: string, b: string)
    ensures [c] + (a + b) == ([c] + a) + b
  {
  }

  lemma StripMatchStep(s: string)
    requires VariationAt(s) > 0
    ensures StripVariation(s) == StripVariation(s[VariationAt(s)..])
  {
  }

  lemma ReplaceStep(s: string, pat: string, rep: string)
    requires pat != [] && s != [] && s[0] != pat[0]
    ensures Replace(s, pat, rep) == [s[0]] + Replace(s[1..], pat, rep)
  {
    if |s| >= |pat| {
      assert s[..|pat|][0] == s[0];
    }
  }

  lemma ReplaceMatchStep(s: string, pat: string, rep: string)
    requires pat != [] && |s| >= |pat| && s[..|pat|] == pat
    ensures Replace(s, pat, rep) == rep + Replace(s[|pat|..], pat, rep)
  {
  }

  lemma {:induction false} ReplaceAfterPlain(a: string, b: string, pat: string, rep: string)
    requires pat != [] && Avoids(a, pat[0])
    ensures Replace(a + b, pat, rep) == a + Replace(b, pat, rep)
    decreases |a|
  {
    if a == [] {
      assert a + b == b;
    } else {
      var s := a + b;
      var tail := a[1..];
      AvoidsTail(a, pat[0]);
      assert s[0] == a[0] && s[1..] == tail + b;
      ReplaceStep(s, pat, rep);
      ReplaceAfterPlain(tail, b, pat, rep);
      Regroup(a[0], tail, Replace(b, pat, rep));
      assert a == [a[0]] + tail;
    }
  }

  lemma {:induction false} ReplaceJoined(pieces: seq<string>, pat: string, rep: string)
    requires pat != [] && forall i :: 0 <= i < |pieces| ==> Avoids(pieces[i], pat[0])
    ensures Replace(Joined(pieces, pat), pat, rep) == Joined(pieces, rep)
    decreases |pieces|
  {
    if |pieces| == 0 {
    } else if |pieces| == 1 {
      ReplacePlain(pieces[0], pat, rep);
    } else {
      var head := pieces[0];
      var rest := Joined(pieces[1..], pat);
      assert Joined(pieces, pat) == head + (pat + rest);
      ReplaceAfterPlain(head, pat + rest, pat, rep);
      assert (pat + rest)[..|pat|] == pat;
      ReplaceMatchStep(pat + rest, pat, rep);
      assert (pat + rest)[|pat|..] == rest;
      ReplaceJoined(pieces[1..], pat, rep);
      assert Joined(pieces, rep) == head + (rep + Joined(pieces[1..], rep));
    }
  }

  lemma StripNoMatchStep(s: string)
    requires s != [] && VariationAt(s) == 0
    ensures StripVariation(s) == [s[0]] + StripVariation(s[1..])
  {
  }

  lemma {:induction false} DigitRunOf(digits: string, t: string, limit: nat)
    requires |digits| <= limit && forall i :: 0 <= i < |digits| ==> IsDigit(digits[i])
    requires t != [] && !IsDigit(t[0])
    ensures DigitRun(digits + t, limit) == |digits|
    decreases |digits|
  {
    var s := digits + t;
    if digits == [] {
      assert s[0] == t[0];
    } else {
      assert s[0] == digits[0] && s[1..] == digits[1..] + t;
      DigitRunOf(digits[1..], t, limit - 1);
    }
  }

  lemma StripPlain(a: string)
    requires Avoids(a, '_')
    ensures StripVariation(a) == a
  {
    StripAfterPlain(a, []);
    assert a + [] == a;
  }

  lemma ReplacePlain(a: string, pat: string, rep: string)
    requires pat != [] && Avoids(a, pat[0])
    ensures Replace(a, pat, rep) == a
  {
    ReplaceAfterPlain(a, [], pat, rep);
    assert a + [] == a;
  }

  /** `_i.` and a name without `_` holds no match. */
  lemma StripMarkerTail(tail: string, rest: string)
    requires Avoids(rest, '_') && tail == "_i." + rest
    ensures StripVariation(tail) == tail
  {
    assert VariationAt(tail) == 0;
    StripNoMatchStep(tail);
    var plain := tail[1..];
    assert Avoids(plain, '_') by {
      forall i | 0 <= i < |plain| ensures plain[i] != '_' {
        if i >= 2 {
          assert plain[i] == rest[i - 2];
        }
      }
    }
    StripPlain(plain);
    assert tail == [tail[0]] + plain;
  }

  lemma ReplaceMarkerTail(tail: string, rest: string)
    requires Avoids(rest, '_') && tail == "_i." + rest
    ensures Replace(tail, "_i.", "_i_.") == "_i_." + rest
  {
    ReplaceMatchStep(tail, "_i.", "_i_.");
    assert tail[3..] == rest;
    ReplacePlain(rest, "_i.", "_i_.");
  }

  /** `_z` and one to four digits, then something that is not a digit, is one
      match, removed whole. */
  lemma StripZ(zt: string, digits: string, tail: string)
    requires 1 <= |digits| <= 4 && forall i :: 0 <= i < |digits| ==> IsDigit(digits[i])
    requires tail != [] && !IsDigit(tail[0])
    requires zt == "_z" + (digits + tail)
    ensures VariationAt(zt) > 0
    ensures StripVariation(zt) == StripVariation(tail)
  {
    assert zt[2..] == digits + tail;
    DigitRunOf(digits, tail, 4);
    StripMatchStep(zt);
    assert zt[2 + |digits|..] == tail;
  }

  lemma StripSuffixed(s: string, head: string, digits: string, tail: string, rest: string)
    requires Avoids(head, '_') && Avoids(rest, '_')
    requires 1 <= |digits| <= 4 && forall i :: 0 <= i < |digits| ==> IsDigit(digits[i])
    requires tail == "_i." + rest && s == head + ("_z" + (digits + tail))
    ensures IsVariation(s) && StripVariation(s) == head + tail
  {
    var zt := "_z" + (digits + tail);
    StripZ(zt, digits, tail);
    assert s[|head|..] == zt;
    StripMarkerTail(tail, rest);
    StripAfterPlain(head, zt);
  }

  /** The shape of a variation's name, as in `costume_z12_i.menu`: a name,
      `_z` and one to four digits, then `_i.` and an extension. The variation
      belongs to `costume_i_.menu`. */
  lemma VariationBaseOfSuffixed(head: string, digits: string, rest: string)
    requires Avoids(head, '_') && Avoids(rest, '_')
    requires 1 <= |digits| <= 4 && forall i :: 0 <= i < |digits| ==> IsDigit(digits[i])
    ensures IsVariation(head + "_z" + digits + "_i." + rest)
    ensures VariationBase(head + "_z" + digits + "_i." + rest) == head + "_i_." + rest
  {
    var tail := "_i." + rest;
    var s := head + "_z" + digits + "_i." + rest;
    Reassociate(head, "_z", digits, "_i.", rest);
    StripSuffixed(s, head, digits, tail, rest);
    SuffixedBase(s, head, tail, rest);
  }

  lemma SuffixedBase(s: string, head: string, tail: string, rest: string)
    requires Avoids(head, '_') && Avoids(rest, '_') && tail == "_i." + rest
    requires StripVariation(s) == head + tail
    ensures VariationBase(s) == head + "_i_." + rest
  {
    ReplaceAfterPlain(head, tail, "_i.", "_i_.");
    ReplaceMarkerTail(tail, rest);
    assert head + ("_i_." + rest) == head + "_i_." + rest;
  }

  lemma Reassociate(a: string, b: string, c: string, d: string, e: string)
    ensures a + b + c + d + e == a + (b + (c + (d + e)))
  {
  }
}
