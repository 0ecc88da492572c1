/** `NaturalStringComparer.Compare`: two strings walked position by position,
    where runs of decimal digits found at the same step are compared as `int`
    values before their first characters are. */
module NaturalOrder {
  import opened Wrappers
  import opened Text

  /** `int.MaxValue`. */
  const Int32Max := 0x7FFF_FFFF

  predicate DigitFree(s: string) {
    forall k :: 0 <= k < |s| ==> !IsDigit(s[k])
  }

  /** Whether `t` cannot extend a run of digits that ends just before it. */
  predicate StopsRun(t: string) {
    t == [] || !IsDigit(t[0])
  }

  /** Where the run of digits of `s` starting at `i` ends: `i` itself when
      `s[i]` is not a digit. */
  function DigitRunEnd(s: string, i: nat): (e: nat)
    requires i <= |s|
    ensures i <= e <= |s|
    ensures e < |s| ==> !IsDigit(s[e])
    decreases |s| - i
  {
    if i < |s| && IsDigit(s[i]) then DigitRunEnd(s, i + 1) else i
  }

  lemma {:induction false} RunDigits(s: string, i: nat)
    requires i <= |s|
    ensures AllDigits(s[i..DigitRunEnd(s, i)])
    decreases |s| - i
  {
    if i < |s| && IsDigit(s[i]) {
      RunDigits(s, i + 1);
      var e := DigitRunEnd(s, i);
      assert s[i..e] == [s[i]] + s[i + 1..e];
    }
  }

  /** `int.TryParse` on a run of ASCII digits: it fails exactly when the value
      does not fit in an `int`. */
  function TryParseRun(d: string): (r: Option<int>)
    requires AllDigits(d)
    ensures r.Some? <==> DecimalValue(d) <= Int32Max
    ensures r.Some? ==> r.value == DecimalValue(d)
  {
    if DecimalValue(d) <= Int32Max then Some(DecimalValue(d)) else None
  }

  /** `int.CompareTo`: the sign of `a - b`. */
  function CompareInts(a: int, b: int): (r: int)
    ensures r == -1 || r == 0 || r == 1
    ensures r < 0 <==> a < b
    ensures r == 0 <==> a == b
  {
    if a < b then -1 else if a == b then 0 else 1
  }

  /** The comparison loop from markers `i` and `j`. A marker may stand one
      past the end after the increment that follows a digit run. */
  function CompareFrom(x: string, y: string, i: nat, j: nat): int
    requires i <= |x| + 1 && j <= |y| + 1
    decreases |x| + 1 - i
  {
    if i < |x| && j < |y| then
      var numeric := RunsCompare(x, y, i, j);
      if numeric != 0 then numeric
      else if x[i] != y[j] then x[i] as int - y[j] as int
      else CompareFrom(x, y, DigitRunEnd(x, i) + 1, DigitRunEnd(y, j) + 1)
    else |x| - |y|
  }

  /** The numeric part of one step: the digit runs at `i` and `j` compared as
      `int` values when both are non-empty and both parse, `0` otherwise. */
  function RunsCompare(x: string, y: string, i: nat, j: nat): int
    requires i <= |x| && j <= |y|
  {
    var e1 := DigitRunEnd(x, i);
    var e2 := DigitRunEnd(y, j);
    RunDigits(x, i); RunDigits(y, j);
    if e1 > i && e2 > j && TryParseRun(x[i..e1]).Some? && TryParseRun(y[j..e2]).Some?
    then CompareInts(TryParseRun(x[i..e1]).value, TryParseRun(y[j..e2]).value)
    else 0
  }

  /** `Compare(x, y)`, with `None` for a null string. */
  function Compare(x: Option<string>, y: Option<string>): (r: int)
    ensures x.None? ==> (r == 0 <==> y.None?)
    ensures x.None? && y.Some? ==> r == -1
    ensures x.Some? && y.None? ==> r == 1
  {
    if x.None? && y.None? then 0
    else if x.None? then -1
    else if y.None? then 1
    else CompareFrom(x.value, y.value, 0, 0)
  }

  /** The comparer's loop: the markers advance over digit runs collected into
      two builders, and then both step once more. */
  method NaturalCompare(x: Option<string>, y: Option<string>) returns (r: int)
    ensures r == Compare(x, y)
  {
    if x.None? && y.None? {
      return 0;
    }
    if x.None? {
      return -1;
    }
    if y.None? {
      return 1;
    }
    r := CompareWalk(x.value, y.value);
  }

  /** The loop of `Compare` over two non-null strings. */
  method CompareWalk(s1: string, s2: string) returns (r: int)
    ensures r == CompareFrom(s1, s2, 0, 0)
  {
    var len1, len2 := |s1|, |s2|;
    var marker1: nat, marker2: nat := 0, 0;
    while marker1 < len1 && marker2 < len2
      invariant marker1 <= len1 + 1 && marker2 <= len2 + 1
      invariant CompareFrom(s1, s2, marker1, marker2) == CompareFrom(s1, s2, 0, 0)
      decreases len1 + 1 - marker1
    {
      var ch1, ch2 := s1[marker1], s2[marker2];
      var space1, space2;
      ghost var start1, start2 := marker1, marker2;
      space1, marker1 := TakeDigits(s1, marker1);
      space2, marker2 := TakeDigits(s2, marker2);
      RunDigits(s1, start1); RunDigits(s2, start2);
      if |space1| > 0 && |space2| > 0 {
        var num1 := TryParseRun(space1);
        if num1.Some? {
          var num2 := TryParseRun(space2);
          if num2.Some? {
            var result := CompareInts(num1.value, num2.value);
            if result != 0 {
              return result;
            }
          }
        }
      }
      assert RunsCompare(s1, s2, start1, start2) == 0;
      if ch1 != ch2 {
        return ch1 as int - ch2 as int;
      }
      SameRunStep(s1, s2, start1, start2, marker1, marker2);
      marker1 := marker1 + 1;
      marker2 := marker2 + 1;
    }
    return len1 - len2;
  }

  /** One of the inner loops: the digits from `start` on, appended to an empty
      builder, and the marker left on the first character that is not one. */
  method TakeDigits(s: string, start: nat) returns (space: string, marker: nat)
    requires start <= |s|
    ensures marker == DigitRunEnd(s, start)
    ensures space == s[start..marker]
  {
    space, marker := "", start;
    while marker < |s| && IsDigit(s[marker])
      invariant start <= marker <= |s|
      invariant space == s[start..marker]
      invariant DigitRunEnd(s, start) == DigitRunEnd(s, marker)
    {
      space := space + [s[marker]];
      marker := marker + 1;
    }
  }

  // ---------------------------------------------------------------------------
  // Properties of the order

  /** Swapping the arguments negates the result exactly: every step of the
      loop (`int.CompareTo`, the character difference, `len1 - len2`) does. */
  lemma {:induction false} CompareFromSwap(x: string, y: string, i: nat, j: nat)
    requires i <= |x| + 1 && j <= |y| + 1
    ensures CompareFrom(y, x, j, i) == -CompareFrom(x, y, i, j)
    decreases |x| + 1 - i
  {
    if i < |x| && j < |y| {
      CompareFromSwap(x, y, DigitRunEnd(x, i) + 1, DigitRunEnd(y, j) + 1);
    }
  }

  lemma Antisymmetric(x: Option<string>, y: Option<string>)
    ensures Compare(y, x) == -Compare(x, y)
  {
    if x.Some? && y.Some? {
      CompareFromSwap(x.value, y.value, 0, 0);
    }
  }

  /** A run in `p` ends at the same place in `p + t` when `t` cannot extend it. */
  lemma {:induction false} RunEndPrefix(p: string, t: string, i: nat)
    requires i <= |p| && StopsRun(t)
    ensures DigitRunEnd(p + t, i) == DigitRunEnd(p, i)
    decreases |p| - i
  {
    if i < |p| && IsDigit(p[i]) {
      RunEndPrefix(p, t, i + 1);
    }
  }

  /** Equal digit runs (both empty, or the same digits) compare as equal. */
  lemma SameRunsCompareEqual(x: string, y: string, i: nat, j: nat)
    requires i <= |x| && j <= |y|
    requires x[i..DigitRunEnd(x, i)] == y[j..DigitRunEnd(y, j)]
    ensures RunsCompare(x, y, i, j) == 0
  {
  }

  /** Runs that compare as equal and equal characters: the loop steps past both. */
  lemma SameRunStep(x: string, y: string, i: nat, j: nat, e1: nat, e2: nat)
    requires i < |x| && j < |y| && x[i] == y[j] && RunsCompare(x, y, i, j) == 0
    requires e1 == DigitRunEnd(x, i) && e2 == DigitRunEnd(y, j)
    ensures CompareFrom(x, y, i, j) == CompareFrom(x, y, e1 + 1, e2 + 1)
  {
  }

  lemma {:induction false} PrefixFrom(p: string, t: string, i: nat)
    requires i <= |p| + 1 && StopsRun(t)
    ensures CompareFrom(p, p + t, i, i) == -|t|
    decreases |p| + 1 - i
  {
    if i < |p| {
      var e := DigitRunEnd(p, i);
      PrefixStep(p, t, i, e);
      PrefixFrom(p, t, e + 1);
    }
  }

  /** Within `p`, a string and its extension take the same step. */
  lemma PrefixStep(p: string, t: string, i: nat, e: nat)
    requires i < |p| && StopsRun(t) && e == DigitRunEnd(p, i)
    ensures CompareFrom(p, p + t, i, i) == CompareFrom(p, p + t, e + 1, e + 1)
  {
    RunEndPrefix(p, t, i);
    assert (p + t)[i..e] == p[i..e] && (p + t)[i] == p[i];
    SameRunsCompareEqual(p, p + t, i, i);
    SameRunStep(p, p + t, i, i, e, e);
  }

  /** When one string runs out, the result is the raw length difference, not
      a value normalised to -1, 0 or 1: a string before its extension by `t`
      compares as `-|t|`, provided `t` does not continue a trailing number. */
  lemma PrefixComparesByLength(p: string, t: string)
    requires StopsRun(t)
    ensures Compare(Some(p), Some(p + t)) == -|t|
    ensures Compare(Some(p + t), Some(p)) == |t|
  {
    PrefixFrom(p, t, 0);
    CompareFromSwap(p, p + t, 0, 0);
  }

  /** `Compare(x, x) == 0` for every string. */
  lemma Reflexive(x: Option<string>)
    ensures Compare(x, x) == 0
  {
    if x.Some? {
      PrefixComparesByLength(x.value, []);
      assert x.value + [] == x.value;
    }
  }

  /** Over a prefix without digits both markers walk in step. */
  lemma {:induction false} WalkDigitFree(p: string, a: string, b: string, i: nat)
    requires DigitFree(p) && i <= |p|
    ensures CompareFrom(p + a, p + b, i, i) == CompareFrom(p + a, p + b, |p|, |p|)
    decreases |p| - i
  {
    if i < |p| {
      assert (p + a)[i] == p[i] == (p + b)[i];
      WalkDigitFree(p, a, b, i + 1);
    }
  }

  /** The run starting right after `p` in `p + d + t` is exactly `d`. */
  lemma {:induction false} RunOf(p: string, d: string, t: string, k: nat)
    requires AllDigits(d) && StopsRun(t) && k <= |d|
    ensures DigitRunEnd(p + d + t, |p| + k) == |p| + |d|
    decreases |d| - k
  {
    var s := p + d + t;
    if k < |d| {
      assert s[|p| + k] == d[k];
      RunOf(p, d, t, k + 1);
    } else if t != [] {
      assert s[|p| + |d|] == t[0];
    }
  }

  lemma RunSlice(p: string, d: string, t: string)
    requires AllDigits(d) && StopsRun(t)
    ensures DigitRunEnd(p + d + t, |p|) == |p| + |d|
    ensures (p + d + t)[|p|..|p| + |d|] == d
    ensures d != [] ==> (p + d + t)[|p|] == d[0]
  {
    RunOf(p, d, t, 0);
  }

  /** Numbers at the same place after a common prefix without digits compare by
      value ("a2" before "a10"), as long as both fit in an `int`. */
  lemma NumbersCompareByValue(p: string, d1: string, t1: string, d2: string, t2: string)
    requires DigitFree(p)
    requires d1 != [] && AllDigits(d1) && StopsRun(t1)
    requires d2 != [] && AllDigits(d2) && StopsRun(t2)
    requires DecimalValue(d1) <= Int32Max && DecimalValue(d2) <= Int32Max
    requires DecimalValue(d1) != DecimalValue(d2)
    ensures var r := Compare(Some(p + d1 + t1), Some(p + d2 + t2));
            (r < 0 <==> DecimalValue(d1) < DecimalValue(d2)) && (r > 0 <==> DecimalValue(d1) > DecimalValue(d2))
  {
    var x, y := p + d1 + t1, p + d2 + t2;
    assert x == p + (d1 + t1) && y == p + (d2 + t2);
    WalkDigitFree(p, d1 + t1, d2 + t2, 0);
    RunSlice(p, d1, t1);
    RunSlice(p, d2, t2);
  }

  /** A run too long for an `int` is not compared as a number: the step falls
      back to the runs' first characters. */
  lemma OverflowComparesFirstDigits(p: string, d1: string, t1: string, d2: string, t2: string)
    requires DigitFree(p)
    requires d1 != [] && AllDigits(d1) && StopsRun(t1)
    requires d2 != [] && AllDigits(d2) && StopsRun(t2)
    requires DecimalValue(d1) > Int32Max
    requires d1[0] != d2[0]
    ensures Compare(Some(p + d1 + t1), Some(p + d2 + t2)) == d1[0] as int - d2[0] as int
  {
    var x, y := p + d1 + t1, p + d2 + t2;
    assert x == p + (d1 + t1) && y == p + (d2 + t2);
    WalkDigitFree(p, d1 + t1, d2 + t2, 0);
    RunSlice(p, d1, t1);
    RunSlice(p, d2, t2);
    assert x[|p|] == d1[0] && y[|p|] == d2[0];
  }

  /** Where `x` and `y` have the same length and agree from marker `i` on. */
  predicate AgreeFrom(x: string, y: string, i: nat) {
    |x| == |y| && i <= |x| && forall k :: i <= k < |x| ==> x[k] == y[k]
  }

  lemma {:induction false} RunEndAgree(x: string, y: string, i: nat)
    requires AgreeFrom(x, y, i)
    ensures DigitRunEnd(x, i) == DigitRunEnd(y, i)
    ensures x[i..DigitRunEnd(x, i)] == y[i..DigitRunEnd(x, i)]
    decreases |x| - i
  {
    if i < |x| {
      RunEndAgree(x, y, i + 1);
    }
  }

  /** One step of the walk where both markers stand on the same run and the
      same character. */
  lemma EvenStep(x: string, y: string, i: nat, e: nat)
    requires i < |x| && i < |y| && x[i] == y[i]
    requires e == DigitRunEnd(x, i) == DigitRunEnd(y, i) && x[i..e] == y[i..e]
    ensures CompareFrom(x, y, i, i) == CompareFrom(x, y, e + 1, e + 1)
  {
  }

  lemma {:induction false} AgreeFromEven(x: string, y: string, i: nat)
    requires AgreeFrom(x, y, i) || (|x| == |y| && i == |x| + 1)
    ensures CompareFrom(x, y, i, i) == 0
    decreases |x| + 1 - i
  {
    if i < |x| {
      RunEndAgree(x, y, i);
      EvenStep(x, y, i, DigitRunEnd(x, i));
      AgreeFromEven(x, y, DigitRunEnd(x, i) + 1);
    }
  }

  lemma AgreeTail(q: string, a: string, b: string)
    requires a != [] && |a| == |b| && a[1..] == b[1..]
    ensures AgreeFrom(q + a, q + b, |q| + 1)
  {
    forall k | |q| + 1 <= k < |q + a|
      ensures (q + a)[k] == (q + b)[k]
    {
      assert (q + a)[k] == a[1..][k - |q| - 1];
      assert (q + b)[k] == b[1..][k - |q| - 1];
    }
  }

  /** The walk over `p + d + a` and `p + d + b`, where `a` and `b` differ at most
      in a first character that is not a digit. */
  lemma SkipAfterRun(p: string, d: string, a: string, b: string)
    requires d != [] && AllDigits(d)
    requires a != [] && |a| == |b| && !IsDigit(a[0]) && !IsDigit(b[0]) && a[1..] == b[1..]
    ensures CompareFrom(p + d + a, p + d + b, |p|, |p|) == 0
  {
    var x, y := p + d + a, p + d + b;
    var i, e := |p|, |p| + |d|;
    assert CompareFrom(x, y, i, i) == CompareFrom(x, y, e + 1, e + 1) by {
      RunSlice(p, d, a);
      RunSlice(p, d, b);
      EvenStep(x, y, i, e);
    }
    assert CompareFrom(x, y, e + 1, e + 1) == 0 by {
      AgreeTail(p + d, a, b);
      AgreeFromEven(x, y, e + 1);
    }
  }

  /** The character right after a number is skipped by both markers, so two
      strings that differ only there compare equal: `Compare("a1b", "a1c") == 0`. */
  lemma SkipsCharacterAfterNumber(p: string, d: string, c1: char, c2: char, t: string)
    requires DigitFree(p) && d != [] && AllDigits(d)
    requires !IsDigit(c1) && !IsDigit(c2)
    ensures Compare(Some(p + d + [c1] + t), Some(p + d + [c2] + t)) == 0
  {
    var a, b := [c1] + t, [c2] + t;
    assert p + d + [c1] + t == p + (d + a) && p + d + [c2] + t == p + (d + b);
    assert p + (d + a) == p + d + a && p + (d + b) == p + d + b;
    WalkDigitFree(p, d + a, d + b, 0);
    SkipAfterRun(p, d, a, b);
  }
}
