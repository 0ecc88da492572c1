/** The command stream of a `.menu` file (the `for(;;)` loop of
    `ModMenuLoader.LoadDirect`): groups of a count byte followed by that many
    strings, ended by a zero count or by the command `end`. Each group is a
    command (its first string) with arguments, and a keyword dispatch copies
    some of them into the `MenuInfo`. */
module MenuCommands {
  import opened Wrappers
  import opened Wire
  import opened Cursor
  import opened GameFiles
  import opened MenuInfos

  /** The calls the menu loaders make into code this model does not include. */
  datatype Host = Host(
    /** `GameUty.FileOpen`. */
    fs: FileSystem,
    /** `new FileStream(path, FileMode.Open)` and its length: `None` where
        opening throws (an empty path, a missing file). */
    disk: string -> Option<seq<byte>>,
    /** `MPNUtils.GetMPN`. */
    getMpn: string -> MPN,
    /** `BinaryExtensions.ReadMPN`'s lookup of a part name, as an `MPN`. */
    partMpn: string -> MPN,
    /** `float.Parse`, as the bit pattern of the float; `None` where it throws. */
    parseFloat: string -> Option<Word32>,
    /** `string.GetHashCode`. */
    hash: string -> int,
    /** `MPNUtils.IsEditableMPN`. */
    isEditable: MPN -> bool)

  const EndCommand: string := "end"

  // ---------------------------------------------------------------------------
  // Reading

  /** The `k` strings of a group still to be read at `p`, after the ones in `acc`. */
  function GroupFrom(s: seq<byte>, p: nat, k: nat, acc: seq<string>): (r: Parse<seq<string>>)
    ensures r.Ok? ==> |r.value| == |acc| + k && p <= r.next
    ensures r.Ok? && k > 0 ==> r.next <= |s|
    decreases k
  {
    if k == 0 then Ok(acc, p)
    else
      var str :- StringAt(s, p);
      GroupFrom(s, str.next, k - 1, acc + [str.value])
  }

  /** The command has its first argument, and it is not empty; `color_set` needs
      a second one as well. */
  predicate Applies(list: seq<string>)
    requires list != []
  {
    |list| > 1 && list[1] != "" && (list[0] == "color_set" ==> |list| > 2)
  }

  /** A command the dispatch knows. */
  predicate IsKeyword(com: string) {
    com in {"name", "setumei", "category", "icons", "icon", "priority", "additem", "color_set"}
  }

  /** The fields no command sets are those of `m`. */
  predicate Untouched(m: MenuInfo, m2: MenuInfo) {
    m2.(name := m.name, setumei := m.setumei, mpn := m.mpn, iconName := m.iconName,
        priority := m.priority, modelFileName := m.modelFileName,
        colorSetMPN := m.colorSetMPN, colorSetMenuName := m.colorSetMenuName) == m
  }

  /** One command of the stream applied to the menu read so far. Only `priority`
      can throw, when `float.Parse` rejects its argument. */
  function Dispatch(m: MenuInfo, list: seq<string>, host: Host): (r: Outcome<MenuInfo>)
    requires list != []
    ensures r.Threw? <==> list[0] == "priority" && Applies(list) && host.parseFloat(list[1]).None?
    ensures !Applies(list) || !IsKeyword(list[0]) ==> r == Returned(m)
    ensures r.Returned? ==> Untouched(m, r.value)
  {
    var com := list[0];
    if !Applies(list) then Returned(m)
    else if com == "name" then Returned(m.(name := Some(list[1])))
    else if com == "setumei" then Returned(m.(setumei := Some(list[1])))
    else if com == "category" then Returned(m.(mpn := host.getMpn(list[1])))
    else if com == "icons" || com == "icon" then Returned(m.(iconName := Some(list[1])))
    else if com == "priority" then
      match host.parseFloat(list[1])
      case None => Threw
      case Some(w) => Returned(m.(priority := w))
    else if com == "additem" then Returned(m.(modelFileName := Some(list[1])))
    else if com == "color_set" then
      Returned(m.(colorSetMPN := host.getMpn(list[1]), colorSetMenuName := Some(list[2])))
    else Returned(m)
  }

  /** What a command does to the menu: each field changes only under its own
      keyword, and an applicable command sets its field from its arguments. */
  lemma DispatchEffect(m: MenuInfo, list: seq<string>, host: Host)
    requires list != [] && Dispatch(m, list, host).Returned?
    ensures var r := Dispatch(m, list, host).value;
            && (r.name != m.name ==> list[0] == "name")
            && (r.setumei != m.setumei ==> list[0] == "setumei")
            && (r.mpn != m.mpn ==> list[0] == "category")
            && (r.iconName != m.iconName ==> list[0] in {"icons", "icon"})
            && (r.priority != m.priority ==> list[0] == "priority")
            && (r.modelFileName != m.modelFileName ==> list[0] == "additem")
            && (r.colorSetMPN != m.colorSetMPN || r.colorSetMenuName != m.colorSetMenuName ==> list[0] == "color_set")
    ensures var r := Dispatch(m, list, host).value;
            Applies(list) ==>
              && (list[0] == "name" ==> r.name == Some(list[1]))
              && (list[0] == "setumei" ==> r.setumei == Some(list[1]))
              && (list[0] == "category" ==> r.mpn == host.getMpn(list[1]))
              && (list[0] in {"icons", "icon"} ==> r.iconName == Some(list[1]))
              && (list[0] == "priority" ==> Some(r.priority) == host.parseFloat(list[1]))
              && (list[0] == "additem" ==> r.modelFileName == Some(list[1]))
              && (list[0] == "color_set" ==> r.colorSetMPN == host.getMpn(list[1]) && r.colorSetMenuName == Some(list[2]))
  {
  }

  /** The command loop from `p` on, with `m` the menu read so far: the menu when
      the loop stops, and where it stopped. A read past the end or a throwing
      command fails. */
  function CommandsAt(s: seq<byte>, p: nat, m: MenuInfo, host: Host): (r: Parse<MenuInfo>)
    ensures r.Ok? ==> p < r.next <= |s|
    decreases |s| - p
  {
    var b :- ByteAt(s, p);
    if b.value == 0 then Ok(m, b.next)
    else
      var list :- GroupFrom(s, b.next, b.value as nat, []);
      if list.value[0] == EndCommand then Ok(m, list.next)
      else
        match Dispatch(m, list.value, host)
        case Threw => Fail
        case Returned(m2) => CommandsAt(s, list.next, m2, host)
  }

  /** The `for` loop over the strings of one group. */
  method ReadGroup(reader: Reader, k: nat) returns (ok: bool, list: seq<string>)
    modifies reader
    ensures Tracks(ok, list, GroupFrom(reader.data, old(reader.pos), k, []), reader.pos)
  {
    list := [];
    var i := 0;
    while i < k
      invariant 0 <= i <= k && |list| == i
      invariant GroupFrom(reader.data, old(reader.pos), k, []) == GroupFrom(reader.data, reader.pos, k - i, list)
    {
      var str;
      ok, str := reader.ReadString();
      if !ok {
        return;
      }
      list := list + [str];
      i := i + 1;
    }
    ok := true;
  }

  /** The loop itself: a count byte, the strings of the group, the dispatch. */
  method ReadCommands(reader: Reader, m0: MenuInfo, host: Host) returns (ok: bool, m: MenuInfo)
    modifies reader
    ensures Tracks(ok, m, CommandsAt(reader.data, old(reader.pos), m0, host), reader.pos)
  {
    m := m0;
    while true
      invariant CommandsAt(reader.data, old(reader.pos), m0, host) == CommandsAt(reader.data, reader.pos, m, host)
      decreases |reader.data| - reader.pos
    {
      var b;
      ok, b := reader.ReadByte();
      if !ok || b == 0 {
        return;
      }
      var list;
      ok, list := ReadGroup(reader, b as nat);
      if !ok || list[0] == EndCommand {
        return;
      }
      var next := Dispatch(m, list, host);
      if next.Threw? {
        return false, m;
      }
      m := next.value;
    }
  }

  // ---------------------------------------------------------------------------
  // Writing, and what reading it back gives

  /** A group the format can hold: one to 255 strings, each writable. */
  predicate WellFormedCommand(c: seq<string>) {
    0 < |c| < 256 && forall i :: 0 <= i < |c| ==> Writable(c[i])
  }

  /** Commands that do not stop the loop. */
  predicate Continuing(cs: seq<seq<string>>) {
    forall i :: 0 <= i < |cs| ==> WellFormedCommand(cs[i]) && cs[i][0] != EndCommand
  }

  function EncStrings(c: seq<string>): seq<byte>
    requires forall i :: 0 <= i < |c| ==> Writable(c[i])
  {
    if c == [] then [] else EncString(c[0]) + EncStrings(c[1..])
  }

  function EncCommand(c: seq<string>): seq<byte>
    requires WellFormedCommand(c)
  {
    [|c| as byte] + EncStrings(c)
  }

  function EncCommands(cs: seq<seq<string>>): seq<byte>
    requires forall i :: 0 <= i < |cs| ==> WellFormedCommand(cs[i])
  {
    if cs == [] then [] else EncCommand(cs[0]) + EncCommands(cs[1..])
  }

  /** The commands applied in order; the first that throws ends it. */
  function Apply(m: MenuInfo, cs: seq<seq<string>>, host: Host): Outcome<MenuInfo>
    requires forall i :: 0 <= i < |cs| ==> cs[i] != []
    decreases |cs|
  {
    if cs == [] then Returned(m)
    else
      var m2 :- Dispatch(m, cs[0], host);
      Apply(m2, cs[1..], host)
  }

  /** The loop, resumed at `q` with the menu `o` when no command threw. */
  function Resume(o: Outcome<MenuInfo>, s: seq<byte>, q: nat, host: Host): Parse<MenuInfo> {
    match o
    case Threw => Fail
    case Returned(m) => CommandsAt(s, q, m, host)
  }

  function AsParse(o: Outcome<MenuInfo>, q: nat): (r: Parse<MenuInfo>)
    ensures r.Ok? <==> o.Returned?
    ensures r.Ok? ==> r.value == o.value && r.next == q
  {
    match o
    case Threw => Fail
    case Returned(m) => Ok(m, q)
  }

  lemma GroupStep(s: seq<byte>, p: nat, k: nat, acc: seq<string>, str: string, p1: nat)
    requires k > 0 && StringAt(s, p) == Ok(str, p1)
    ensures GroupFrom(s, p, k, acc) == GroupFrom(s, p1, k - 1, acc + [str])
  {
  }

  /** The strings `c` are read one after another from `p`, ending at `q`. */
  predicate StringsAt(s: seq<byte>, p: nat, c: seq<string>, q: nat)
    decreases |c|
  {
    if c == [] then p == q
    else StringAt(s, p).Ok? && StringAt(s, p).value == c[0] && StringsAt(s, StringAt(s, p).next, c[1..], q)
  }

  /** The strings of a group read back, after those already in `acc`. */
  lemma {:induction false} GroupRoundTrip(s: seq<byte>, p: nat, c: seq<string>, acc: seq<string>, q: nat)
    requires forall i :: 0 <= i < |c| ==> Writable(c[i])
    requires At(s, p, EncStrings(c)) && q == p + |EncStrings(c)|
    ensures GroupFrom(s, p, |c|, acc) == Ok(acc + c, q)
  {
    EncodedStrings(s, p, c, q);
    GroupReads(s, p, c, acc, q);
  }

  /** Written strings are read back one after another. */
  lemma {:induction false} EncodedStrings(s: seq<byte>, p: nat, c: seq<string>, q: nat)
    requires forall i :: 0 <= i < |c| ==> Writable(c[i])
    requires At(s, p, EncStrings(c)) && q == p + |EncStrings(c)|
    ensures StringsAt(s, p, c, q)
    decreases |c|
  {
    if c != [] {
      var p1 := p + |EncString(c[0])|;
      StringsSplit(s, p, c, q, p1);
      TailWritable(c);
      StringRoundTrip(s, p, c[0]);
      EncodedStrings(s, p1, c[1..], q);
      StringsCons(s, p, c, p1, q);
    }
  }

  lemma StringsCons(s: seq<byte>, p: nat, c: seq<string>, p1: nat, q: nat)
    requires c != [] && StringAt(s, p) == Ok(c[0], p1) && StringsAt(s, p1, c[1..], q)
    ensures StringsAt(s, p, c, q)
  {
  }

  /** A group of `|c|` strings over strings read one after another. */
  lemma {:induction false} GroupReads(s: seq<byte>, p: nat, c: seq<string>, acc: seq<string>, q: nat)
    requires StringsAt(s, p, c, q)
    ensures GroupFrom(s, p, |c|, acc) == Ok(acc + c, q)
    decreases |c|
  {
    if c == [] {
      assert acc + c == acc;
    } else {
      var p1 := StringAt(s, p).next;
      GroupStep(s, p, |c|, acc, c[0], p1);
      GroupReads(s, p1, c[1..], acc + [c[0]], q);
      ConsAppend(acc, c);
    }
  }

  lemma ConsAppend(acc: seq<string>, c: seq<string>)
    requires c != []
    ensures acc + [c[0]] + c[1..] == acc + c
  {
    assert [c[0]] + c[1..] == c;
  }

  /** A written group splits into its first string and the rest. */
  lemma StringsSplit(s: seq<byte>, p: nat, c: seq<string>, q: nat, p1: nat)
    requires c != [] && forall i :: 0 <= i < |c| ==> Writable(c[i])
    requires At(s, p, EncStrings(c)) && q == p + |EncStrings(c)|
    requires p1 == p + |EncString(c[0])|
    ensures At(s, p, EncString(c[0]))
    ensures At(s, p1, EncStrings(c[1..])) && q == p1 + |EncStrings(c[1..])|
  {
    assert EncStrings(c) == EncString(c[0]) + EncStrings(c[1..]);
    AtSplit(s, p, EncString(c[0]), EncStrings(c[1..]));
  }

  lemma TailWritable(c: seq<string>)
    requires c != [] && forall i :: 0 <= i < |c| ==> Writable(c[i])
    ensures Writable(c[0]) && forall i :: 0 <= i < |c| - 1 ==> Writable(c[1..][i])
  {
    forall i | 0 <= i < |c| - 1 ensures Writable(c[1..][i]) {
      assert c[1..][i] == c[i + 1];
    }
  }

  /** One command read back: its strings, the position after them. */
  lemma {:induction false} CommandRoundTrip(s: seq<byte>, p: nat, c: seq<string>, q: nat)
    requires WellFormedCommand(c) && At(s, p, EncCommand(c)) && q == p + |EncCommand(c)|
    ensures ByteAt(s, p) == Ok(|c| as byte, p + 1)
    ensures GroupFrom(s, p + 1, |c|, []) == Ok(c, q)
  {
    assert s[p] == |c| as byte && At(s, p + 1, EncStrings(c)) by {
      AtSplit(s, p, [|c| as byte], EncStrings(c));
    }
    assert GroupFrom(s, p + 1, |c|, []) == Ok([] + c, q) by {
      GroupRoundTrip(s, p + 1, c, [], q);
    }
    assert [] + c == c;
  }

  /** The loop at a command that does not stop it: dispatch, then the rest. */
  lemma CommandStep(s: seq<byte>, p: nat, c: seq<string>, q: nat, m: MenuInfo, host: Host)
    requires WellFormedCommand(c) && c[0] != EndCommand
    requires ByteAt(s, p) == Ok(|c| as byte, p + 1) && GroupFrom(s, p + 1, |c|, []) == Ok(c, q)
    ensures CommandsAt(s, p, m, host) == Resume(Dispatch(m, c, host), s, q, host)
  {
  }

  /** Reading commands that were written, followed by anything, is applying them
      and going on after them. */
  lemma {:induction false} CommandsPrefix(s: seq<byte>, p: nat, cs: seq<seq<string>>, rest: seq<byte>, q: nat, m: MenuInfo, host: Host)
    requires Continuing(cs)
    requires At(s, p, EncCommands(cs) + rest) && q == p + |EncCommands(cs)|
    ensures CommandsAt(s, p, m, host) == Resume(Apply(m, cs, host), s, q, host)
    decreases |cs|
  {
    if cs == [] {
      assert EncCommands(cs) == [];
    } else {
      var p1 := p + |EncCommand(cs[0])|;
      PrefixHead(s, p, cs, rest, q, p1, m, host);
      match Dispatch(m, cs[0], host)
      case Threw =>
      case Returned(m2) =>
        assert Apply(m, cs, host) == Apply(m2, cs[1..], host);
        CommandsPrefix(s, p1, cs[1..], rest, q, m2, host);
    }
  }

  /** The first command of a written list: it is read and dispatched, and the
      rest of the list follows it. */
  lemma {:induction false} PrefixHead(s: seq<byte>, p: nat, cs: seq<seq<string>>, rest: seq<byte>, q: nat, p1: nat, m: MenuInfo, host: Host)
    requires Continuing(cs) && cs != []
    requires At(s, p, EncCommands(cs) + rest) && q == p + |EncCommands(cs)|
    requires p1 == p + |EncCommand(cs[0])|
    ensures Continuing(cs[1..])
    ensures At(s, p1, EncCommands(cs[1..]) + rest) && q == p1 + |EncCommands(cs[1..])|
    ensures CommandsAt(s, p, m, host) == Resume(Dispatch(m, cs[0], host), s, p1, host)
  {
    var c := cs[0];
    var tail := cs[1..];
    assert Continuing(tail) by {
      forall i | 0 <= i < |tail| ensures WellFormedCommand(tail[i]) && tail[i][0] != EndCommand {
        assert tail[i] == cs[i + 1];
      }
    }
    assert At(s, p, EncCommand(c)) && At(s, p1, EncCommands(tail) + rest) && q == p1 + |EncCommands(tail)| by {
      assert EncCommands(cs) + rest == EncCommand(c) + (EncCommands(tail) + rest);
      AtSplit(s, p, EncCommand(c), EncCommands(tail) + rest);
    }
    HeadRead(s, p, c, p1, m, host);
  }

  /** A written command that does not stop the loop is read and dispatched. */
  lemma HeadRead(s: seq<byte>, p: nat, c: seq<string>, p1: nat, m: MenuInfo, host: Host)
    requires WellFormedCommand(c) && c[0] != EndCommand
    requires At(s, p, EncCommand(c)) && p1 == p + |EncCommand(c)|
    ensures CommandsAt(s, p, m, host) == Resume(Dispatch(m, c, host), s, p1, host)
  {
    CommandRoundTrip(s, p, c, p1);
    CommandStep(s, p, c, p1, m, host);
  }

  /** A written command list ended by a zero count reads back as the commands
      applied in order, stopping just after the zero. */
  lemma {:induction false} CommandsRoundTrip(s: seq<byte>, p: nat, cs: seq<seq<string>>, q2: nat, m: MenuInfo, host: Host)
    requires Continuing(cs) && At(s, p, EncCommands(cs) + [0])
    requires q2 == p + |EncCommands(cs)| + 1
    ensures CommandsAt(s, p, m, host) == AsParse(Apply(m, cs, host), q2)
  {
    var q := q2 - 1;
    var o := Apply(m, cs, host);
    assert CommandsAt(s, p, m, host) == Resume(o, s, q, host) by {
      CommandsPrefix(s, p, cs, [0], q, m, host);
    }
    assert Resume(o, s, q, host) == AsParse(o, q2) by {
      AtSplit(s, p, EncCommands(cs), [0]);
      ZeroStops(s, q, o, host);
    }
  }

  lemma ZeroStops(s: seq<byte>, q: nat, o: Outcome<MenuInfo>, host: Host)
    requires At(s, q, [0])
    ensures Resume(o, s, q, host) == AsParse(o, q + 1)
  {
    assert s[q] == 0;
  }

  /** An `end` command stops the loop: whatever follows it is never read, and
      the loop ends at `q2`, just after the `end` command. */
  lemma {:induction false} EndStops(s: seq<byte>, p: nat, cs: seq<seq<string>>, c: seq<string>, q: nat, q2: nat, m: MenuInfo, host: Host)
    requires Continuing(cs) && WellFormedCommand(c) && c[0] == EndCommand
    requires At(s, p, EncCommands(cs) + EncCommand(c))
    requires q == p + |EncCommands(cs)| && q2 == q + |EncCommand(c)|
    ensures CommandsAt(s, p, m, host) == AsParse(Apply(m, cs, host), q2)
  {
    AtSplit(s, p, EncCommands(cs), EncCommand(c));
    CommandsPrefix(s, p, cs, EncCommand(c), q, m, host);
    EndRead(s, q, c, q2, Apply(m, cs, host), host);
  }

  /** A written `end` command stops the loop just after it. */
  lemma EndRead(s: seq<byte>, q: nat, c: seq<string>, q2: nat, o: Outcome<MenuInfo>, host: Host)
    requires WellFormedCommand(c) && c[0] == EndCommand
    requires At(s, q, EncCommand(c)) && q2 == q + |EncCommand(c)|
    ensures Resume(o, s, q, host) == AsParse(o, q2)
  {
    CommandRoundTrip(s, q, c, q2);
    EndAt(s, q, c, q2, o, host);
  }

  lemma EndAt(s: seq<byte>, q: nat, c: seq<string>, q2: nat, o: Outcome<MenuInfo>, host: Host)
    requires WellFormedCommand(c) && c[0] == EndCommand
    requires ByteAt(s, q) == Ok(|c| as byte, q + 1) && GroupFrom(s, q + 1, |c|, []) == Ok(c, q2)
    ensures Resume(o, s, q, host) == AsParse(o, q2)
  {
  }

  /** A command the dispatch does not know leaves the menu as it is. */
  lemma UnknownIgnored(m: MenuInfo, list: seq<string>, host: Host)
    requires list != [] && !IsKeyword(list[0])
    ensures Dispatch(m, list, host) == Returned(m)
  {
  }

  /** Of two applicable commands with the same keyword, the later one wins. */
  lemma LaterOverwrites(m: MenuInfo, a: seq<string>, b: seq<string>, host: Host)
    requires a != [] && b != [] && a[0] == b[0] && Applies(b)
    requires Dispatch(m, a, host).Returned?
    ensures Dispatch(Dispatch(m, a, host).value, b, host) == Dispatch(m, b, host)
  {
  }
}
