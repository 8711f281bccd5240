/**
 * Configuration documents laid out the way the parser's tests write them:
 * per device a line "<name> {", an indented `time` and `command` line, and
 * a closing "}".  Parsing such a document gives back the devices, a later
 * block replacing an earlier one of the same name.
 */
module ConfigRender {
  import opened Wrappers
  import opened GoStrings
  import opened LineMachine
  import opened Config

  /** A device as it is written down: a name, the idle time in whole minutes, and the words of the command. */
  datatype Block = Block(name: string, minutes: nat, words: seq<string>)

  /** A command word: not empty, no white space and no '#'. */
  predicate Word(w: string) {
    w != [] && forall i :: 0 <= i < |w| ==> !IsSpace(w[i]) && w[i] != '#'
  }

  /** A block whose rendering parses back to it: a lower-case name, a time that does not overflow, and a command. */
  predicate Renderable(b: Block) {
    && b.name != [] && AllLower(b.name)
    && 0 < b.minutes <= MaxInt64 / Minute
    && |b.words| >= 1 && (forall k :: 0 <= k < |b.words| ==> Word(b.words[k]))
  }

  /** The device the parser should build from a block. */
  function BlockDevice(b: Block): Device {
    Device(b.name, b.minutes * Minute, if b.words == [] then Command("", []) else Command(b.words[0], b.words[1..]))
  }

  const Indent: string := "    "

  /** An indented "key = value" line. */
  function ParamText(key: string, val: string): string {
    Indent + key + " = " + val
  }

  function RenderBlock(b: Block): seq<string> {
    [b.name + " {", ParamText("time", NatToString(b.minutes)), ParamText("command", Join(b.words, ' ')), "}"]
  }

  /** The blocks one after the other. */
  function Render(bs: seq<Block>): seq<string>
    decreases |bs|
  {
    if bs == [] then [] else Render(bs[..|bs| - 1]) + RenderBlock(bs[|bs| - 1])
  }

  /** The devices the blocks describe, each name bound to its last block. */
  function ToMap(bs: seq<Block>): map<string, Device>
    decreases |bs|
  {
    if bs == [] then map[] else ToMap(bs[..|bs| - 1])[bs[|bs| - 1].name := BlockDevice(bs[|bs| - 1])]
  }

  // ---------------------------------------------------------------------------
  // One line at a time
  // ---------------------------------------------------------------------------

  /** Decimal digits are neither white space nor '#'. */
  lemma DigitsPlain(s: string)
    requires AllDigits(s)
    ensures '#' !in s
    ensures s != [] ==> !IsSpace(s[0]) && !IsSpace(s[|s| - 1])
  {
    forall i | 0 <= i < |s| ensures s[i] != '#' {
      assert IsDigit(s[i]);
    }
  }

  /** Lower-case letters are neither white space, '#' nor '='. */
  lemma LowerPlain(s: string)
    requires AllLower(s)
    ensures '#' !in s && '=' !in s
    ensures s != [] ==> !IsSpace(s[0]) && !IsSpace(s[|s| - 1])
  {
    forall i | 0 <= i < |s| ensures s[i] != '#' && s[i] != '=' {
      assert IsLowerLetter(s[i]);
    }
  }

  /** Text that trimming and comment stripping leave alone. */
  predicate Plain(s: string) {
    s != [] && !IsSpace(s[0]) && !IsSpace(s[|s| - 1]) && '#' !in s
  }

  /** The two keys of a block are plain and hold no '='. */
  lemma KeysPlain()
    ensures Plain("time") && '=' !in "time"
    ensures Plain("command") && '=' !in "command"
  {
  }

  /** A "key = value" line is read without its indentation. */
  lemma ParamClean(pad: string, key: string, val: string)
    requires AllSpace(pad) && Plain(key) && Plain(val)
    ensures Clean(pad + key + " = " + val) == key + " = " + val
  {
    var s := key + " = " + val;
    assert s[0] == key[0] && s[|s| - 1] == val[|val| - 1];
    assert pad + s + "" == pad + key + " = " + val;
    TrimSpacePadded(pad, s, "");
    assert '#' !in s;
  }

  /** "key = value" is read as that key and that value. */
  lemma ParamSplit(key: string, val: string)
    requires Plain(key) && '=' !in key && Plain(val)
    ensures ParseParam(key + " = " + val) == Ok((key, val))
  {
    var s := key + " = " + val;
    assert s == (key + " ") + ['='] + (" " + val);
    IndexOfAfter(key + " ", '=', " " + val);
    assert s[..|key| + 1] == "" + key + " ";
    assert s[|key| + 2..] == " " + val + "";
    TrimSpacePadded("", key, " ");
    TrimSpacePadded(" ", val, "");
  }

  /** The line that opens a block. */
  lemma NameLine(st: ParserState, name: string, n: int)
    requires !st.open && name != [] && AllLower(name)
    ensures Step(st, name + " {", n) == Ok(ParserState(true, Device(name, 0, Command("", [])), st.devs))
  {
    var s := name + " {";
    LowerPlain(name);
    assert s[0] == name[0];
    CleanKeeps(s);
    assert "" + name + " " + "{" == s;
    DevStartOf("", name, " ");
  }

  /** The text of a positive number of minutes is plain and reads back as that number. */
  lemma TimeValue(m: nat)
    requires 0 < m <= MaxInt64
    ensures Plain(NatToString(m)) && Atoi(NatToString(m)) == Some(m)
  {
    DigitsPlain(NatToString(m));
    AtoiOfIntToString(m);
  }

  /** The text of the command words is plain and reads back as those words. */
  lemma CommandValue(words: seq<string>)
    requires |words| >= 1 && forall k :: 0 <= k < |words| ==> Word(words[k])
    ensures Plain(Join(words, ' ')) && ParseCommand(Join(words, ' ')) == Command(words[0], words[1..])
  {
    var v := Join(words, ' ');
    JoinAvoids(words, ' ', '#');
    JoinEnds(words, ' ');
    forall k | 0 <= k < |words| ensures ' ' !in words[k] {
      assert forall i :: 0 <= i < |words[k]| ==> !IsSpace(words[k][i]);
    }
    ParseCommandOfJoin(words);
  }

  /** A `time` line whose value reads as a number of minutes that does not overflow. */
  lemma TimeLine(st: ParserState, pad: string, v: string, m: int, n: int)
    requires st.open && AllSpace(pad) && Plain(v) && Atoi(v) == Some(m) && 0 < m <= MaxInt64 / Minute
    ensures Step(st, pad + "time" + " = " + v, n) == Ok(st.(dev := st.dev.(time := m * Minute)))
  {
    KeysPlain();
    ParamClean(pad, "time", v);
    ParamSplit("time", v);
    MinutesExact(m);
    assert Assign(st, "time", v, n) == Ok(st.(dev := st.dev.(time := m * Minute)));
  }

  /** A `command` line. */
  lemma CommandLine(st: ParserState, pad: string, v: string, n: int)
    requires st.open && AllSpace(pad) && Plain(v)
    ensures Step(st, pad + "command" + " = " + v, n) == Ok(st.(dev := st.dev.(cmd := ParseCommand(v))))
  {
    KeysPlain();
    ParamClean(pad, "command", v);
    ParamSplit("command", v);
  }

  /** The `time` line of a rendered block. */
  lemma TimeParam(st: ParserState, v: string, m: int, n: int)
    requires st.open && Plain(v) && Atoi(v) == Some(m) && 0 < m <= MaxInt64 / Minute
    ensures Step(st, ParamText("time", v), n) == Ok(st.(dev := st.dev.(time := m * Minute)))
  {
    assert AllSpace(Indent);
    TimeLine(st, Indent, v, m, n);
  }

  /** The `command` line of a rendered block. */
  lemma CommandParam(st: ParserState, v: string, n: int)
    requires st.open && Plain(v)
    ensures Step(st, ParamText("command", v), n) == Ok(st.(dev := st.dev.(cmd := ParseCommand(v))))
  {
    assert AllSpace(Indent);
    CommandLine(st, Indent, v, n);
  }

  /** The line that closes a block with both parameters set. */
  lemma EndLine(st: ParserState, n: int)
    requires st.open && st.dev.time != 0 && st.dev.cmd.name != ""
    ensures Step(st, "}", n) == Ok(ParserState(false, NoDevice, st.devs[st.dev.name := st.dev]))
  {
    CleanKeeps("}");
  }

  // ---------------------------------------------------------------------------
  // Whole blocks and documents
  // ---------------------------------------------------------------------------

  /** Outside a block, a block of four lines files its device under its name and leaves the block closed. */
  lemma RunLines(lines: seq<string>, st: ParserState, name: string, tv: string, m: int, cv: string)
    requires Run(Step, Start, lines) == Ok(st) && !st.open
    requires name != [] && AllLower(name)
    requires Plain(tv) && Atoi(tv) == Some(m) && 0 < m <= MaxInt64 / Minute
    requires Plain(cv) && ParseCommand(cv).name != ""
    ensures Run(Step, Start, lines + [name + " {", ParamText("time", tv), ParamText("command", cv), "}"])
            == Ok(ParserState(false, NoDevice, st.devs[name := Device(name, m * Minute, ParseCommand(cv))]))
  {
    var r := [name + " {", ParamText("time", tv), ParamText("command", cv), "}"];
    var st1 := ParserState(true, Device(name, 0, Command("", [])), st.devs);
    var st2 := st1.(dev := st1.dev.(time := m * Minute));
    var st3 := st2.(dev := st2.dev.(cmd := ParseCommand(cv)));
    var st4 := ParserState(false, NoDevice, st.devs[name := Device(name, m * Minute, ParseCommand(cv))]);
    NameLine(st, name, |lines| + 1);
    TimeParam(st1, tv, m, |lines| + 2);
    CommandParam(st2, cv, |lines| + 3);
    MinutesExact(m);
    EndLine(st3, |lines| + 4);
    RunFour(Step, Start, lines, r[0], r[1], r[2], r[3], st, st1, st2, st3, st4);
  }

  /** Outside a block, a rendered block files its device under its name and leaves the block closed. */
  lemma RunBlock(lines: seq<string>, st: ParserState, b: Block)
    requires Run(Step, Start, lines) == Ok(st) && !st.open && Renderable(b)
    ensures Run(Step, Start, lines + RenderBlock(b)) == Ok(ParserState(false, NoDevice, st.devs[b.name := BlockDevice(b)]))
  {
    TimeValue(b.minutes);
    CommandValue(b.words);
    RunLines(lines, st, b.name, NatToString(b.minutes), b.minutes, Join(b.words, ' '));
  }

  /** A rendered document leaves the machine outside any block, with the devices of its blocks. */
  lemma {:induction false} RenderRuns(bs: seq<Block>)
    requires forall k :: 0 <= k < |bs| ==> Renderable(bs[k])
    ensures Run(Step, Start, Render(bs)) == Ok(ParserState(false, NoDevice, ToMap(bs)))
    decreases |bs|
  {
    if bs != [] {
      var init := bs[..|bs| - 1];
      RenderRuns(init);
      RunBlock(Render(init), ParserState(false, NoDevice, ToMap(init)), bs[|bs| - 1]);
    }
  }

  /** Parsing a rendered document gives the devices of its blocks. */
  lemma RoundTrip(bs: seq<Block>)
    requires forall k :: 0 <= k < |bs| ==> Renderable(bs[k])
    ensures Parsed(Render(bs)) == Ok(ToMap(bs))
  {
    RenderRuns(bs);
  }

  /** The devices are named by exactly the blocks' names. */
  lemma {:induction false} ToMapKeys(bs: seq<Block>)
    ensures ToMap(bs).Keys == set k | 0 <= k < |bs| :: bs[k].name
    decreases |bs|
  {
    if bs != [] {
      var init := bs[..|bs| - 1];
      ToMapKeys(init);
      assert (set k | 0 <= k < |bs| :: bs[k].name) == (set k | 0 <= k < |init| :: init[k].name) + {bs[|bs| - 1].name} by {
        forall k | 0 <= k < |init| ensures init[k] == bs[k] {}
      }
    }
  }

  /** A name is bound to the device of its last block. */
  lemma {:induction false} ToMapLast(bs: seq<Block>, k: nat)
    requires k < |bs| && forall j :: k < j < |bs| ==> bs[j].name != bs[k].name
    ensures bs[k].name in ToMap(bs) && ToMap(bs)[bs[k].name] == BlockDevice(bs[k])
    decreases |bs|
  {
    if k < |bs| - 1 {
      var init := bs[..|bs| - 1];
      ToMapLast(init, k);
    }
  }
}
