/**
 * The documents of config/config_test.go and the parser's quirks, each
 * proved against the model of the parser.
 */
module ConfigExamples {
  import opened Wrappers
  import opened GoStrings
  import opened ConfigError
  import opened LineMachine
  import opened Config
  import opened ConfigRender

  // ---------------------------------------------------------------------------
  // Line lemmas for lines written without the renderer's spacing
  // ---------------------------------------------------------------------------

  /** An indented line with plain text is read as that text. */
  lemma CleanPad(pad: string, s: string)
    requires AllSpace(pad) && Plain(s)
    ensures Clean(pad + s) == s
  {
    assert pad + s + "" == pad + s;
    TrimSpacePadded(pad, s, "");
  }

  /** "key=value" is read as that key and that value. */
  lemma TightParam(key: string, val: string)
    requires Plain(key) && '=' !in key && Plain(val)
    ensures ParseParam(key + "=" + val) == Ok((key, val))
  {
    var s := key + "=" + val;
    assert s == key + ['='] + val;
    IndexOfAfter(key, '=', val);
    assert s[..|key|] == key;
    assert s[|key| + 1..] == val;
    TrimSpaceKeeps(key);
    TrimSpaceKeeps(val);
  }

  /** "name{" has no white space at either end and no comment. */
  lemma NameBraceEnds(name: string)
    requires AllLower(name)
    ensures var s := name + "{"; !IsSpace(s[0]) && !IsSpace(s[|s| - 1]) && '#' !in s
  {
    var s := name + "{";
    if name != [] {
      LowerPlain(name);
      assert s[0] == name[0];
    }
  }

  /** "name{" is read as itself, starts a block and names `name`; the name may be empty. */
  lemma NameBrace(name: string)
    requires AllLower(name)
    ensures Clean(name + "{") == name + "{" && IsDevStart(name + "{") && DevName(name + "{") == name
  {
    NameBraceEnds(name);
    CleanKeeps(name + "{");
    assert "" + name + "" + "{" == name + "{";
    DevStartOf("", name, "");
  }

  /** "name{" opens a block for `name`; the name may be empty. */
  lemma OpenTight(st: ParserState, name: string, n: int)
    requires !st.open && AllLower(name)
    ensures Step(st, name + "{", n) == Ok(ParserState(true, Device(name, 0, Command("", [])), st.devs))
  {
    NameBrace(name);
  }

  /** A closing brace is read as itself. */
  lemma CloseClean()
    ensures Clean("}") == "}"
  {
    CleanKeeps("}");
  }

  /** "key=value" is plain when its key and its value are. */
  lemma PlainParam(key: string, val: string)
    requires Plain(key) && Plain(val)
    ensures Plain(key + "=" + val)
  {
    var s := key + "=" + val;
    assert s == key + ['='] + val;
    assert s[0] == key[0];
    assert s[|s| - 1] == val[|val| - 1];
  }

  /** The state after a line "name{": a block for `name` with nothing set yet. */
  function Opened(name: string): ParserState {
    ParserState(true, Device(name, 0, Command("", [])), map[])
  }

  /** A first line "name{" opens a block for `name`. */
  lemma OpenedBy(lines: seq<string>, name: string)
    requires |lines| >= 1 && lines[0] == name + "{" && AllLower(name)
    ensures Run(Step, Start, lines[..1]) == Ok(Opened(name))
  {
    var empty: seq<string> := [];
    OpenTight(Start, name, 1);
    assert Run(Step, Start, empty) == Ok(Start);
    RunAccepts(Step, Start, empty, name + "{", Start, Opened(name));
    FirstOnly(lines, name + "{");
  }

  /** A sequence that starts with `x` has `[] + [x]` as its first element's prefix. */
  lemma FirstOnly<T>(s: seq<T>, x: T)
    requires |s| >= 1 && s[0] == x
    ensures s[..1] == [] + [x]
  {
  }

  // ---------------------------------------------------------------------------
  // TestParseOk and TestParseEmpty
  // ---------------------------------------------------------------------------

  const SdaCmd: Command := Command("/sbin/hdparm", ["-y", "/dev/sda"])
  const SdbCmd: Command := Command("/sbin/hdparm", ["-y", "/dev/sdb"])

  /** The document of `TestParseOk`, one string per line. */
  const Sample: seq<string> := [
    "# sda disk configuration.",
    "sda {",
    "    time = 60",
    "    command = /sbin/hdparm -y /dev/sda",
    "}",
    "",
    "sdb {",
    "    time = 90",
    "    command = /sbin/hdparm -y /dev/sdb",
    "}"
  ]

  /** The first tokens of the sample's lines, as the renderer writes them. */
  lemma SampleTexts()
    ensures "sda" + " {" == Sample[1] && "sdb" + " {" == Sample[6]
    ensures ParamText("time", "60") == Sample[2] && ParamText("time", "90") == Sample[7]
    ensures "}" == Sample[4] && "}" == Sample[9] && "" == Sample[5]
  {
  }

  /** The renderer's text before a command value. */
  lemma CommandPrefix()
    ensures Indent + "command" + " = " == "    command = "
  {
  }

  /** The sample's command line for `sda`, as the renderer writes it. */
  lemma SdaCommandText()
    ensures ParamText("command", "/sbin/hdparm -y /dev/sda") == Sample[3]
  {
    CommandPrefix();
  }

  /** The sample's command line for `sdb`, as the renderer writes it. */
  lemma SdbCommandText()
    ensures ParamText("command", "/sbin/hdparm -y /dev/sdb") == Sample[8]
  {
    CommandPrefix();
  }

  /** The sample's command values, word by word. */
  lemma SampleWords()
    ensures "/sbin/hdparm -y /dev/sda" == "/sbin/hdparm" + " " + "-y" + " " + "/dev/sda"
    ensures "/sbin/hdparm -y /dev/sdb" == "/sbin/hdparm" + " " + "-y" + " " + "/dev/sdb"
    ensures Word("/sbin/hdparm") && Word("-y") && Word("/dev/sda") && Word("/dev/sdb")
  {
  }

  /** The sample's command values are plain and name the program with its arguments. */
  lemma SampleCommands()
    ensures Plain("/sbin/hdparm -y /dev/sda") && ParseCommand("/sbin/hdparm -y /dev/sda") == SdaCmd
    ensures Plain("/sbin/hdparm -y /dev/sdb") && ParseCommand("/sbin/hdparm -y /dev/sdb") == SdbCmd
  {
    SampleWords();
    ThreeWords("/sbin/hdparm", "-y", "/dev/sda");
    ThreeWords("/sbin/hdparm", "-y", "/dev/sdb");
  }

  /** A command of three words separated by single spaces is plain and is read as those words. */
  lemma ThreeWords(prog: string, a: string, b: string)
    requires Word(prog) && Word(a) && Word(b)
    ensures Plain(prog + " " + a + " " + b) && ParseCommand(prog + " " + a + " " + b) == Command(prog, [a, b])
  {
    var s := prog + " " + a + " " + b;
    JoinCons(a, [b], ' ');
    JoinCons(prog, [a, b], ' ');
    assert [prog] + [a, b] == [prog, a, b] && [a] + [b] == [a, b];
    assert Join([prog, a, b], ' ') == s;
    ParseCommandOfJoin([prog, a, b]);
    assert [prog, a, b][1..] == [a, b];
    assert s[0] == prog[0];
    assert s[|s| - 1] == b[|b| - 1];
  }

  /** The sample's time values are plain and read as 60 and 90. */
  lemma SampleTimes()
    ensures Plain("60") && Atoi("60") == Some(60)
    ensures Plain("90") && Atoi("90") == Some(90)
  {
    TimeValue(60);
    TimeValue(90);
    assert NatToString(60) == "60";
    assert NatToString(90) == "90";
  }

  /** The sample in the shape the block lemmas speak of. */
  lemma SampleShape()
    ensures Sample == [Sample[0]]
      + ["sda" + " {", ParamText("time", "60"), ParamText("command", "/sbin/hdparm -y /dev/sda"), "}"]
      + [""]
      + ["sdb" + " {", ParamText("time", "90"), ParamText("command", "/sbin/hdparm -y /dev/sdb"), "}"]
  {
    SampleTexts();
    SdaCommandText();
    SdbCommandText();
  }

  /** A skipped line, then a rendered block, then an empty line store exactly that block's device. */
  lemma BlockAfterSkipped(c: string, name: string, tv: string, m: int, cv: string)
    requires Clean(c) == ""
    requires name != [] && AllLower(name)
    requires Plain(tv) && Atoi(tv) == Some(m) && 0 < m <= MaxInt64 / Minute
    requires Plain(cv) && ParseCommand(cv).name != ""
    ensures Run(Step, Start, [c] + [name + " {", ParamText("time", tv), ParamText("command", cv), "}"] + [""])
            == Ok(ParserState(false, NoDevice, map[name := Device(name, m * Minute, ParseCommand(cv))]))
  {
    var block := [name + " {", ParamText("time", tv), ParamText("command", cv), "}"];
    IgnoredLine([], c);
    assert [] + [c] == [c];
    RunLines([c], Start, name, tv, m, cv);
    IgnoredLine([c] + block, "");
  }

  /** `TestParseOk`: the sample yields the two devices with their times in minutes and their commands. */
  lemma SampleParses()
    ensures Parsed(Sample) == Ok(map["sda" := Device("sda", 60 * Minute, SdaCmd), "sdb" := Device("sdb", 90 * Minute, SdbCmd)])
  {
    var sdb := "/sbin/hdparm -y /dev/sdb";
    var first := [Sample[0]];
    var block1 := ["sda" + " {", ParamText("time", "60"), ParamText("command", "/sbin/hdparm -y /dev/sda"), "}"];
    var block2 := ["sdb" + " {", ParamText("time", "90"), ParamText("command", sdb), "}"];
    SampleShape();
    SampleCommands();
    SampleTimes();
    AllLowerSample();
    CommentLine(Sample[0]);
    BlockAfterSkipped(Sample[0], "sda", "60", 60, "/sbin/hdparm -y /dev/sda");
    var devs1 := map["sda" := Device("sda", 60 * Minute, SdaCmd)];
    RunLines(first + block1 + [""], ParserState(false, NoDevice, devs1), "sdb", "90", 90, sdb);
    assert first + block1 + [""] + block2 == Sample;
  }

  /** The sample's device names are lower case. */
  lemma AllLowerSample()
    ensures AllLower("sda") && AllLower("sdb")
  {
  }

  /** `TestParseEmpty`: a document of one comment has no devices. */
  lemma CommentOnlyParses()
    ensures Parsed(["# Test empty config."]) == Ok(map[])
  {
    CommentLine("# Test empty config.");
    OnlyComments(["# Test empty config."]);
  }

  // ---------------------------------------------------------------------------
  // TestParseErr, one document per case
  // ---------------------------------------------------------------------------

  /** A document whose first line is text but not a block start. */
  lemma FirstNotStart(line: string)
    requires Clean(line) != "" && !IsDevStart(Clean(line))
    ensures Parsed([line]) == Err(NewError(1, "device block start expected"))
  {
    assert [line][..0] == [];
    BlockStartExpected([line], 0, Start);
  }

  /** A word that does not end in '{' is read as itself and is not a block start. */
  lemma NoBrace(w: string)
    requires Word(w) && w[|w| - 1] != '{'
    ensures Clean(w) == w && !IsDevStart(w)
  {
    CleanKeeps(w);
  }

  /** "sda" is not the start of a block. */
  lemma BareName()
    ensures Parsed(["sda"]) == Err(NewError(1, "device block start expected"))
  {
    assert Word("sda") && "sda"[2] != '{';
    NoBrace("sda");
    FirstNotStart("sda");
  }

  /** A second line of indented text without '=' inside the block the first line opened. */
  lemma NoEqualsAt(lines: seq<string>, name: string, pad: string, text: string)
    requires |lines| >= 2 && lines[0] == name + "{" && AllLower(name)
    requires lines[1] == pad + text && AllSpace(pad) && Plain(text) && '=' !in text && text != "}"
    ensures Parsed(lines) == Err(NewError(2, KeyValueExpected))
  {
    OpenedBy(lines, name);
    CleanPad(pad, text);
    KeyValueRequired(lines, 1, Opened(name));
  }

  /** The lines of `MissingEquals`, piece by piece. */
  lemma MissingEqualsFacts()
    ensures "sda{" == "sda" + "{" && AllLower("sda")
    ensures " foo" == " " + "foo" && AllSpace(" ") && Plain("foo") && '=' !in "foo" && "foo" != "}"
  {
  }

  /** " foo" inside a block has no '='. */
  lemma MissingEquals()
    ensures Parsed(["sda{", " foo", " }"]) == Err(NewError(2, KeyValueExpected))
  {
    MissingEqualsFacts();
    NoEqualsAt(["sda{", " foo", " }"], "sda", " ", "foo");
  }

  /** A second line "key=value" inside the block the first line opened, for a key that is neither of the two. */
  lemma UnknownAt(lines: seq<string>, name: string, pad: string, key: string, val: string)
    requires |lines| >= 2 && lines[0] == name + "{" && AllLower(name)
    requires lines[1] == pad + (key + "=" + val) && AllSpace(pad)
    requires Plain(key) && '=' !in key && Plain(val) && key != "time" && key != "command"
    ensures Parsed(lines) == Err(NewError(2, "unexpected parameter '" + key + "'"))
  {
    OpenedBy(lines, name);
    PlainParam(key, val);
    CleanPad(pad, key + "=" + val);
    TightParam(key, val);
    UnexpectedParameter(lines, 1, Opened(name), key, val);
  }

  /** The lines of `UnknownKey`, piece by piece. */
  lemma UnknownKeyFacts()
    ensures "sda{" == "sda" + "{" && AllLower("sda")
    ensures " foo=bar" == " " + ("foo" + "=" + "bar") && AllSpace(" ")
    ensures Plain("foo") && '=' !in "foo" && Plain("bar") && "foo" != "time" && "foo" != "command"
  {
  }

  /** " foo=bar" inside a block names an unknown key. */
  lemma UnknownKey()
    ensures Parsed(["sda{", " foo=bar", " }"]) == Err(NewError(2, "unexpected parameter 'foo'"))
  {
    UnknownKeyFacts();
    UnknownAt(["sda{", " foo=bar", " }"], "sda", " ", "foo", "bar");
    assert "unexpected parameter '" + "foo" + "'" == "unexpected parameter 'foo'";
  }

  /** A second line "time=value" inside the block the first line opened, for a value that is not a number. */
  lemma BadTimeAt(lines: seq<string>, name: string, pad: string, val: string)
    requires |lines| >= 2 && lines[0] == name + "{" && AllLower(name)
    requires lines[1] == pad + ("time" + "=" + val) && AllSpace(pad) && Plain(val) && Atoi(val).None?
    ensures Parsed(lines) == Err(NewError(2, "invalid time value"))
  {
    OpenedBy(lines, name);
    KeysPlain();
    PlainParam("time", val);
    CleanPad(pad, "time" + "=" + val);
    TightParam("time", val);
    InvalidTime(lines, 1, Opened(name), val);
  }

  /** The lines of `TimeNotNumber`, piece by piece. */
  lemma TimeNotNumberFacts()
    ensures "sda{" == "sda" + "{" && AllLower("sda")
    ensures " time=foo" == " " + ("time" + "=" + "foo") && AllSpace(" ") && Plain("foo") && Atoi("foo").None?
  {
    assert !IsDigit('f');
  }

  /** " time=foo" inside a block is not a number of minutes. */
  lemma TimeNotNumber()
    ensures Parsed(["sda{", " time=foo", " }"]) == Err(NewError(2, "invalid time value"))
  {
    TimeNotNumberFacts();
    BadTimeAt(["sda{", " time=foo", " }"], "sda", " ", "foo");
  }

  /** A block closed on the line after it opened. */
  lemma EarlyClose(lines: seq<string>, name: string)
    requires |lines| >= 2 && lines[0] == name + "{" && AllLower(name) && lines[1] == "}"
    ensures Parsed(lines) == Err(NewError(2, "'time' parameter expected"))
  {
    OpenedBy(lines, name);
    CloseClean();
    MissingParameter(lines, 1, Opened(name));
  }

  /** A block closed at once has no time. */
  lemma NoTime()
    ensures Parsed(["sda{", "}"]) == Err(NewError(2, "'time' parameter expected"))
  {
    assert "sda{" == "sda" + "{" && AllLower("sda");
    EarlyClose(["sda{", "}"], "sda");
  }

  /** The state after "name{" and a time line. */
  function Timed(name: string, m: int): ParserState {
    ParserState(true, Device(name, m * Minute, Command("", [])), map[])
  }

  /** A block opened by the first line and given its time by the second. */
  lemma TimedBy(lines: seq<string>, name: string, v: string, m: int)
    requires |lines| >= 2 && lines[0] == name + "{" && AllLower(name)
    requires lines[1] == "" + "time" + " = " + v && Plain(v) && Atoi(v) == Some(m) && 0 < m <= MaxInt64 / Minute
    ensures Run(Step, Start, lines[..2]) == Ok(Timed(name, m))
  {
    OpenedBy(lines, name);
    TimeLine(Opened(name), "", v, m, 2);
    RunAccepts(Step, Start, lines[..1], lines[1], Opened(name), Timed(name, m));
    PrefixSnoc(lines, 1);
  }

  /** A non-empty sequence is its front followed by its last element. */
  lemma LastSnoc<T>(s: seq<T>)
    requires |s| >= 1
    ensures s == s[..|s| - 1] + [s[|s| - 1]]
  {
  }

  /** A prefix one longer is the shorter prefix and the next element. */
  lemma PrefixSnoc<T>(s: seq<T>, k: nat)
    requires k < |s|
    ensures s[..k + 1] == s[..k] + [s[k]]
  {
  }

  /** A block closed after its time line, with no command set. */
  lemma MissingCommandAt(lines: seq<string>, st: ParserState)
    requires |lines| >= 3 && Run(Step, Start, lines[..2]) == Ok(st) && st.open
    requires st.dev.time != 0 && st.dev.cmd.name == "" && lines[2] == "}"
    ensures Parsed(lines) == Err(NewError(3, "'command' parameter expected"))
  {
    CloseClean();
    MissingParameter(lines, 2, st);
  }

  /** The lines of `NoCommand`, piece by piece. */
  lemma NoCommandFacts()
    ensures "sda{" == "sda" + "{" && AllLower("sda")
    ensures "time = 60" == "" + "time" + " = " + "60" && 0 < 60 <= MaxInt64 / Minute
  {
  }

  /** A block with a time and no command. */
  lemma NoCommand()
    ensures Parsed(["sda{", "time = 60", "}"]) == Err(NewError(3, "'command' parameter expected"))
  {
    NoCommandFacts();
    SampleTimes();
    TimedBy(["sda{", "time = 60", "}"], "sda", "60", 60);
    MissingCommandAt(["sda{", "time = 60", "}"], Timed("sda", 60));
  }

  /** The text of the error that config_test.go expects for a block without a command. */
  lemma CommandExpectedText()
    ensures NewError(3, "'command' parameter expected").Error() == "3: " + "'command' parameter expected"
  {
    var msg := "'command' parameter expected";
    assert IntToString(3) == "3";
    assert NewError(3, msg).Error() == "3" + ": " + msg;
  }

  /** The block without a command fails with exactly the text "3: 'command' parameter expected". */
  lemma NoCommandText()
    ensures Parsed(["sda{", "time = 60", "}"]).Err?
    ensures Parsed(["sda{", "time = 60", "}"]).error.Error() == "3: " + "'command' parameter expected"
  {
    NoCommand();
    CommandExpectedText();
  }

  // ---------------------------------------------------------------------------
  // Quirks
  // ---------------------------------------------------------------------------

  /** A line of text followed by a comment is read as the text, with the spaces before the comment kept. */
  lemma TextThenComment(t: string, c: string)
    requires t != [] && !IsSpace(t[0]) && '#' !in t && c != [] && c[0] == '#' && !IsSpace(c[|c| - 1])
    ensures Clean(t + c) == t
  {
    var line := t + c;
    assert line[0] == t[0] && line[|line| - 1] == c[|c| - 1];
    TrimSpaceKeeps(line);
    IndexOfAfter(t, '#', c[1..]);
    assert line == t + ['#'] + c[1..];
  }

  /** A comment after '{' leaves a trailing space behind, so the line is not a block start. */
  lemma CommentAfterBrace()
    ensures Parsed(["sda { # x"]) == Err(NewError(1, "device block start expected"))
  {
    assert "sda { # x" == "sda { " + "# x" && !IsSpace('s') && '#' !in "sda { " && !IsSpace('x');
    TextThenComment("sda { ", "# x");
    assert !HasSuffix("sda { ", "{");
    FirstNotStart("sda { # x");
  }

  /** A lone '{' opens a block whose name is empty. */
  lemma EmptyName()
    ensures Step(Start, "{", 1) == Ok(ParserState(true, Device("", 0, Command("", [])), map[]))
  {
    assert "" + "{" == "{" && AllLower("");
    OpenTight(Start, "", 1);
  }

  /** A block left open by a comment line is cited at that line, the last of the document. */
  lemma UnclosedAt(lines: seq<string>, name: string)
    requires |lines| == 2 && lines[0] == name + "{" && AllLower(name) && lines[1] != [] && lines[1][0] == '#'
    ensures Parsed(lines) == Err(NewError(2, "device block end expected"))
  {
    OpenedBy(lines, name);
    CommentLine(lines[1]);
    IgnoredLine(lines[..1], lines[1]);
    LastSnoc(lines);
    UnclosedBlock(lines);
  }

  /** A document that ends inside a block is cited at its last line, even when that line is a comment. */
  lemma UnclosedAtComment()
    ensures Parsed(["sda{", "# c"]) == Err(NewError(2, "device block end expected"))
  {
    assert "sda{" == "sda" + "{" && AllLower("sda");
    UnclosedAt(["sda{", "# c"], "sda");
  }
}
