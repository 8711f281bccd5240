/**
 * The configuration parser (config/config.go).  A document is a sequence
 * of lines; it is read one line at a time by a small state machine whose
 * state is whether a device block is open, the device being built, and the
 * devices finished so far.  `Parse` is that loop; `Parsed` is the same
 * machine written as a fold of `Step` over the lines, and the lemmas below
 * state what the parser promises in terms of `Parsed`.
 */
module Config {
  import opened Wrappers
  import opened GoStrings
  import opened ConfigError
  import opened LineMachine

  /** `time.Minute`, in nanoseconds (the unit of Go's `time.Duration`). */
  const Minute: int := 60_000_000_000

  datatype Command = Command(name: string, args: seq<string>)

  /** A configured device; `time` is the idle threshold in nanoseconds. */
  datatype Device = Device(name: string, time: int, cmd: Command)

  /** Go's zero `Device{}`. */
  const NoDevice: Device := Device("", 0, Command("", []))

  // ---------------------------------------------------------------------------
  // Line helpers
  // ---------------------------------------------------------------------------

  /** `unicode.IsLower`, restricted to the ASCII letters. */
  predicate IsLowerLetter(c: char) {
    'a' <= c <= 'z'
  }

  predicate AllLower(s: string) {
    forall i :: 0 <= i < |s| ==> IsLowerLetter(s[i])
  }

  /** `isLower`: folds "is a lower-case letter" over the characters; true for the empty string. */
  method IsLower(s: string) returns (l: bool)
    ensures l <==> AllLower(s)
  {
    l := true;
    for k := 0 to |s|
      invariant l <==> AllLower(s[..k])
    {
      assert s[..k + 1] == s[..k] + [s[k]];
      l := l && IsLowerLetter(s[k]);
    }
    assert s[..|s|] == s;
  }

  /** `stripComment`: drops everything from the first '#' on. */
  function StripComment(s: string): (r: string)
    ensures r <= s && '#' !in r
    ensures r == s || s[|r|] == '#'
  {
    var i := IndexOf(s, '#');
    if i != -1 then s[..i] else s
  }

  /** What the parser looks at: the line trimmed, then cut at its comment (and not trimmed again). */
  function Clean(line: string): string {
    StripComment(TrimSpace(line))
  }

  /** `isDevStart`: the line ends with '{' and what comes before it, trimmed, is lower-case letters. */
  predicate IsDevStart(s: string) {
    HasSuffix(s, "{") && AllLower(TrimSpace(TrimSuffix(s, "{")))
  }

  /** The device name of a block-start line. */
  function DevName(s: string): string {
    TrimSpace(TrimSuffix(s, "{"))
  }

  /** `isDevStart`, computed with the `isLower` loop. */
  method CheckDevStart(s: string) returns (b: bool)
    ensures b == IsDevStart(s)
  {
    if HasSuffix(s, "{") {
      b := IsLower(TrimSpace(TrimSuffix(s, "{")));
    } else {
      b := false;
    }
  }

  /** A lower-case name with white space around it and a '{' after it starts a block of that name. */
  lemma DevStartOf(p: string, name: string, q: string)
    requires AllSpace(p) && AllLower(name) && AllSpace(q)
    ensures IsDevStart(p + name + q + "{") && DevName(p + name + q + "{") == name
  {
    var s := p + name + q + "{";
    assert s[|s| - 1..] == "{";
    assert TrimSuffix(s, "{") == p + name + q;
    TrimSpacePadded(p, name, q);
  }

  /** Every block-start line is a lower-case name with white space around it and a '{' after it. */
  lemma DevStartParts(s: string) returns (p: string, q: string)
    requires IsDevStart(s)
    ensures AllSpace(p) && AllSpace(q)
    ensures s == p + DevName(s) + q + "{"
  {
    var x := TrimSuffix(s, "{");
    p, q := TrimSpaceParts(x);
  }

  /** A block-start line holds no '=' (so it never reads as a parameter). */
  lemma DevStartNoEquals(s: string)
    requires IsDevStart(s)
    ensures '=' !in s
  {
    var p, q := DevStartParts(s);
    var name := DevName(s);
    forall i | 0 <= i < |s| ensures s[i] != '=' {
      if i < |p| {
        assert s[i] == p[i];
      } else if i < |p| + |name| {
        assert s[i] == name[i - |p|];
      } else if i < |p| + |name| + |q| {
        assert s[i] == q[i - |p| - |name|];
      }
    }
  }

  /** `isDevEnd`: the line is nothing but one '}'. */
  predicate IsDevEnd(s: string): (b: bool)
    ensures b <==> s == [] || s == "}"
  {
    TrimSuffix(s, "}") == ""
  }

  const KeyValueExpected: string := "key=value format expected"

  /** `parseParam`: the trimmed text on each side of the first '='. */
  function ParseParam(s: string): (r: Result<(string, string), string>)
    ensures r.Err? <==> '=' !in s
    ensures r.Err? ==> r.error == KeyValueExpected
    ensures r.Ok? ==> exists k :: 0 <= k < |s| && s[k] == '=' && '=' !in s[..k]
                                  && r.value == (TrimSpace(s[..k]), TrimSpace(s[k + 1..]))
  {
    var i := IndexOf(s, '=');
    if i == -1 then Err(KeyValueExpected) else Ok((TrimSpace(s[..i]), TrimSpace(s[i + 1..])))
  }

  /** `parseCommand`: the program and its arguments are the pieces of the value between single spaces. */
  function ParseCommand(s: string): (c: Command)
    ensures [c.name] + c.args == Split(s, ' ')
  {
    var ss := Split(s, ' ');
    // strings.Split never returns an empty slice for a non-empty separator,
    // so the source's `len(ss) == 0` branch is dead.
    if |ss| == 0 then Command("", []) else Command(ss[0], ss[1..])
  }

  /** Nothing of the value is lost: joining the program and the arguments with spaces gives it back. */
  lemma ParseCommandJoin(s: string)
    ensures var c := ParseCommand(s); Join([c.name] + c.args, ' ') == s
  {
    JoinSplit(s, ' ');
  }

  /** Reading a command written with single spaces gives the words back in order. */
  lemma ParseCommandOfJoin(words: seq<string>)
    requires |words| >= 1
    requires forall k :: 0 <= k < |words| ==> ' ' !in words[k]
    ensures ParseCommand(Join(words, ' ')) == Command(words[0], words[1..])
  {
    SplitJoin(words, ' ');
  }

  // ---------------------------------------------------------------------------
  // The parser as a fold
  // ---------------------------------------------------------------------------

  /** The parser's state between lines: `open`, `dev` and `devs` of the source. */
  datatype ParserState = ParserState(open: bool, dev: Device, devs: map<string, Device>)

  const Start: ParserState := ParserState(false, NoDevice, map[])

  /** One line, numbered `n` from 1; an error cites `n`. */
  function Step(st: ParserState, line: string, n: int): (r: Result<ParserState, ParseError>)
    ensures r.Err? ==> r.error.line == n
  {
    var l := Clean(line);
    if l == "" then Ok(st)
    else if !st.open then Open(st, l, n)
    else if IsDevEnd(l) then Close(st, n)
    else match ParseParam(l)
      case Err(msg) => Err(NewError(n, msg))
      case Ok(param) => Assign(st, param.0, param.1, n)
  }

  /** A non-empty line outside a block must start one. */
  function Open(st: ParserState, l: string, n: int): (r: Result<ParserState, ParseError>)
    ensures r.Err? ==> r.error.line == n
  {
    if IsDevStart(l) then Ok(ParserState(true, Device(DevName(l), 0, Command("", [])), st.devs))
    else Err(NewError(n, "device block start expected"))
  }

  /** The closing '}' files the open device under its name, replacing any earlier one. */
  function Close(st: ParserState, n: int): (r: Result<ParserState, ParseError>)
    ensures r.Err? ==> r.error.line == n
  {
    if st.dev.time == 0 then Err(NewError(n, "'time' parameter expected"))
    else if st.dev.cmd.name == "" then Err(NewError(n, "'command' parameter expected"))
    else Ok(ParserState(false, NoDevice, st.devs[st.dev.name := st.dev]))
  }

  /** `time.Duration(n) * time.Minute`, which wraps around like every `int64` product. */
  function Minutes(n: int): int {
    Wrap64(n * Minute)
  }

  /** A `key = value` line inside a block sets `time` or `command`, replacing any earlier value. */
  function Assign(st: ParserState, key: string, val: string, n: int): (r: Result<ParserState, ParseError>)
    ensures r.Err? ==> r.error.line == n
  {
    if key == "time" then
      var t := Atoi(val);
      if t.None? || t.value <= 0 then Err(NewError(n, "invalid time value"))
      else Ok(st.(dev := st.dev.(time := Minutes(t.value))))
    else if key == "command" then Ok(st.(dev := st.dev.(cmd := ParseCommand(val))))
    else Err(NewError(n, "unexpected parameter '" + key + "'"))
  }

  /** The outcome of parsing a whole document; a block still open at the end is cited at the last line. */
  function Parsed(lines: seq<string>): Result<map<string, Device>, ParseError> {
    match Run(Step, Start, lines)
    case Err(e) => Err(e)
    case Ok(st) => if st.open then Err(NewError(|lines|, "device block end expected")) else Ok(st.devs)
  }

  // ---------------------------------------------------------------------------
  // The loop
  // ---------------------------------------------------------------------------

  /** `Parse`: reads the lines in order, stopping at the first error. */
  method Parse(lines: seq<string>) returns (r: Result<map<string, Device>, ParseError>)
    ensures r == Parsed(lines)
  {
    var devs: map<string, Device> := map[];
    var open := false;
    var dev := NoDevice;

    for i := 0 to |lines|
      invariant Run(Step, Start, lines[..i]) == Ok(ParserState(open, dev, devs))
    {
      RunNext(Step, Start, lines, i);
      var next := ParseLine(ParserState(open, dev, devs), lines[i], i + 1);
      match next
      case Err(e) =>
        RunStops(Step, Start, lines, i + 1);
        return Err(e);
      case Ok(ParserState(o, d, ds)) =>
        open, dev, devs := o, d, ds;
    }
    assert lines[..|lines|] == lines;
    if open {
      return Err(NewError(|lines|, "device block end expected"));
    }
    return Ok(devs);
  }

  /** The body of the loop of `Parse` for the line numbered `n`: the state after it, or the error it raises. */
  method ParseLine(st: ParserState, raw: string, n: int) returns (r: Result<ParserState, ParseError>)
    ensures r == Step(st, raw, n)
  {
    var line := StripComment(TrimSpace(raw));
    if line == "" {
      return Ok(st);
    }
    if !st.open {
      r := StartBlock(st, line, n);
    } else if IsDevEnd(line) {
      r := EndBlock(st, n);
    } else {
      var param := ParseParam(line);
      if param.Err? {
        return Err(NewError(n, param.error));
      }
      var (name, val) := param.value;
      r := SetParam(st, name, val, n);
    }
  }

  /** A line outside a block. */
  method StartBlock(st: ParserState, line: string, n: int) returns (r: Result<ParserState, ParseError>)
    ensures r == Open(st, line, n)
  {
    var start := CheckDevStart(line);
    if !start {
      return Err(NewError(n, "device block start expected"));
    }
    var name := TrimSpace(TrimSuffix(line, "{"));
    return Ok(ParserState(true, Device(name, 0, Command("", [])), st.devs));
  }

  /** The line that closes a block. */
  method EndBlock(st: ParserState, n: int) returns (r: Result<ParserState, ParseError>)
    ensures r == Close(st, n)
  {
    if st.dev.time == 0 {
      return Err(NewError(n, "'time' parameter expected"));
    }
    if st.dev.cmd.name == "" {
      return Err(NewError(n, "'command' parameter expected"));
    }
    return Ok(ParserState(false, NoDevice, st.devs[st.dev.name := st.dev]));
  }

  /** A parameter line inside a block. */
  method SetParam(st: ParserState, name: string, val: string, n: int) returns (r: Result<ParserState, ParseError>)
    ensures r == Assign(st, name, val, n)
  {
    var dev := st.dev;
    if name == "time" {
      var t := Atoi(val);
      if t.None? || t.value <= 0 {
        return Err(NewError(n, "invalid time value"));
      }
      dev := dev.(time := Wrap64(t.value * Minute));
    } else if name == "command" {
      dev := dev.(cmd := ParseCommand(val));
    } else {
      return Err(NewError(n, "unexpected parameter '" + name + "'"));
    }
    return Ok(st.(dev := dev));
  }

  // ---------------------------------------------------------------------------
  // Where errors are reported
  // ---------------------------------------------------------------------------

  /** A line on which the machine fails ends the parse with that line's error, citing its number. */
  lemma FailsOn(lines: seq<string>, k: nat, st: ParserState)
    requires k < |lines| && Run(Step, Start, lines[..k]) == Ok(st) && Step(st, lines[k], k + 1).Err?
    ensures Parsed(lines) == Err(Step(st, lines[k], k + 1).error)
    ensures Parsed(lines).error.line == k + 1
  {
    FailsAt(Step, Start, lines, k, st);
  }

  /**
   * Every error cites a line of the document: either the 1-based number of
   * the line the machine failed on, with every line before it accepted, or,
   * for a block left open, the number of the last line.
   */
  lemma ErrorLocated(lines: seq<string>)
    requires Parsed(lines).Err?
    ensures 1 <= Parsed(lines).error.line <= |lines|
    ensures || (exists k :: (0 <= k < |lines| && Run(Step, Start, lines[..k]).Ok?
                             && Step(Run(Step, Start, lines[..k]).value, lines[k], k + 1) == Err(Parsed(lines).error)))
            || (Run(Step, Start, lines).Ok? && Run(Step, Start, lines).value.open
                && Parsed(lines).error == NewError(|lines|, "device block end expected"))
  {
    if Run(Step, Start, lines).Err? {
      var k := FirstFailure(Step, Start, lines);
    }
  }

  // ---------------------------------------------------------------------------
  // Comments and blank lines
  // ---------------------------------------------------------------------------

  /** A line is ignored exactly when, trimmed, it is empty or starts a comment. */
  lemma CleanEmpty(line: string)
    ensures Clean(line) == "" <==> TrimSpace(line) == "" || TrimSpace(line)[0] == '#'
  {
  }

  /** A line without '#' and without white space at its ends is read as it is. */
  lemma CleanKeeps(line: string)
    requires line != [] ==> !IsSpace(line[0]) && !IsSpace(line[|line| - 1])
    requires '#' !in line
    ensures Clean(line) == line
  {
    TrimSpaceKeeps(line);
  }

  /** A line whose first character is '#' is a comment. */
  lemma CommentLine(line: string)
    requires line != [] && line[0] == '#'
    ensures Clean(line) == ""
  {
    assert TrimLeftSpace(line) == line;
    TrimRightSpaceKeepsFirst(line);
  }

  /** A document of comments and blank lines parses to no devices. */
  lemma OnlyComments(lines: seq<string>)
    requires forall k :: 0 <= k < |lines| ==> Clean(lines[k]) == ""
    ensures Parsed(lines) == Ok(map[])
  {
    forall k | 0 <= k < |lines| ensures Step(Start, lines[k], k + 1) == Ok(Start) {
    }
    RunIdle(Step, Start, lines);
  }

  /** An ignored line can be added after any lines without consequence. */
  lemma IgnoredLine(lines: seq<string>, line: string)
    requires Clean(line) == ""
    ensures Run(Step, Start, lines + [line]) == Run(Step, Start, lines)
  {
    RunSnoc(Step, Start, lines, line);
  }

  // ---------------------------------------------------------------------------
  // What each kind of bad line reports
  // ---------------------------------------------------------------------------

  /** Outside a block, a line that is not "<lower-case name> {" is rejected at its number. */
  lemma BlockStartExpected(lines: seq<string>, k: nat, st: ParserState)
    requires k < |lines| && Run(Step, Start, lines[..k]) == Ok(st) && !st.open
    requires Clean(lines[k]) != "" && !IsDevStart(Clean(lines[k]))
    ensures Parsed(lines) == Err(NewError(k + 1, "device block start expected"))
  {
    FailsOn(lines, k, st);
  }

  /** Inside a block, a line without '=' that does not close it is rejected as not key=value. */
  lemma KeyValueRequired(lines: seq<string>, k: nat, st: ParserState)
    requires k < |lines| && Run(Step, Start, lines[..k]) == Ok(st) && st.open
    requires Clean(lines[k]) != "}" && Clean(lines[k]) != "" && '=' !in Clean(lines[k])
    ensures Parsed(lines) == Err(NewError(k + 1, KeyValueExpected))
  {
    FailsOn(lines, k, st);
  }

  /** Blocks do not nest: a block-start line inside a block is rejected as not key=value. */
  lemma NestedBlockRejected(lines: seq<string>, k: nat, st: ParserState)
    requires k < |lines| && Run(Step, Start, lines[..k]) == Ok(st) && st.open
    requires IsDevStart(Clean(lines[k]))
    ensures Parsed(lines) == Err(NewError(k + 1, KeyValueExpected))
  {
    DevStartNoEquals(Clean(lines[k]));
    KeyValueRequired(lines, k, st);
  }

  /** Inside a block, a key other than `time` and `command` is rejected by name. */
  lemma UnexpectedParameter(lines: seq<string>, k: nat, st: ParserState, key: string, val: string)
    requires k < |lines| && Run(Step, Start, lines[..k]) == Ok(st) && st.open
    requires Clean(lines[k]) != "}" && ParseParam(Clean(lines[k])) == Ok((key, val))
    requires key != "time" && key != "command"
    ensures Parsed(lines) == Err(NewError(k + 1, "unexpected parameter '" + key + "'"))
  {
    FailsOn(lines, k, st);
  }

  /** A `time` value that is not an integer above zero is rejected. */
  lemma InvalidTime(lines: seq<string>, k: nat, st: ParserState, val: string)
    requires k < |lines| && Run(Step, Start, lines[..k]) == Ok(st) && st.open
    requires Clean(lines[k]) != "}" && ParseParam(Clean(lines[k])) == Ok(("time", val))
    requires Atoi(val).None? || Atoi(val).value <= 0
    ensures Parsed(lines) == Err(NewError(k + 1, "invalid time value"))
  {
    assert Assign(st, "time", val, k + 1) == Err(NewError(k + 1, "invalid time value"));
    FailsOn(lines, k, st);
  }

  /** Closing a block reports a missing `time` first, and a missing `command` only when the time is there. */
  lemma MissingParameter(lines: seq<string>, k: nat, st: ParserState)
    requires k < |lines| && Run(Step, Start, lines[..k]) == Ok(st) && st.open
    requires Clean(lines[k]) == "}"
    requires st.dev.time == 0 || st.dev.cmd.name == ""
    ensures st.dev.time == 0 ==> Parsed(lines) == Err(NewError(k + 1, "'time' parameter expected"))
    ensures st.dev.time != 0 ==> Parsed(lines) == Err(NewError(k + 1, "'command' parameter expected"))
  {
    FailsOn(lines, k, st);
  }

  /** A block still open after the last line is reported at the last line. */
  lemma UnclosedBlock(lines: seq<string>)
    requires Run(Step, Start, lines).Ok? && Run(Step, Start, lines).value.open
    ensures Parsed(lines) == Err(NewError(|lines|, "device block end expected"))
    ensures |lines| >= 1
  {
  }

  // ---------------------------------------------------------------------------
  // Thresholds
  // ---------------------------------------------------------------------------

  /** Up to `MaxInt64 / Minute` minutes, the threshold is exactly that many minutes, and positive. */
  lemma MinutesExact(n: int)
    requires 0 < n <= MaxInt64 / Minute
    ensures Minutes(n) == n * Minute > 0
  {
  }

  /** The product wraps: 2^53 minutes is a multiple of 2^64 nanoseconds, so it gives a zero threshold. */
  lemma MinutesWrapToZero()
    ensures Minutes(0x20_0000_0000_0000) == 0
  {
    assert 0x20_0000_0000_0000 * Minute == 0x1_0000_0000_0000_0000 * 29296875;
  }

  /** The product also wraps to negative values: 153722868 minutes is -9223371993709551616 ns. */
  lemma MinutesWrapNegative()
    ensures Minutes(153722868) == -9223371993709551616 < 0
  {
    assert 153722868 * Minute == 0x1_0000_0000_0000_0000 - 9223371993709551616;
  }

  /**
   * The `n <= 0` check of config.go:72 looks at the minutes, not at the
   * product: a time that reads as 153722868 minutes is accepted and gives a
   * negative threshold.
   */
  lemma NegativeTimeAccepted(st: ParserState, v: string, n: int)
    requires Atoi(v) == Some(153722868)
    ensures Assign(st, "time", v, n) == Ok(st.(dev := st.dev.(time := -9223371993709551616)))
  {
    MinutesWrapNegative();
  }

  /** The closing check asks only for a non-zero time, so a device with a negative threshold is stored. */
  lemma NegativeTimeStored(st: ParserState, n: int)
    requires st.open && st.dev.time < 0 && st.dev.cmd.name != ""
    ensures Close(st, n).Ok? && st.dev.name in Close(st, n).value.devs
    ensures Close(st, n).value.devs[st.dev.name].time < 0
  {
  }

  // ---------------------------------------------------------------------------
  // Well-formed results
  // ---------------------------------------------------------------------------

  /** What every finished device satisfies. */
  predicate GoodDevice(key: string, d: Device) {
    d.name == key && AllLower(key) && d.time != 0 && d.cmd.name != ""
  }

  /** The invariant of the machine: finished devices are good, and an open block has a lower-case name. */
  predicate GoodState(st: ParserState) {
    && (forall key :: key in st.devs ==> GoodDevice(key, st.devs[key]))
    && (st.open ==> AllLower(st.dev.name))
  }

  lemma OpenGood(st: ParserState, l: string, n: int)
    requires GoodState(st) && Open(st, l, n).Ok?
    ensures GoodState(Open(st, l, n).value)
  {
  }

  lemma CloseGood(st: ParserState, n: int)
    requires GoodState(st) && st.open && Close(st, n).Ok?
    ensures GoodState(Close(st, n).value)
  {
    var devs := st.devs[st.dev.name := st.dev];
    assert Close(st, n).value.devs == devs;
    assert GoodDevice(st.dev.name, st.dev);
  }

  lemma AssignGood(st: ParserState, key: string, val: string, n: int)
    requires GoodState(st) && st.open && Assign(st, key, val, n).Ok?
    ensures GoodState(Assign(st, key, val, n).value)
  {
  }

  /** Every accepted line keeps the invariant. */
  lemma StepGood(st: ParserState, line: string, n: int)
    requires GoodState(st) && Step(st, line, n).Ok?
    ensures GoodState(Step(st, line, n).value)
  {
    var l := Clean(line);
    if l == "" {
    } else if !st.open {
      OpenGood(st, l, n);
    } else if IsDevEnd(l) {
      CloseGood(st, n);
    } else {
      var param := ParseParam(l).value;
      AssignGood(st, param.0, param.1, n);
    }
  }

  /**
   * Every device of a successful parse is stored under its own name, has a
   * lower-case name, a non-zero threshold and a non-empty program.
   */
  lemma ParsedGood(lines: seq<string>)
    requires Parsed(lines).Ok?
    ensures forall key :: key in Parsed(lines).value ==> GoodDevice(key, Parsed(lines).value[key])
  {
    forall st, line, n | GoodState(st) && Step(st, line, n).Ok? ensures GoodState(Step(st, line, n).value) {
      StepGood(st, line, n);
    }
    RunKeeps(Step, Start, GoodState, lines);
  }
}
