/**
 * The configuration parser with the time check config/config.go:72 evidently
 * intends: a threshold of `n` minutes is accepted only when `n * time.Minute`
 * fits in `int64`, so every parsed threshold is positive.  The code as written
 * checks only `n <= 0`, and the product then wraps around (`Config.Minutes`,
 * `Config.NegativeTimeAccepted`).  Everything else is the parser of `Config`.
 */
module ConfigChecked {
  import opened Wrappers
  import opened GoStrings
  import opened ConfigError
  import opened LineMachine
  import opened Config
  import opened ConfigRender

  /** `Assign` with the overflowing times also rejected as "invalid time value". */
  function AssignChecked(st: ParserState, key: string, val: string, n: int): (r: Result<ParserState, ParseError>)
    ensures r.Err? ==> r.error.line == n
  {
    if key == "time" then
      var t := Atoi(val);
      if t.None? || t.value <= 0 || t.value > MaxInt64 / Minute then Err(NewError(n, "invalid time value"))
      else Ok(st.(dev := st.dev.(time := Minutes(t.value))))
    else Assign(st, key, val, n)
  }

  /** `Step`, setting parameters with `AssignChecked`. */
  function StepChecked(st: ParserState, line: string, n: int): (r: Result<ParserState, ParseError>)
    ensures r.Err? ==> r.error.line == n
  {
    var l := Clean(line);
    if l == "" then Ok(st)
    else if !st.open then Open(st, l, n)
    else if IsDevEnd(l) then Close(st, n)
    else match ParseParam(l)
      case Err(msg) => Err(NewError(n, msg))
      case Ok(param) => AssignChecked(st, param.0, param.1, n)
  }

  /** `Parsed`, with `StepChecked`. */
  function ParsedChecked(lines: seq<string>): Result<map<string, Device>, ParseError> {
    match Run(StepChecked, Start, lines)
    case Err(e) => Err(e)
    case Ok(st) => if st.open then Err(NewError(|lines|, "device block end expected")) else Ok(st.devs)
  }

  /** The invariant of the corrected machine: `GoodState`, no negative time in the open block, and positive stored times. */
  predicate PositiveState(st: ParserState) {
    && GoodState(st)
    && st.dev.time >= 0
    && forall key :: key in st.devs ==> st.devs[key].time > 0
  }

  /** Where the corrected assignment succeeds, the code's does too, with the same state. */
  lemma AssignCheckedAgrees(st: ParserState, key: string, val: string, n: int)
    requires AssignChecked(st, key, val, n).Ok?
    ensures Assign(st, key, val, n) == AssignChecked(st, key, val, n)
  {
  }

  /** Where the corrected step succeeds, the code's does too, with the same state. */
  lemma StepCheckedAgrees(st: ParserState, line: string, n: int)
    requires StepChecked(st, line, n).Ok?
    ensures Step(st, line, n) == StepChecked(st, line, n)
  {
    var l := Clean(line);
    if l != "" && st.open && !IsDevEnd(l) && ParseParam(l).Ok? {
      var param := ParseParam(l).value;
      AssignCheckedAgrees(st, param.0, param.1, n);
    }
  }

  /** An accepted time is a positive number of nanoseconds. */
  lemma AssignCheckedPositive(st: ParserState, key: string, val: string, n: int)
    requires PositiveState(st) && st.open && AssignChecked(st, key, val, n).Ok?
    ensures PositiveState(AssignChecked(st, key, val, n).value)
  {
    AssignCheckedAgrees(st, key, val, n);
    AssignGood(st, key, val, n);
    if key == "time" {
      MinutesExact(Atoi(val).value);
    }
  }

  /** Every accepted line keeps the invariant. */
  lemma StepCheckedPositive(st: ParserState, line: string, n: int)
    requires PositiveState(st) && StepChecked(st, line, n).Ok?
    ensures PositiveState(StepChecked(st, line, n).value)
  {
    StepCheckedAgrees(st, line, n);
    StepGood(st, line, n);
    var l := Clean(line);
    if l != "" && st.open && !IsDevEnd(l) {
      var param := ParseParam(l).value;
      AssignCheckedPositive(st, param.0, param.1, n);
    }
  }

  /** Every device of a successful corrected parse is good and has a positive threshold. */
  lemma ParsedCheckedPositive(lines: seq<string>)
    requires ParsedChecked(lines).Ok?
    ensures forall key :: key in ParsedChecked(lines).value ==>
              GoodDevice(key, ParsedChecked(lines).value[key]) && ParsedChecked(lines).value[key].time > 0
  {
    forall st, line, n | PositiveState(st) && StepChecked(st, line, n).Ok? ensures PositiveState(StepChecked(st, line, n).value) {
      StepCheckedPositive(st, line, n);
    }
    RunKeeps(StepChecked, Start, PositiveState, lines);
  }

  /** A document the corrected parser accepts is one the code accepts, with the same devices. */
  lemma ParsedCheckedAgrees(lines: seq<string>)
    requires ParsedChecked(lines).Ok?
    ensures Parsed(lines) == ParsedChecked(lines)
  {
    forall st, line, n | StepChecked(st, line, n).Ok? ensures Step(st, line, n) == StepChecked(st, line, n) {
      StepCheckedAgrees(st, line, n);
    }
    RunAgrees(Step, StepChecked, Start, lines);
  }

  /** A time line whose minutes overflow: the code stores the wrapped product, the corrected parser rejects the line. */
  lemma OverflowRejected(st: ParserState, pad: string, v: string, m: int, n: int)
    requires st.open && AllSpace(pad) && Plain(v) && Atoi(v) == Some(m) && m > MaxInt64 / Minute
    ensures Step(st, pad + "time" + " = " + v, n) == Ok(st.(dev := st.dev.(time := Minutes(m))))
    ensures StepChecked(st, pad + "time" + " = " + v, n) == Err(NewError(n, "invalid time value"))
  {
    KeysPlain();
    ParamClean(pad, "time", v);
    ParamSplit("time", v);
  }
}
