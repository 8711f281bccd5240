# hdi — a verified model of the disk idle daemon

hdi issues a spin-down command to each configured disk once the disk has
been idle for longer than its configured threshold. This project models
the three parts that do this:

- **the configuration parser** (`config`), which reads device blocks such as

      sda {
          time = 60
          command = /sbin/hdparm -y /dev/sda
      }

  into a map from device name to `Device{name, time, cmd}`. Errors carry a
  line number, and their text is "<line>: <message>".
- **the `/proc/diskstats` reader** (`diskstats`), which turns each line
  into a `DiskStat{dev, read, write}` taken from columns 2, 5 and 9.
- **the monitor loop** (`main.go`):
  - `minDelay` picks the polling delay.
  - Each tick of `mainLoop` compares each disk's counters with the last
    ones seen.
  - A tick resets the idle clock on activity, and issues the spin-down
    command once the idle time exceeds the threshold.

Modules, one per concern:

| module | file | models |
|---|---|---|
| `Wrappers` | wrappers.dfy | `Option` and `Result` |
| `GoStrings` | go_strings.dfy | the parts of Go's `strings`, `strconv` and `unicode` that the code calls |
| `ConfigError` | config_error.dfy | config/error.go |
| `LineMachine` | line_machine.dfy | a scanner loop over numbered lines, as a left fold that can stop early |
| `Config` | config.dfy | config/config.go |
| `ConfigChecked` | config_checked.dfy | the parser of config/config.go with the time check it evidently intends (see Findings) |
| `ConfigRender` | config_render.dfy | a writer of configuration documents, used to prove that the parser reads back any well-formed document |
| `ConfigExamples` | config_examples.dfy | the documents of config/config_test.go and some quirks of the parser |
| `Diskstats` | diskstats.dfy | diskstats/diskstats.go |
| `Monitor` | monitor.dfy | `minDelay`, the `State` record and one tick of `mainLoop` in main.go |

How the model is built:

- **Configuration parser.**
  - `Config.Parse` is the scanning loop, kept as a method over the input's lines.
  - It is proved equal to `Parsed`, a fold of the one-line step `Step` over the lines.
  - The error cases, the invariants and the round trip are lemmas about `Parsed`.
  - The loop body is split into the methods `ParseLine`, `StartBlock`, `EndBlock` and `SetParam`. Each is proved equal to its function (`Step`, `Open`, `Close`, `Assign`). The methods are the loop's code; the functions are what the lemmas reason about. The split keeps each proof within the verifier's resource limit.
  - Likewise, `CheckDevStart` computes the block-start test with the `IsLower` loop, and it is proved equal to the predicate `IsDevStart`.
- **Diskstats reader.**
  - `Diskstats.SplitWhitespace` and `Diskstats.Parse` are loops.
  - They are proved equal to `Tokens` and to `Collect`.
- **Monitor.**
  - `Monitor.MinDelay` is the loop over the configuration map. Go's map order is arbitrary, so the loop picks keys by choice, and it reports the order it used as a ghost result.
  - `Monitor.Monitor` is the loop's state: the `states` map, updated in place by `Pass`, one tick.
  - The method `Update` is the loop body for one disk, proved equal to the functions `Advance` and `Due`, which the lemmas use.
  - `AfterPass` and `Issued` specify a tick. The lemmas about them, and about `Passes` (several ticks), state the spin-down rules.

Units and integers:

- Times are integers in nanoseconds, as Go's `time.Duration`.
- Go's zero `time.Time` (the year 1) is instant 0, and the current time `now`, a parameter, counts nanoseconds from it.
- `time.Duration(n) * time.Minute` wraps around at 64 bits, as Go's `int64` does (`Config.Minutes`).
- `Time.Sub` saturates at the `int64` bounds (`Monitor.Elapsed`).
- Integer division truncates toward zero (`Monitor.Quo`).

## Model

| member | source | states |
|---|---|---|
| Config.Parse | config/config.go:26-94 | The loop over the lines returns exactly `Parsed(lines)`: the devices of every closed block, or the first error with its line number. |
| Config.Parsed | config/config.go:26-94 | The definition the loop is proved against: the one-line steps folded over the lines, stopping at the first error. A document still inside a block at its end fails with "device block end expected", cited at the number of lines (`i+1` after the loop, line 90). Its properties are the lemmas below. |
| Config.Clean | config/config.go:35 | The line as the step sees it: trimmed first, then cut at its first '#' (its meaning: `CleanEmpty`, `CleanKeeps`). |
| Config.Open | config/config.go:40-49 | Outside a block: a block start opens a fresh device named by the text before '{', trimmed; anything else fails with "device block start expected". Every error carries the given line number. |
| Config.Close | config/config.go:51-63 | Closing: no time fails with "'time' parameter expected", then no command name with "'command' parameter expected"; otherwise the device is stored under its name, replacing any earlier one, and the block closes. Every error carries the given line number. |
| Config.Assign | config/config.go:69-82 | `time` takes an `Atoi` value above 0, stored as `Minutes`, else "invalid time value"; `command` takes the split words; any other key fails with "unexpected parameter '<key>'". Every error carries the given line number. |
| Config.ParseLine | config/config.go:34-84 | One iteration: the line is trimmed, cut at '#', skipped when empty, and otherwise opens a block, closes it or sets a parameter, as `Step` specifies. |
| Config.StartBlock | config/config.go:40-49 | Outside a block, a non-empty line must be a block start; it opens a fresh device named by the text before '{', else "device block start expected". |
| Config.EndBlock | config/config.go:51-63 | Closing a block requires a non-zero time, then a command name; the device is then stored under its name and the block is closed. |
| Config.SetParam | config/config.go:69-82 | `time` must be an integer > 0 and is stored in minutes; `command` is split into words; any other key is "unexpected parameter '<key>'". |
| Config.Step | config/config.go:34-84 | An error from one line always carries that line's number. |
| Config.IsLower | config/config.go:118-126 | The loop returns true exactly when every character is a lower-case letter (true for the empty string). |
| Config.CheckDevStart | config/config.go:106-112 | The result is true exactly when the line ends in '{' and what precedes it, trimmed, is lower case. |
| Config.IsDevStart | config/config.go:106-112 | The block-start test: the line ends in '{' and the rest, trimmed, is lower case (its meaning in both directions: `DevStartOf`, `DevStartParts`). |
| Config.DevName | config/config.go:42-43 | The name of a block start: the line without its '{', trimmed (what it yields: `DevStartOf`). |
| Config.DevStartOf | config/config.go:106-112 | Every lower-case name, padded with white space and followed by '{', is a block start naming exactly that name. |
| Config.DevStartParts | config/config.go:42-43 | Every block start is its name with white space around it, then '{' (the converse of DevStartOf). |
| Config.DevStartNoEquals | config/config.go:106-112 | A block start never holds '=', so the same line inside a block is "key=value format expected". |
| Config.IsDevEnd | config/config.go:114-116 | `isDevEnd` holds exactly for "" and "}". |
| Config.StripComment | config/config.go:128-134 | The result is a prefix of the line with no '#', and it stops at the first '#' when there is one. |
| Config.CleanEmpty | config/config.go:35-38 | A line is skipped exactly when, trimmed, it is empty or starts with '#'. |
| Config.CleanKeeps | config/config.go:35 | A line with no comment and no white space at its ends is seen unchanged. |
| Config.CommentLine | config/config.go:35-38 | A line that starts with '#' is skipped. |
| Config.ParseParam | config/config.go:136-143 | The result is an error exactly when there is no '='; otherwise it is the trimmed text before and after the first '='. |
| Config.ParseCommand | config/config.go:145-152 | The name followed by the arguments is the line split at every single space, empty words included. |
| Config.ParseCommandJoin | config/config.go:145-152 | Joining the name and the arguments with single spaces gives back the value. |
| Config.ParseCommandOfJoin | config/config.go:145-152 | Words without spaces, joined by single spaces, are read back as the name and then the arguments. |
| Config.FailsOn | config/config.go:33-85 | When line k is the first to fail, the document's error is that line's error, numbered k+1. |
| Config.ErrorLocated | config/config.go:26-94 | Every error cites a line between 1 and the number of lines: either the line whose step failed after all earlier lines succeeded, or the last line for an unclosed block. |
| Config.OnlyComments | config/config.go:36-38 | A document of empty and comment lines has no devices. |
| Config.IgnoredLine | config/config.go:36-38 | Adding a skipped line changes nothing. |
| Config.BlockStartExpected | config/config.go:46-48 | Outside a block, text that is not a block start fails with "device block start expected" at its line. |
| Config.KeyValueRequired | config/config.go:65-68 | Inside a block, text without '=' that is not "}" fails with "key=value format expected" at its line. |
| Config.NestedBlockRejected | config/config.go:51-68 | A block start inside a block fails with "key=value format expected": blocks do not nest. |
| Config.UnexpectedParameter | config/config.go:79-81 | A key other than `time` and `command` fails with "unexpected parameter '<key>'". |
| Config.InvalidTime | config/config.go:70-75 | A time that is not an integer, or not above 0, fails with "invalid time value". |
| Config.MissingParameter | config/config.go:51-59 | Closing a block without a time fails with "'time' parameter expected"; with a time but no command, with "'command' parameter expected". |
| Config.UnclosedBlock | config/config.go:89-91 | A document that ends inside a block fails, citing its last line. |
| Config.MinutesExact | config/config.go:76 | A time of n minutes is n·60·10⁹ ns, and it is positive while that fits in 64 bits. |
| Config.Minutes | config/config.go:76 | `time.Duration(n) * time.Minute` with Go's 64-bit wrap-around (its meaning: `MinutesExact`, `MinutesWrapToZero`, `GoStrings.Wrap64`). |
| Config.MinutesWrapToZero | config/config.go:76 | 2⁵³ minutes wraps around to a zero duration, the value that the closing check reads as "no time". |
| Config.OpenGood | config/config.go:40-45 | Opening a block keeps the parser state's invariant, and the open device's name is lower case. |
| Config.CloseGood | config/config.go:51-63 | Closing a block keeps the invariant: every stored device sits under its own name and has a non-zero time and a command name. |
| Config.AssignGood | config/config.go:69-82 | Setting a parameter keeps the invariant. |
| Config.StepGood | config/config.go:34-84 | Every successful line keeps the invariant. |
| Config.ParsedGood | config/config.go:26-94 | Every parsed device is stored under its own lower-case name, with a non-zero time and a non-empty command name. |
| Config.IsLowerLetter | config/config.go:122 | `unicode.IsLower` on ASCII: the letters 'a' to 'z' (a predicate; its meaning is used by `Config.AllLower` and `Config.CheckDevStart`). |
| Config.MinutesWrapNegative | config/config.go:76 | 153722868 minutes wraps around to −9223371993709551616 ns, a negative duration. |
| Config.NegativeTimeAccepted | config/config.go:70-76 | A "time" value that reads as 153722868 passes the `n <= 0` check and sets the open device's time to that negative duration. |
| Config.NegativeTimeStored | config/config.go:51-61 | Closing a block whose time is negative succeeds and stores the device with that negative time, since the closing check only rejects 0. |
| ConfigChecked.AssignChecked | config/config.go:69-82 | Setting a parameter as intended: a time that is not a number, not positive, or too large for n minutes to fit in 64 bits fails at the given line with "invalid time value"; other keys as in `Config.Assign`. |
| ConfigChecked.StepChecked | config/config.go:34-84 | One line as in `Config.Step`, with `AssignChecked` for parameters; every error cites the given line. |
| ConfigChecked.ParsedChecked | config/config.go:26-94 | The corrected parser: the scan with `StepChecked`, then the unclosed-block check (its meaning: `ParsedCheckedPositive`, `ParsedCheckedAgrees`). |
| ConfigChecked.AssignCheckedAgrees | config/config.go:69-82 | Wherever the corrected assignment succeeds, the code as written gives the same state. |
| ConfigChecked.StepCheckedAgrees | config/config.go:34-84 | Wherever the corrected step succeeds, the code as written gives the same state. |
| ConfigChecked.AssignCheckedPositive | config/config.go:69-82 | In an open block, a successful corrected assignment keeps `Config.GoodState`, a non-negative open time and positive stored times. |
| ConfigChecked.StepCheckedPositive | config/config.go:34-84 | Every successful corrected line keeps the same invariant: `Config.GoodState`, a non-negative open time and positive stored times. |
| ConfigChecked.ParsedCheckedPositive | config/config.go:26-94 | Every device the corrected parser returns is stored under its own lower-case name with a positive time and a command name. |
| ConfigChecked.ParsedCheckedAgrees | config/config.go:26-94 | Wherever the corrected parser succeeds, the code as written returns the same map. |
| ConfigChecked.OverflowRejected | config/config.go:70-76 | A plain "time = v" line with v above 153722867 is accepted by the code as written with a wrapped time and rejected by the corrected step with "invalid time value" at that line. |
| ConfigError.NewError | config/error.go:10-12 | The error keeps the line and the message given. |
| ConfigError.ParseError.Error | config/error.go:14-16 | The text is longer than the message plus ": " and ends with the message. |
| ConfigError.ErrorRoundTrip | config/error.go:14-16 | For a line ≥ 0, cutting the text at its first ": " gives exactly the line's decimal text (`NatToString`, no leading zeros), whose value is the line, and then the message. |
| ConfigError.ErrorNegativeLine | config/error.go:14-16 | For a negative line, the text is '-', the line's magnitude in decimal, ": " and the message. |
| LineMachine.Run | config/config.go:33-85 | The scanner loop as a fold that stops at the first error (its meaning: `RunSnoc`, `RunStops`, `FirstFailure`). |
| LineMachine.RunAgrees | config/config.go:33-85 | Two steps that agree wherever the second succeeds give the same scan wherever the second's scan succeeds. |
| LineMachine.RunSnoc | config/config.go:33-85 | Scanning one more line applies the step to the state so far, with the next line number. |
| LineMachine.RunStops | config/config.go:33-85 | Once a prefix fails, the whole scan fails with that error. |
| LineMachine.FirstFailure | config/config.go:33-85 | A failed scan has a first failing line, and every line before it succeeded. |
| LineMachine.RunKeeps | config/config.go:33-85 | An invariant that every successful step keeps holds after a successful scan. |
| ConfigRender.ParamSplit | config/config.go:136-143 | "key = value" with plain key and value is read as exactly that key and value. |
| ConfigRender.TimeLine | config/config.go:70-76 | A "time = v" line, at any indentation and for v the decimal of m > 0, sets the time to m minutes. |
| ConfigRender.CommandLine | config/config.go:77-78 | A "command = v" line, at any indentation, sets the command to the words of v. |
| ConfigRender.TimeParam | config/config.go:70-76 | The rendered time line sets the time to m minutes. |
| ConfigRender.CommandParam | config/config.go:77-78 | The rendered command line sets the command to the words of v. |
| ConfigRender.NameLine | config/config.go:40-45 | "name {" opens a fresh device called `name`. |
| ConfigRender.EndLine | config/config.go:51-63 | "}" after a time and a command stores the device under its name and closes the block. |
| ConfigRender.TimeValue | config/config.go:71 | `strconv.Atoi` reads back the decimal of every m in range. |
| ConfigRender.CommandValue | config/config.go:145-152 | Words joined by single spaces are read back as the command's name and arguments. |
| ConfigRender.RunLines | config/config.go:33-85 | A name line, a time line, a command line and "}" add exactly one device to the parsed map. |
| ConfigRender.RunBlock | config/config.go:33-85 | A rendered block adds exactly its device to the parsed map. |
| ConfigRender.RenderRuns | config/config.go:33-85 | A rendered document scans to a closed state holding exactly the rendered devices. |
| ConfigRender.RoundTrip | config/config.go:26-94 | Parsing a rendered document gives back its devices: parse inverts render. |
| ConfigRender.ToMapKeys | config/config.go:61 | The parsed devices are named exactly by the document's blocks. |
| ConfigRender.ToMapLast | config/config.go:61 | A block whose name does not recur later determines that device: a later block of the same name replaces an earlier one. |
| ConfigExamples.SampleParses | config/config_test.go:10-31 | The document of TestParseOk yields `sda` at 60 minutes and `sdb` at 90 minutes, each with `/sbin/hdparm -y /dev/<disk>`, and nothing else. |
| ConfigExamples.CommentOnlyParses | config/config_test.go:33-42 | The one-comment document of TestParseEmpty yields no devices. |
| ConfigExamples.BareName | config/config_test.go:45-48 | "sda" fails at line 1 with "device block start expected". |
| ConfigExamples.MissingEquals | config/config_test.go:50-53 | "sda{", " foo", " }" fails at line 2 with "key=value format expected". |
| ConfigExamples.UnknownKey | config/config_test.go:55-58 | "sda{", " foo=bar", " }" fails at line 2 with "unexpected parameter 'foo'". |
| ConfigExamples.TimeNotNumber | config/config_test.go:60-63 | "sda{", " time=foo", " }" fails at line 2 with "invalid time value". |
| ConfigExamples.NoTime | config/config_test.go:65-68 | "sda{", "}" fails at line 2 with "'time' parameter expected". |
| ConfigExamples.NoCommand | config/config_test.go:70-73 | "sda{", "time = 60", "}" fails at line 3 with "'command' parameter expected". |
| ConfigExamples.CommandExpectedText | config/config_test.go:71 | The error at line 3 with "'command' parameter expected" reads exactly "3: 'command' parameter expected". |
| ConfigExamples.NoCommandText | config/config_test.go:70-73 | "sda{", "time = 60", "}" fails with the text "3: 'command' parameter expected", the one the test compares. |
| ConfigExamples.SampleCommands | config/config_test.go:27-30 | The sample's command values are read as `/sbin/hdparm` with the arguments `-y` and `/dev/sda` or `/dev/sdb`. |
| ConfigExamples.SampleTimes | config/config.go:71 | "60" and "90" are read as 60 and 90. |
| ConfigExamples.TightParam | config/config.go:136-143 | "key=value" without spaces is read as that key and value. |
| ConfigExamples.OpenTight | config/config.go:40-45 | "name{" without a space opens a block for `name`, including the empty name. |
| ConfigExamples.NoEqualsAt | config/config.go:65-68 | Indented text without '=' on the line after a block start fails at line 2 with "key=value format expected". |
| ConfigExamples.UnknownAt | config/config.go:79-81 | "key=value" on the line after a block start, for an unknown key, fails at line 2 naming the key. |
| ConfigExamples.BadTimeAt | config/config.go:70-75 | "time=v" on the line after a block start, for a v that is not an integer, fails at line 2 with "invalid time value". |
| ConfigExamples.EarlyClose | config/config.go:52-55 | "}" right after a block start fails at line 2 with "'time' parameter expected". |
| ConfigExamples.MissingCommandAt | config/config.go:56-59 | "}" after a block that has a time but no command fails at line 3 with "'command' parameter expected". |
| ConfigExamples.FirstNotStart | config/config.go:46-48 | A first line of text that is not a block start fails at line 1. |
| ConfigExamples.TextThenComment | config/config.go:35 | The comment is cut after trimming, so the spaces before '#' are kept. |
| ConfigExamples.CommentAfterBrace | config/config.go:35-48 | "sda { # x" is seen as "sda { ", which does not end in '{', so it fails with "device block start expected". |
| ConfigExamples.EmptyName | config/config.go:40-45 | A lone "{" opens a block whose device name is empty. |
| ConfigExamples.UnclosedAt | config/config.go:89-91 | A two-line document, a block start followed by a comment line, fails citing line 2; the general case is `Config.UnclosedBlock`. |
| ConfigExamples.UnclosedAtComment | config/config.go:89-91 | "sda{", "# c" fails at line 2 with "device block end expected". |
| Diskstats.SplitWhitespace | diskstats/diskstats.go:50-61 | The loop returns exactly `Tokens(s)`: the pieces between single spaces, empty ones dropped, in order. |
| Diskstats.Tokens | diskstats/diskstats.go:50-61 | Every token is non-empty and holds no space. |
| Diskstats.NonEmpty | diskstats/diskstats.go:54-58 | The kept pieces are non-empty, come from the input, and are no more numerous than it. |
| Diskstats.NonEmptyKeeps | diskstats/diskstats.go:54-58 | Pieces that are all non-empty are kept as they are. |
| Diskstats.TokensOfJoin | diskstats/diskstats.go:50-61 | Tokens joined by single spaces split back into the same tokens. |
| Diskstats.TokensWord | diskstats/diskstats.go:50-61 | A word without spaces, tabs included, is one token. |
| Diskstats.TokensConcat | diskstats/diskstats.go:50-61 | A run of spaces separates like one: the tokens of a + " " + b are those of a, then those of b. |
| Diskstats.NonEmptyAppend | diskstats/diskstats.go:54-58 | Dropping empty pieces distributes over concatenation. |
| Diskstats.Records | diskstats/diskstats.go:22-32 | Each line in turn is read as a device with its columns 5 and 9. |
| Diskstats.Record | diskstats/diskstats.go:22-34 | One line: column 2 with `ParseUint` of columns 5 and 9, or the error of the first column that does not parse (its meaning: `RecordDev`, `RecordOfColumns`). |
| Diskstats.Gather | diskstats/diskstats.go:17-38 | The loop's fold over the read lines: stop at the first failed record, otherwise store each record under its device, later ones replacing earlier ones (its meaning: the `Gather…` lemmas). |
| Diskstats.Collect | diskstats/diskstats.go:17-38 | The definition `Parse` is proved against: `Gather` of the lines' records (its meaning: the `Collect…` lemmas). |
| Diskstats.Parse | diskstats/diskstats.go:17-38 | The loop returns exactly `Collect(lines)`, for input whose every line has at least 10 columns. |
| Diskstats.GatherStops | diskstats/diskstats.go:25-32 | After the first failed line, nothing later is looked at. |
| Diskstats.GatherOk | diskstats/diskstats.go:17-38 | The fold succeeds exactly when every record does. |
| Diskstats.GatherFirstError | diskstats/diskstats.go:25-32 | A failed fold returns the error of its first failing record. |
| Diskstats.GatherKeys | diskstats/diskstats.go:34 | The map's keys are exactly the read devices, and each entry is for its own key. |
| Diskstats.GatherLatest | diskstats/diskstats.go:34 | A record whose device does not recur later is the device's entry. |
| Diskstats.RecordDev | diskstats/diskstats.go:24-34 | A read line's device is its column 2. |
| Diskstats.CollectOk | diskstats/diskstats.go:17-38 | Parsing succeeds exactly when every line's columns 5 and 9 are unsigned 64-bit decimals. |
| Diskstats.CollectFirstError | diskstats/diskstats.go:25-32 | On failure, the error is the first bad line's, and every line before it was good. |
| Diskstats.CollectKeys | diskstats/diskstats.go:34 | The result's devices are exactly column 2 of the lines, each entry under its own name. |
| Diskstats.CollectLatest | diskstats/diskstats.go:34 | A line whose device does not recur later gives that device's entry: later lines overwrite earlier ones. |
| Diskstats.RecordOfColumns | diskstats/diskstats.go:22-34 | A line written as columns, with the decimals of read and write in columns 5 and 9, is read as `{cols[2], read, write}`. |
| Monitor.Quo | main.go:59 | Go's `/` on integers, truncating toward zero (its meaning: `QuoTruncates`). |
| Monitor.QuoTruncates | main.go:59 | Go's integer division narrows the magnitude and keeps the sign (rounds toward zero). |
| Monitor.PeriodOfMinutes | main.go:59 | A device of n minutes is polled every 6·n seconds: a tenth of its threshold, whole seconds. |
| Monitor.Period | main.go:59 | One device's period: its time in whole seconds (truncated), divided by 10 (truncated), in seconds (its meaning: `PeriodOfMinutes`, `QuoTruncates`). |
| Monitor.FoldDelay | main.go:58-63 | The loop as written over the periods in visiting order, with 0 as its starting value and as "none yet" (its meaning: `FoldDelaySnoc`, `FoldDelayFrom`, `ZeroPeriodOrder`). |
| Monitor.AtLeastSecond | main.go:64-66 | The delay is never under a second, and raises only values below a second. |
| Monitor.PeriodsOf | main.go:58-59 | The periods are those of the devices, in the order visited. |
| Monitor.Enumerates | main.go:58 | The orders a Go `range` over the configuration map may take: every key exactly once (a predicate; used by `MinDelay`, `SomeOrder` and `FixedDelayReachable`). |
| Monitor.MinDelay | main.go:55-69 | The loop visits every device once, in some order, and returns the fold of the code as written. When no period is 0, the result is the least period (at least a second), the same in every order. |
| Monitor.FoldDelaySnoc | main.go:60-62 | Each visit keeps the running value unless it is 0 or the new period is smaller. |
| Monitor.MinSoFarStep | main.go:58-63 | With no zero period, the loop keeps the least period seen so far. |
| Monitor.MinSoFarDelay | main.go:55-69 | With no zero period, the finished loop yields the least period, raised to a second. |
| Monitor.IsMinDelayUnique | main.go:55-69 | The intended delay of a configuration is unique. |
| Monitor.ZeroPeriodOrder | main.go:58-63 | With a 2048 ns threshold and a 50 s one, visiting the first device first gives 5 s and the other order gives 1 s. |
| Monitor.WrappedTimeZeroPeriod | config/config.go:70-76 | A `time` value that `Atoi` reads as 3749353613647811 is accepted and wraps around to 2048 ns, whose period is 0. |
| Monitor.WrappedTimeText | config/config.go:71 | `Atoi` reads the decimal text of 3749353613647811 as that number. |
| Monitor.FixedDelayIsMin | main.go:55-69 | The corrected fold yields the least period, raised to a second, for every configuration and order. |
| Monitor.MinDelayFixed | main.go:55-69 | The corrected loop visits every device once, in some order, and returns the least period raised to a second (one second with no devices), the same in every order. |
| Monitor.SmallestPeriodSnoc | main.go:60-62 | Each visit of the corrected loop keeps the running minimum unless there is none yet or the new period is smaller. |
| Monitor.SmallestPeriodBounds | main.go:58-63 | The corrected fold returns a value it was given, no larger than any of them, and nothing only when given nothing. |
| Monitor.SmallestPeriod | main.go:58-63 | The corrected fold: "none yet" is `None`, kept apart from every period (its meaning: `SmallestPeriodBounds`). |
| Monitor.FixedDelay | main.go:55-69 | The corrected delay: one second with no devices, else the least period raised to a second (its meaning: `FixedDelayIsMin`). |
| Monitor.FoldDelayFrom | main.go:58-63 | The as-written fold ends on its starting value or on one of the periods. |
| Monitor.FoldDelayEndsOnLeast | main.go:58-63 | A period no larger than all earlier ones, visited last, is where the as-written fold ends, even after a 0. |
| Monitor.LeastLast | main.go:58-66 | Visiting a device with the least period last, the loop as written yields that period raised to a second. |
| Monitor.FixedDelayReachable | main.go:55-69 | Every intended delay is one the loop as written returns for some visiting order: the one that visits a device with the least period last. |
| Monitor.Elapsed | main.go:137 | `now.Sub(since)` is the difference when it fits in 64 bits and saturates otherwise. |
| Monitor.AfterPass | main.go:124-148 | A tick keeps the set of tracked devices. |
| Monitor.FailedRead | main.go:119-123 | When diskstats cannot be read, the tick changes no state and issues no command. |
| Monitor.Snapshot | main.go:119-123 | The map the tick walks: the read's devices, or an empty map when the read failed. |
| Monitor.Observe | main.go:126-134 | Changed counters are stored with the current time and clear "spun down"; unchanged ones leave the state as it is. |
| Monitor.Due | main.go:136-139 | The command is due when the disk is not spun down and its threshold is below the time since its counters last changed. |
| Monitor.Advance | main.go:126-146 | One device's new state: observed, then marked spun down when due (its meaning: `NoRepeat`, `Activity`, `IssuedSpinsDown`). |
| Monitor.Issued | main.go:139-146 | The devices a tick sends the command to: tracked, in the snapshot, and due after the counter check (its meaning: `IssuedSpinsDown`, `AtMostOnce`). |
| Monitor.IssuedSpinsDown | main.go:139-146 | A command is issued for a device exactly when it is tracked and read, was not spun down after the counter check, and is spun down after the tick. |
| Monitor.NoRepeat | main.go:126-146 | A spun-down device whose counters have not moved gets no second command, and its state is unchanged. |
| Monitor.Activity | main.go:126-139 | New counters reset the idle clock and clear "spun down"; no command is issued that tick (for a threshold ≥ 0). |
| Monitor.ActivityNegativeThreshold | main.go:136-139 | With a negative threshold, even a device active this tick is sent the command, since idle 0 exceeds it. The parser as written yields such a threshold (`Config.NegativeTimeAccepted`). |
| Monitor.FirstPassZeroCounters | main.go:112-146 | A fresh device whose counters are still 0 keeps Go's zero time (the year 1). Its idle time then saturates at the largest duration, so the first tick issues the command for any smaller threshold. |
| Monitor.Passes | main.go:118-151 | Successive ticks keep the set of tracked devices. |
| Monitor.StaysDown | main.go:126-146 | A spun-down device whose counters stay the same is never sent the command again, over any number of ticks. |
| Monitor.PassesAppend | main.go:118-151 | Running ticks a then b is running a, then b from the result. |
| Monitor.AtMostOnce | main.go:118-151 | While a device's counters do not move, the command is issued for it at most once. |
| Monitor.VisitOne | main.go:124-148 | Visiting one more device of the snapshot updates exactly that device's state and adds it to the issued set when it is due. |
| Monitor.Monitor.constructor | main.go:111-116 | Every configured device starts with zero counters, zero time and not spun down; the delay is the least period raised to a second, and it is also `minDelay`'s result for some order of the map (`FixedDelayReachable`). |
| Monitor.Monitor.Pass | main.go:119-148 | One tick: the new state map is `AfterPass` of the old one and of the snapshot (empty when the read failed), and the devices sent the command are `Issued`. |
| Monitor.Update | main.go:125-146 | One device: counters and time refresh on change; the device is marked spun down, and a command is issued, exactly when it is due. |
| GoStrings.Atoi | config/config.go:71 | `strconv.Atoi`: an optional sign and decimal digits, within the 64-bit range, else no value (its meaning: `AtoiOfIntToString`). |
| GoStrings.AtoiOfIntToString | config/config.go:71 | `Atoi` reads back the decimal text of every 64-bit integer. |
| GoStrings.ParseUintOfNatToString | diskstats/diskstats.go:25-29 | `ParseUint` reads back the decimal text of every unsigned 64-bit value. |
| GoStrings.SplitJoin | config/config.go:146 | Splitting at a character undoes joining pieces that do not hold it. |
| GoStrings.JoinSplit | diskstats/diskstats.go:51 | Joining the pieces of a split gives back the string. |
| GoStrings.TrimSpacePadded | config/config.go:35 | `strings.TrimSpace` removes exactly the white space around a string that has none at its ends. |
| GoStrings.IsSpace | config/config.go:35 | `unicode.IsSpace`, written out: the ASCII white space, U+0085, U+00A0 and the Unicode space separators. |
| GoStrings.TrimSpace | config/config.go:35 | `strings.TrimSpace`: the result neither starts nor ends with white space (its meaning: `TrimSpacePadded`, `TrimSpaceParts`). |
| GoStrings.Split | config/config.go:146 | `strings.Split` at one character: at least one piece, and no piece holds the separator (its meaning: `SplitJoin`, `JoinSplit`). |
| GoStrings.Cut | config/config.go:137 | `strings.SplitN(s, sep, 2)`: when the separator occurs, the two parts with the separator between them are the string and the cut is at its first occurrence; no value exactly when the separator does not occur. |
| GoStrings.OccursTail | config/config.go:137 | The separator occurs at position i ≥ 1 of a string exactly when it occurs at i − 1 of the string without its first character. |
| GoStrings.HasSuffix | config/config.go:107 | `strings.HasSuffix`: the string ends with the suffix (a predicate; used by `TrimSuffix`). |
| GoStrings.TrimSuffix | config/config.go:106-116 | `strings.TrimSuffix`: with the suffix put back, the result is the string when it ends with the suffix; otherwise the string unchanged. |
| GoStrings.IndexOf | config/config.go:129 | `strings.Index(s, "#")`, a one-character pattern: -1 exactly when the character is absent, else the index of its first occurrence. |
| GoStrings.ParseUint | diskstats/diskstats.go:25-29 | `strconv.ParseUint` in base 10 with 64 bits: a value only for a non-empty run of digits (its meaning: `ParseUintOfNatToString`, which reads back every unsigned 64-bit decimal text). |
| GoStrings.IntToString | config/error.go:15 | `%d`: a minus sign for a negative number, then the decimal digits of its magnitude (its meaning: `ErrorRoundTrip`, `ErrorNegativeLine`). |
| GoStrings.TrimSpaceParts | config/config.go:35 | Every string is its trim with white space before and after it. |
| GoStrings.Wrap64 | config/config.go:76 | The 64-bit wrap-around: in range, equal modulo 2⁶⁴, and the identity in range. |

## Left out

- Reading files. `ParseFile` (config/config.go:96-104, diskstats/diskstats.go:40-48) opens the file. `bufio.Scanner` splits the input into lines. Both are left out: the parsers take the sequence of lines.
- Scanner failures: the scanner's own errors (`scnr.Err()`, config/config.go:86-88, diskstats/diskstats.go:37) and its 64 KiB line limit are not modelled.
- Characters versus bytes: strings are sequences of characters, and Go's strings are UTF-8 bytes. `isLower` accepts only 'a' to 'z', because the full set of lower-case Unicode letters (`unicode.IsLower`) is not written out.
- `strconv.ParseUint` errors: their kind (syntax or range) is not modelled. The model's error value is the offending column's text.
- Short diskstats lines: the Go code indexes columns 2, 5 and 9 without a check and panics on a line with fewer than 10 columns. `Diskstats.Parse` requires every line to have at least 10 columns rather than modelling the panic.
- `execCmd` (main.go:71-101) runs an external program. The model records which devices a tick sends a command to (`Issued`), not the command's execution or its errors. Go marks the device spun down whatever the command's outcome, and so does the model.
- Logging: `log.Printf`, logger/logger.go and `initLog` are left out.
- The endless loop, `time.Sleep(delay)` and the `diskstats.ParseFile("/proc/diskstats")` call are abstracted. `Pass` receives the read's outcome as an `Option` and the current time as `now`. The two `time.Now()` calls of one tick are merged into one `now`, and the monotonic clock reading is not modelled.
- `Monitor.MinDelay`: `c.Time.Seconds()` is a float64. The model truncates the nanoseconds to whole seconds exactly; the float rounding only matters for thresholds above 2⁵³ ns (about 104 days).
- Command-line options, `main` and `fatal` are left out.
- Config.ParsedGood: states a non-zero time, not a positive one. `time.Duration(n) * time.Minute` wraps around for n above 153722867 and can give a negative duration that the code accepts (`Config.NegativeTimeAccepted`, see Findings). The positive-time property is proved for the corrected parser (`ConfigChecked.ParsedCheckedPositive`).
- Duplicate configuration blocks: a later block with an already used name replaces the earlier one (config/config.go:61), and the model does the same (`ConfigRender.ToMapLast`). No error is reported for them.
- Unclosed blocks: a document that ends inside a block is cited at its last line, `i+1` after the loop (config/config.go:89-91), as in `Config.UnclosedBlock` and `ConfigExamples.UnclosedAtComment`.
- Error texts: the example lemmas for config/config_test.go state each error's line and message. The full text is stated only for the last example (`ConfigExamples.NoCommandText`). For the others, `ConfigError.ErrorRoundTrip` gives the text's form for every error: the line's decimal text, ": ", then the message.
- diskstats/diskstats_test.go's literal table is not restated. Its content is covered in general by `Diskstats.RecordOfColumns` (lines whose columns are separated by single spaces), `Diskstats.TokensConcat` (a run of spaces separates like one, as in the test's lines such as "8       0 sda …"), `Diskstats.CollectKeys` and `Diskstats.CollectLatest`.

## Findings

| source | as written | input that shows it | evidently intended | confidence | as-written member | corrected member |
|---|---|---|---|---|---|---|
| config/config.go:72-76 | The `n <= 0` check looks at the minutes, and then `time.Duration(n) * time.Minute` wraps around at 64 bits. A large count is accepted and yields a negative (or zero) threshold. | `time = 153722868`: the time becomes −9223371993709551616 ns, and the closing check, which only rejects 0, stores the device | every threshold positive: counts above 153722867 rejected with "invalid time value" | not executed | Config.NegativeTimeAccepted | ConfigChecked.ParsedCheckedPositive |
| main.go:56-63 | `min` starts at 0 and 0 also means "no value yet". A device whose tenth of its threshold is under a second contributes 0, which resets the running minimum, so the result depends on Go's map order. | two devices: "a" with `time = 3749353613647811`, which the parser accepts and wraps around to 2048 ns (`Monitor.WrappedTimeZeroPeriod`), and "b" with 50 s. Visiting a, b gives 5 s; visiting b, a gives 1 s | the least period over all devices, raised to one second, whatever the order | not executed | Monitor.ZeroPeriodOrder | Monitor.FixedDelayIsMin |

- `Config.Parse` and `Config.Parsed` model the parser as written. `ConfigChecked.ParsedChecked` is the corrected parser; it returns the same map wherever it succeeds (`ConfigChecked.ParsedCheckedAgrees`) and rejects the overflowing lines (`ConfigChecked.OverflowRejected`). `Monitor` takes any configuration map, so its lemmas hold for either parser.

The delay only paces the loop. `Monitor.Monitor.Pass` does not take it, so this finding changes when ticks happen, not what a tick does.

- `Monitor.MinDelay` models the code as written. Its contract gives the intended minimum only when no period is 0.
- `Monitor.SmallestPeriod`, `Monitor.FixedDelay` and the loop `Monitor.MinDelayFixed` are the corrected definition.
- `Monitor.Monitor.constructor` uses the corrected definition. Its delay is also one the loop as written returns, for the map order that visits a device with the least period last (`Monitor.FixedDelayReachable`), so it refines main.go:111.
