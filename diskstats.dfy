/**
 * The reader of the kernel's per-disk I/O counters (diskstats/diskstats.go).
 * Each line is split at single spaces with the empty pieces dropped; token 2
 * is the device, tokens 5 and 9 are the sectors read and written, both
 * unsigned 64-bit decimals.  The first unparsable counter ends the whole read.
 */
module Diskstats {
  import opened Wrappers
  import opened GoStrings

  /** One device's counters. */
  datatype DiskStat = DiskStat(dev: string, read: uint64, write: uint64)

  // ---------------------------------------------------------------------------
  // splitWhitespace
  // ---------------------------------------------------------------------------

  /** The non-empty pieces among `parts`, in their order. */
  function NonEmpty(parts: seq<string>): (r: seq<string>)
    ensures |r| <= |parts|
    ensures forall k :: 0 <= k < |r| ==> r[k] != [] && r[k] in parts
    decreases |parts|
  {
    if parts == [] then []
    else
      var last := parts[|parts| - 1];
      NonEmpty(parts[..|parts| - 1]) + (if last == [] then [] else [last])
  }

  /** The tokens of a line: the non-empty pieces between single spaces. */
  function Tokens(s: string): (r: seq<string>)
    ensures forall k :: 0 <= k < |r| ==> r[k] != [] && ' ' !in r[k]
  {
    var parts := Split(s, ' ');
    var r := NonEmpty(parts);
    assert forall k :: 0 <= k < |r| ==> ' ' !in r[k] by {
      forall k | 0 <= k < |r| ensures ' ' !in r[k] {
        var j :| 0 <= j < |parts| && parts[j] == r[k];
      }
    }
    r
  }

  /** `splitWhitespace`: the loop that keeps the non-empty pieces of `strings.Split(s, " ")`. */
  method SplitWhitespace(s: string) returns (res: seq<string>)
    ensures res == Tokens(s)
  {
    var parts := Split(s, ' ');
    res := [];
    for i := 0 to |parts|
      invariant res == NonEmpty(parts[..i])
    {
      assert parts[..i + 1][..i] == parts[..i];
      if parts[i] != "" {
        res := res + [parts[i]];
      }
    }
    assert parts[..|parts|] == parts;
  }

  /** Pieces that are all non-empty are kept as they are. */
  lemma {:induction false} NonEmptyKeeps(parts: seq<string>)
    requires forall k :: 0 <= k < |parts| ==> parts[k] != []
    ensures NonEmpty(parts) == parts
    decreases |parts|
  {
    if parts != [] {
      NonEmptyKeeps(parts[..|parts| - 1]);
    }
  }

  /** Tokens joined by single spaces split back into the same tokens. */
  lemma TokensOfJoin(ts: seq<string>)
    requires forall k :: 0 <= k < |ts| ==> ts[k] != [] && ' ' !in ts[k]
    ensures Tokens(Join(ts, ' ')) == ts
  {
    if ts == [] {
      assert Split("", ' ') == [""];
    } else {
      SplitJoin(ts, ' ');
      NonEmptyKeeps(ts);
    }
  }

  /** A text with no space is one token: a tab, for one, does not separate tokens. */
  lemma TokensWord(s: string)
    requires s != [] && ' ' !in s
    ensures Tokens(s) == [s]
  {
    assert Split(s, ' ') == [s];
  }

  /** A space splits a text into the tokens before it and the tokens after it, so runs of spaces act as one. */
  lemma TokensConcat(a: string, b: string)
    ensures Tokens(a + " " + b) == Tokens(a) + Tokens(b)
  {
    SplitConcat(a, ' ', b);
    NonEmptyAppend(Split(a, ' '), Split(b, ' '));
  }

  /** The pieces of `a + [c] + b` are those of `a` followed by those of `b`. */
  lemma {:induction false} SplitConcat(a: string, c: char, b: string)
    ensures Split(a + [c] + b, c) == Split(a, c) + Split(b, c)
    decreases |a|
  {
    var i := IndexOf(a, c);
    if i < 0 {
      IndexOfAfter(a, c, b);
      assert (a + [c] + b)[..|a|] == a;
      assert (a + [c] + b)[|a| + 1..] == b;
    } else {
      var s := a + [c] + b;
      assert s[..i] == a[..i];
      assert IndexOf(s, c) == i by {
        assert s[i] == c;
      }
      assert s[i + 1..] == a[i + 1..] + [c] + b;
      SplitConcat(a[i + 1..], c, b);
    }
  }

  /** The tokens of two runs of pieces are the tokens of each, in order. */
  lemma {:induction false} NonEmptyAppend(p: seq<string>, q: seq<string>)
    ensures NonEmpty(p + q) == NonEmpty(p) + NonEmpty(q)
    decreases |q|
  {
    if q == [] {
      assert p + q == p;
    } else {
      var init := q[..|q| - 1];
      assert (p + q)[..|p + q| - 1] == p + init;
      NonEmptyAppend(p, init);
    }
  }

  // ---------------------------------------------------------------------------
  // Parse
  // ---------------------------------------------------------------------------

  /** The lines `Parse` can read: with fewer than ten tokens the Go code indexes past the end. */
  predicate WellFormed(lines: seq<string>) {
    forall k :: 0 <= k < |lines| ==> |Tokens(lines[k])| >= 10
  }

  /** One line's record, or the text of the counter that is not a `uint64`. */
  function Record(line: string): Result<DiskStat, string>
    requires |Tokens(line)| >= 10
  {
    var cols := Tokens(line);
    match ParseUint(cols[5])
    case None => Err(cols[5])
    case Some(read) =>
      match ParseUint(cols[9])
      case None => Err(cols[9])
      case Some(write) => Ok(DiskStat(cols[2], read, write))
  }

  /** The device token of a line. */
  function Dev(line: string): string
    requires |Tokens(line)| >= 10
  {
    Tokens(line)[2]
  }

  /** The record of every line, in order. */
  function Records(lines: seq<string>): (recs: seq<Result<DiskStat, string>>)
    requires WellFormed(lines)
    ensures |recs| == |lines| && forall k :: 0 <= k < |lines| ==> recs[k] == Record(lines[k])
    decreases |lines|
  {
    if lines == [] then []
    else
      var init := lines[..|lines| - 1];
      assert forall k :: 0 <= k < |init| ==> init[k] == lines[k];
      Records(init) + [Record(lines[|lines| - 1])]
  }

  /** Records stored in order, each under its device, until the first error. */
  function Gather(recs: seq<Result<DiskStat, string>>): Result<map<string, DiskStat>, string>
    decreases |recs|
  {
    if recs == [] then Ok(map[])
    else
      match Gather(recs[..|recs| - 1])
      case Err(e) => Err(e)
      case Ok(stats) =>
        match recs[|recs| - 1]
        case Err(e) => Err(e)
        case Ok(d) => Ok(stats[d.dev := d])
  }

  /** What `Parse` returns for well-formed lines. */
  function Collect(lines: seq<string>): Result<map<string, DiskStat>, string>
    requires WellFormed(lines)
  {
    Gather(Records(lines))
  }

  /** `Parse`: the loop over the lines, filling `stats` until a counter fails to parse. */
  method Parse(lines: seq<string>) returns (r: Result<map<string, DiskStat>, string>)
    requires WellFormed(lines)
    ensures r == Collect(lines)
  {
    var stats: map<string, DiskStat> := map[];
    ghost var recs := Records(lines);
    for i := 0 to |lines|
      invariant Gather(recs[..i]) == Ok(stats)
    {
      assert recs[..i + 1][..i] == recs[..i];
      var cols := SplitWhitespace(lines[i]);
      var dev := cols[2];
      var read := ParseUint(cols[5]);
      if read.None? {
        GatherStops(recs, i + 1);
        return Err(cols[5]);
      }
      var write := ParseUint(cols[9]);
      if write.None? {
        GatherStops(recs, i + 1);
        return Err(cols[9]);
      }
      stats := stats[cols[2] := DiskStat(dev, read.value, write.value)];
    }
    assert recs[..|lines|] == recs;
    return Ok(stats);
  }

  /** A failure among the first `k` records is the failure of the whole read. */
  lemma {:induction false} GatherStops(recs: seq<Result<DiskStat, string>>, k: nat)
    requires k <= |recs| && Gather(recs[..k]).Err?
    ensures Gather(recs) == Gather(recs[..k])
    decreases |recs| - k
  {
    if k == |recs| {
      assert recs[..k] == recs;
    } else {
      assert recs[..k + 1][..k] == recs[..k];
      GatherStops(recs, k + 1);
    }
  }

  /** Gathering succeeds exactly when every record does. */
  lemma {:induction false} GatherOk(recs: seq<Result<DiskStat, string>>)
    ensures Gather(recs).Ok? <==> forall k :: 0 <= k < |recs| ==> recs[k].Ok?
    decreases |recs|
  {
    if recs != [] {
      var init := recs[..|recs| - 1];
      GatherOk(init);
      assert forall k :: 0 <= k < |init| ==> init[k] == recs[k];
    }
  }

  /** A failed gathering reports the error of the first failed record. */
  lemma {:induction false} GatherFirstError(recs: seq<Result<DiskStat, string>>) returns (k: nat)
    requires Gather(recs).Err?
    ensures k < |recs| && recs[k].Err? && Gather(recs).error == recs[k].error
    ensures forall j :: 0 <= j < k ==> recs[j].Ok?
    decreases |recs|
  {
    var init := recs[..|recs| - 1];
    if Gather(init).Err? {
      k := GatherFirstError(init);
      assert init[k] == recs[k];
      assert forall j :: 0 <= j < k ==> init[j] == recs[j];
    } else {
      k := |recs| - 1;
      GatherOk(init);
      assert forall j :: 0 <= j < k ==> init[j] == recs[j];
    }
  }

  /** The keys of a successful gathering are the devices of its records, each record under its own name. */
  lemma {:induction false} GatherKeys(recs: seq<Result<DiskStat, string>>)
    requires Gather(recs).Ok?
    ensures forall dev :: dev in Gather(recs).value <==> exists k :: 0 <= k < |recs| && recs[k].Ok? && recs[k].value.dev == dev
    ensures forall dev :: dev in Gather(recs).value ==> Gather(recs).value[dev].dev == dev
    decreases |recs|
  {
    GatherOk(recs);
    if recs != [] {
      var init := recs[..|recs| - 1];
      var last := recs[|recs| - 1].value;
      GatherKeys(init);
      var m := Gather(recs).value;
      assert m == Gather(init).value[last.dev := last];
      forall dev | dev in m
        ensures exists k :: 0 <= k < |recs| && recs[k].Ok? && recs[k].value.dev == dev
      {
        if dev != last.dev {
          var k :| 0 <= k < |init| && init[k].Ok? && init[k].value.dev == dev;
          assert recs[k] == init[k];
        }
      }
      forall dev | exists k :: 0 <= k < |recs| && recs[k].Ok? && recs[k].value.dev == dev
        ensures dev in m
      {
        var k :| 0 <= k < |recs| && recs[k].Ok? && recs[k].value.dev == dev;
        if k < |init| {
          assert init[k] == recs[k];
        }
      }
    }
  }

  /** A device's entry is the last record naming it. */
  lemma {:induction false} GatherLatest(recs: seq<Result<DiskStat, string>>, k: nat)
    requires Gather(recs).Ok? && k < |recs|
    requires recs[k].Ok? && forall j :: k < j < |recs| ==> recs[j].Ok? && recs[j].value.dev != recs[k].value.dev
    ensures recs[k].value.dev in Gather(recs).value && Gather(recs).value[recs[k].value.dev] == recs[k].value
    decreases |recs|
  {
    var init := recs[..|recs| - 1];
    if k < |init| {
      assert init[k] == recs[k];
      assert forall j :: k < j < |init| ==> init[j] == recs[j];
      GatherLatest(init, k);
    }
  }

  /** A parsed record is stored under the line's device token. */
  lemma RecordDev(line: string)
    requires |Tokens(line)| >= 10 && Record(line).Ok?
    ensures Record(line).value.dev == Dev(line)
  {
  }

  /** The read succeeds exactly when every line's counters parse. */
  lemma CollectOk(lines: seq<string>)
    requires WellFormed(lines)
    ensures Collect(lines).Ok? <==> forall k :: 0 <= k < |lines| ==> Record(lines[k]).Ok?
  {
    GatherOk(Records(lines));
  }

  /** A failed read reports the first bad counter of the first line that has one. */
  lemma CollectFirstError(lines: seq<string>) returns (k: nat)
    requires WellFormed(lines) && Collect(lines).Err?
    ensures k < |lines| && Record(lines[k]).Err? && Collect(lines).error == Record(lines[k]).error
    ensures forall j :: 0 <= j < k ==> Record(lines[j]).Ok?
  {
    k := GatherFirstError(Records(lines));
  }

  /** The devices of a successful read are the device tokens of its lines, each record under its own name. */
  lemma CollectKeys(lines: seq<string>)
    requires WellFormed(lines) && Collect(lines).Ok?
    ensures forall dev :: dev in Collect(lines).value <==> exists k :: 0 <= k < |lines| && Dev(lines[k]) == dev
    ensures forall dev :: dev in Collect(lines).value ==> Collect(lines).value[dev].dev == dev
  {
    var recs := Records(lines);
    GatherKeys(recs);
    GatherOk(recs);
    forall k | 0 <= k < |lines|
      ensures recs[k].Ok? && recs[k].value.dev == Dev(lines[k])
    {
      RecordDev(lines[k]);
    }
  }

  /** A device's entry is the record of the last line that names it: a later line overwrites an earlier one. */
  lemma CollectLatest(lines: seq<string>, k: nat)
    requires WellFormed(lines) && Collect(lines).Ok? && k < |lines|
    requires forall j :: k < j < |lines| ==> Dev(lines[j]) != Dev(lines[k])
    ensures Record(lines[k]).Ok? && Dev(lines[k]) in Collect(lines).value
    ensures Collect(lines).value[Dev(lines[k])] == Record(lines[k]).value
  {
    var recs := Records(lines);
    GatherOk(recs);
    forall j | 0 <= j < |lines|
      ensures recs[j].Ok? && recs[j].value.dev == Dev(lines[j])
    {
      RecordDev(lines[j]);
    }
    GatherLatest(recs, k);
  }

  /** A line built from ten or more tokens, with decimal counters in places 5 and 9, reads back as its record. */
  lemma RecordOfColumns(cols: seq<string>, read: uint64, write: uint64)
    requires |cols| >= 10 && forall k :: 0 <= k < |cols| ==> cols[k] != [] && ' ' !in cols[k]
    requires cols[5] == NatToString(read) && cols[9] == NatToString(write)
    ensures |Tokens(Join(cols, ' '))| >= 10
    ensures Record(Join(cols, ' ')) == Ok(DiskStat(cols[2], read, write))
  {
    TokensOfJoin(cols);
    ParseUintOfNatToString(read);
    ParseUintOfNatToString(write);
  }
}
