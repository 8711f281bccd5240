/**
 * The parts of Go's `strings`, `strconv` and `unicode` packages that the
 * configuration parser and the diskstats reader rely on, written out over
 * `seq<char>`.  Each function follows the Go definition for the arguments
 * the callers pass (a one-character separator, base 10, 64-bit integers).
 */
module GoStrings {
  import opened Wrappers

  const MaxInt64: int := 0x7fff_ffff_ffff_ffff
  const MinInt64: int := -0x8000_0000_0000_0000

  /** Go's `uint64`. */
  type uint64 = x: int | 0 <= x < 0x1_0000_0000_0000_0000

  /** Two's-complement wrap-around of Go's `int64` arithmetic: the value in range that is equal modulo 2^64. */
  function Wrap64(x: int): (r: int)
    ensures MinInt64 <= r <= MaxInt64
    ensures (x - r) % 0x1_0000_0000_0000_0000 == 0
    ensures MinInt64 <= x <= MaxInt64 ==> r == x
  {
    var m := x % 0x1_0000_0000_0000_0000;
    if m <= MaxInt64 then m else m - 0x1_0000_0000_0000_0000
  }

  // ---------------------------------------------------------------------------
  // White space and trimming
  // ---------------------------------------------------------------------------

  /** `unicode.IsSpace`: the Latin-1 spaces and the Unicode White_Space code points above them. */
  predicate IsSpace(c: char) {
    || c == '\t' || c == '\n' || c == '\U{0B}' || c == '\U{0C}' || c == '\r' || c == ' '
    || c == '\U{85}' || c == '\U{A0}' || c == '\U{1680}'
    || ('\U{2000}' <= c <= '\U{200A}')
    || c == '\U{2028}' || c == '\U{2029}' || c == '\U{202F}' || c == '\U{205F}' || c == '\U{3000}'
  }

  predicate AllSpace(s: string) {
    forall i :: 0 <= i < |s| ==> IsSpace(s[i])
  }

  /** The suffix of `s` left after dropping its leading white space. */
  function TrimLeftSpace(s: string): (r: string)
    ensures |r| <= |s| && r == s[|s| - |r|..]
    ensures AllSpace(s[..|s| - |r|])
    ensures r != [] ==> !IsSpace(r[0])
    decreases |s|
  {
    if s != [] && IsSpace(s[0]) then
      var r := TrimLeftSpace(s[1..]);
      assert s[..|s| - |r|] == [s[0]] + s[1..][..|s| - 1 - |r|];
      r
    else s
  }

  /** The prefix of `s` left after dropping its trailing white space. */
  function TrimRightSpace(s: string): (r: string)
    ensures |r| <= |s| && r == s[..|r|]
    ensures AllSpace(s[|r|..])
    ensures r != [] ==> !IsSpace(r[|r| - 1])
    decreases |s|
  {
    if s != [] && IsSpace(s[|s| - 1]) then
      var r := TrimRightSpace(s[..|s| - 1]);
      assert s[|r|..] == s[..|s| - 1][|r|..] + [s[|s| - 1]];
      r
    else s
  }

  /** Trimming the right of a string that starts with a non-space keeps that first character. */
  lemma {:induction false} TrimRightSpaceKeepsFirst(s: string)
    requires s != [] && !IsSpace(s[0])
    ensures TrimRightSpace(s) != [] && TrimRightSpace(s)[0] == s[0]
    decreases |s|
  {
    if |s| > 1 && IsSpace(s[|s| - 1]) {
      TrimRightSpaceKeepsFirst(s[..|s| - 1]);
    }
  }

  /** `strings.TrimSpace`. */
  function TrimSpace(s: string): (r: string)
    ensures r != [] ==> !IsSpace(r[0]) && !IsSpace(r[|r| - 1])
  {
    TrimRightSpace(TrimLeftSpace(s))
  }

  /** Leading white space never survives trimming. */
  lemma {:induction false} TrimLeftSpaceSkips(p: string, s: string)
    requires AllSpace(p)
    ensures TrimLeftSpace(p + s) == TrimLeftSpace(s)
    decreases |p|
  {
    if p != [] {
      assert (p + s)[0] == p[0];
      assert (p + s)[1..] == p[1..] + s;
      TrimLeftSpaceSkips(p[1..], s);
    } else {
      assert p + s == s;
    }
  }

  /** A string with no white space at either end is its own trim. */
  lemma TrimSpaceKeeps(s: string)
    requires s != [] ==> !IsSpace(s[0]) && !IsSpace(s[|s| - 1])
    ensures TrimSpace(s) == s
  {
  }

  /** Every string is its trim with white space before and after it. */
  lemma TrimSpaceParts(s: string) returns (p: string, q: string)
    ensures AllSpace(p) && AllSpace(q)
    ensures s == p + TrimSpace(s) + q
  {
    var left := TrimLeftSpace(s);
    var name := TrimRightSpace(left);
    p := s[..|s| - |left|];
    q := left[|name|..];
    SplitAt(s, |s| - |left|);
    SplitAt(left, |name|);
    AppendAssoc(p, name, q);
  }

  /** A string is its prefix followed by the rest. */
  lemma SplitAt(s: string, k: nat)
    requires k <= |s|
    ensures s == s[..k] + s[k..]
  {
  }

  /** Concatenation of strings is associative. */
  lemma AppendAssoc(a: string, b: string, c: string)
    ensures a + (b + c) == a + b + c
  {
  }

  /** Trimming a padded string drops the padding on both sides. */
  lemma TrimSpacePadded(p: string, s: string, q: string)
    requires AllSpace(p) && AllSpace(q)
    requires s != [] ==> !IsSpace(s[0]) && !IsSpace(s[|s| - 1])
    ensures TrimSpace(p + s + q) == s
  {
    assert p + s + q == p + (s + q);
    TrimLeftSpaceSkips(p, s + q);
    TrimLeftSpaceStops(s, q);
    if s != [] {
      TrimRightSpaceSkips(s, q);
    }
  }

  /** Trimming the left of `s + q` stops at once when `s` starts with a non-space, and empties an all-space `q`. */
  lemma TrimLeftSpaceStops(s: string, q: string)
    requires AllSpace(q)
    requires s != [] ==> !IsSpace(s[0])
    ensures TrimLeftSpace(s + q) == if s == [] then [] else s + q
  {
    if s == [] {
      assert s + q == q;
    } else {
      assert (s + q)[0] == s[0];
    }
  }

  /** Trailing white space never survives trimming. */
  lemma {:induction false} TrimRightSpaceSkips(s: string, q: string)
    requires AllSpace(q)
    requires s != [] ==> !IsSpace(s[|s| - 1])
    ensures TrimRightSpace(s + q) == s
    decreases |q|
  {
    if q != [] {
      assert (s + q)[..|s + q| - 1] == s + q[..|q| - 1];
      TrimRightSpaceSkips(s, q[..|q| - 1]);
    } else {
      assert s + q == s;
    }
  }

  // ---------------------------------------------------------------------------
  // Prefixes, suffixes and searching
  // ---------------------------------------------------------------------------

  /** `strings.HasSuffix`. */
  predicate HasSuffix(s: string, suffix: string) {
    |suffix| <= |s| && s[|s| - |suffix|..] == suffix
  }

  /** `strings.TrimSuffix`: `s` without `suffix` when it ends with it, else `s`. */
  function TrimSuffix(s: string, suffix: string): (r: string)
    ensures HasSuffix(s, suffix) ==> r + suffix == s
    ensures !HasSuffix(s, suffix) ==> r == s
  {
    if HasSuffix(s, suffix) then s[..|s| - |suffix|] else s
  }

  /** `strings.Index` with a one-character pattern: the index of the first `c` in `s`, or -1 when there is none. */
  function IndexOf(s: string, c: char): (i: int)
    ensures -1 <= i < |s|
    ensures i == -1 <==> c !in s
    ensures 0 <= i ==> s[i] == c && c !in s[..i]
    decreases |s|
  {
    if s == [] then -1
    else if s[0] == c then 0
    else
      var j := IndexOf(s[1..], c);
      assert j >= 0 ==> s[..j + 1] == [s[0]] + s[1..][..j];
      if j < 0 then -1 else j + 1
  }

  /** The first `c` of `p + [c] + t` is the one after `p` when `p` holds none. */
  lemma IndexOfAfter(p: string, c: char, t: string)
    requires c !in p
    ensures IndexOf(p + [c] + t, c) == |p|
  {
    var s := p + [c] + t;
    assert s[|p|] == c;
    assert s[..|p|] == p;
  }

  // ---------------------------------------------------------------------------
  // Splitting and joining on one character
  // ---------------------------------------------------------------------------

  /** `strings.Split(s, string(c))`: the pieces between the occurrences of `c`, at least one. */
  function Split(s: string, c: char): (parts: seq<string>)
    ensures |parts| >= 1
    ensures forall k :: 0 <= k < |parts| ==> c !in parts[k]
    decreases |s|
  {
    var i := IndexOf(s, c);
    if i < 0 then [s]
    else
      var rest := Split(s[i + 1..], c);
      assert forall k :: 1 <= k <= |rest| ==> ([s[..i]] + rest)[k] == rest[k - 1];
      [s[..i]] + rest
  }

  /** `strings.Join(parts, string(c))`. */
  function Join(parts: seq<string>, c: char): string
    decreases |parts|
  {
    if parts == [] then ""
    else if |parts| == 1 then parts[0]
    else parts[0] + [c] + Join(parts[1..], c)
  }

  /** Splitting undoes joining when no piece holds the separator. */
  lemma {:induction false} SplitJoin(parts: seq<string>, c: char)
    requires |parts| >= 1
    requires forall k :: 0 <= k < |parts| ==> c !in parts[k]
    ensures Split(Join(parts, c), c) == parts
    decreases |parts|
  {
    if |parts| > 1 {
      var rest := Join(parts[1..], c);
      var s := parts[0] + [c] + rest;
      IndexOfAfter(parts[0], c, rest);
      assert s[..|parts[0]|] == parts[0];
      assert s[|parts[0]| + 1..] == rest;
      SplitJoin(parts[1..], c);
      assert [parts[0]] + parts[1..] == parts;
    } else {
      assert IndexOf(parts[0], c) == -1;
    }
  }

  /** Joining undoes splitting: the pieces of `s` put back together are `s`. */
  lemma {:induction false} JoinSplit(s: string, c: char)
    ensures Join(Split(s, c), c) == s
    decreases |s|
  {
    var i := IndexOf(s, c);
    if i >= 0 {
      var tail := s[i + 1..];
      var rest := Split(tail, c);
      JoinSplit(tail, c);
      JoinCons(s[..i], rest, c);
      assert s == s[..i] + [c] + tail;
    }
  }

  /** A character other than the separator occurs in a join only if it occurs in a piece. */
  lemma {:induction false} JoinAvoids(parts: seq<string>, c: char, d: char)
    requires c != d
    requires forall k :: 0 <= k < |parts| ==> d !in parts[k]
    ensures d !in Join(parts, c)
    decreases |parts|
  {
    if |parts| > 1 {
      JoinAvoids(parts[1..], c, d);
    }
  }

  /** A join of non-empty pieces starts with the first piece's first character and ends with the last piece's last one. */
  lemma {:induction false} JoinEnds(parts: seq<string>, c: char)
    requires |parts| >= 1 && forall k :: 0 <= k < |parts| ==> parts[k] != []
    ensures var s := Join(parts, c); s != [] && s[0] == parts[0][0] && s[|s| - 1] == parts[|parts| - 1][|parts[|parts| - 1]| - 1]
    decreases |parts|
  {
    if |parts| > 1 {
      JoinEnds(parts[1..], c);
    }
  }

  lemma JoinCons(head: string, rest: seq<string>, c: char)
    requires rest != []
    ensures Join([head] + rest, c) == head + [c] + Join(rest, c)
  {
    assert ([head] + rest)[1..] == rest;
  }

  /** `sep` occurs in `s` starting at index `i`. */
  predicate OccursAt(s: string, sep: string, i: int) {
    0 <= i && i + |sep| <= |s| && s[i..i + |sep|] == sep
  }

  /** An occurrence in `s` after its first index is one in its tail, one place earlier. */
  lemma OccursTail(s: string, sep: string)
    requires s != []
    ensures forall i :: 1 <= i ==> (OccursAt(s, sep, i) <==> OccursAt(s[1..], sep, i - 1))
  {
    forall i | 1 <= i ensures OccursAt(s, sep, i) <==> OccursAt(s[1..], sep, i - 1) {
      if i + |sep| <= |s| {
        assert s[1..][i - 1..i - 1 + |sep|] == s[i..i + |sep|];
      }
    }
  }

  /**
   * `strings.Cut`: the text before and after the first occurrence of `sep`;
   * none when `sep` does not occur.
   */
  function Cut(s: string, sep: string): (r: Option<(string, string)>)
    requires sep != []
    ensures r.Some? ==> r.value.0 + sep + r.value.1 == s
    ensures r.Some? ==> forall i :: 0 <= i < |r.value.0| ==> !OccursAt(s, sep, i)
    ensures r.None? ==> forall i :: 0 <= i <= |s| ==> !OccursAt(s, sep, i)
    decreases |s|
  {
    if |s| < |sep| then None
    else if s[..|sep|] == sep then Some(([], s[|sep|..]))
    else match Cut(s[1..], sep)
      case None =>
        OccursTail(s, sep);
        assert !OccursAt(s, sep, 0);
        None
      case Some(pair) =>
        OccursTail(s, sep);
        assert !OccursAt(s, sep, 0);
        assert [s[0]] + pair.0 + sep + pair.1 == [s[0]] + s[1..];
        Some(([s[0]] + pair.0, pair.1))
  }

  /** When the first character of `sep` does not occur in `p`, cutting `p + sep + t` at `sep` yields `p` and `t`. */
  lemma {:induction false} CutAfter(p: string, sep: string, t: string)
    requires sep != []
    requires sep[0] !in p
    ensures Cut(p + sep + t, sep) == Some((p, t))
    decreases |p|
  {
    var s := p + sep + t;
    if p == [] {
      assert s == sep + t;
      assert s[..|sep|] == sep;
      assert s[|sep|..] == t;
    } else {
      assert s[0] == p[0] != sep[0];
      assert s[..|sep|] != sep;
      assert s[1..] == p[1..] + sep + t;
      CutAfter(p[1..], sep, t);
      assert [p[0]] + p[1..] == p;
    }
  }

  // ---------------------------------------------------------------------------
  // Decimal numbers (`strconv`, `fmt`'s %d)
  // ---------------------------------------------------------------------------

  predicate IsDigit(c: char) {
    '0' <= c <= '9'
  }

  predicate AllDigits(s: string) {
    forall i :: 0 <= i < |s| ==> IsDigit(s[i])
  }

  /** The value of a string of decimal digits, most significant first. */
  function DecimalValue(s: string): nat
    requires AllDigits(s)
    decreases |s|
  {
    if s == [] then 0
    else DecimalValue(s[..|s| - 1]) * 10 + ((s[|s| - 1] as int) - ('0' as int))
  }

  function DigitChar(d: nat): (c: char)
    requires d < 10
    ensures IsDigit(c) && (c as int) - ('0' as int) == d
  {
    (('0' as int) + d) as char
  }

  /** The decimal text of `n` without leading zeros, as `%d` prints it. */
  function NatToString(n: nat): (s: string)
    ensures s != [] && AllDigits(s)
    ensures |s| > 1 ==> s[0] != '0'
  {
    if n < 10 then [DigitChar(n)] else NatToString(n / 10) + [DigitChar(n % 10)]
  }

  /** `fmt.Sprintf("%d", i)`. */
  function IntToString(i: int): string {
    if i < 0 then "-" + NatToString(-i) else NatToString(i)
  }

  /** Reading the decimal text of `n` gives back `n`. */
  lemma {:induction false} DecimalValueOfNatToString(n: nat)
    ensures DecimalValue(NatToString(n)) == n
  {
    if n >= 10 {
      var s := NatToString(n);
      assert s[..|s| - 1] == NatToString(n / 10);
      DecimalValueOfNatToString(n / 10);
    }
  }

  /** `strconv.Atoi` on a 64-bit platform: an optional sign, at least one decimal digit, and a value that fits in an `int`. */
  function Atoi(s: string): (r: Option<int>)
    ensures r.Some? ==> s != [] && MinInt64 <= r.value <= MaxInt64
  {
    if s == [] then None
    else
      var digits := if s[0] == '-' || s[0] == '+' then s[1..] else s;
      if digits == [] || !AllDigits(digits) then None
      else
        var v: int := if s[0] == '-' then -(DecimalValue(digits) as int) else DecimalValue(digits);
        if MinInt64 <= v <= MaxInt64 then Some(v) else None
  }

  /** Atoi reads back every 64-bit integer that `%d` prints. */
  lemma AtoiOfIntToString(i: int)
    requires MinInt64 <= i <= MaxInt64
    ensures Atoi(IntToString(i)) == Some(i)
  {
    var s := IntToString(i);
    if i < 0 {
      assert s[1..] == NatToString(-i);
      DecimalValueOfNatToString(-i);
    } else {
      DecimalValueOfNatToString(i);
    }
  }

  /** `strconv.ParseUint(s, 10, 64)`: decimal digits only, no sign, and a value below 2^64. */
  function ParseUint(s: string): (r: Option<uint64>)
    ensures r.Some? ==> s != [] && AllDigits(s)
  {
    if s == [] || !AllDigits(s) then None
    else
      var v := DecimalValue(s);
      if v < 0x1_0000_0000_0000_0000 then Some(v) else None
  }

  /** ParseUint reads back the decimal text of every `uint64`. */
  lemma ParseUintOfNatToString(n: uint64)
    ensures ParseUint(NatToString(n)) == Some(n)
  {
    DecimalValueOfNatToString(n);
  }
}
