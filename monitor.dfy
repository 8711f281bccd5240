/**
 * The idle monitor of main.go: the polling delay chosen from the configured
 * idle times (`minDelay`) and one pass of the main loop, which compares each
 * configured disk's counters with the last ones seen and issues the disk's
 * spin-down command once it has been idle for longer than its threshold.
 *
 * Time is an integer count of nanoseconds on a clock where Go's zero
 * `time.Time` is instant 0; a duration is an integer count of nanoseconds.
 */
module Monitor {
  import opened Wrappers
  import opened GoStrings
  import opened Config
  import opened Diskstats

  const Second: int := 1_000_000_000

  // ---------------------------------------------------------------------------
  // minDelay
  // ---------------------------------------------------------------------------

  /** Go's `/` on integers, which truncates toward zero. */
  function Quo(a: int, b: int): int
    requires b > 0
  {
    if a >= 0 then a / b else -((-a) / b)
  }

  /** The quotient rounds toward zero: `q * b` lies between 0 and `a`, less than `b` away from `a`. */
  lemma QuoTruncates(a: int, b: int)
    requires b > 0
    ensures a >= 0 ==> 0 <= Quo(a, b) * b <= a < Quo(a, b) * b + b
    ensures a < 0 ==> Quo(a, b) * b - b < a <= Quo(a, b) * b <= 0
  {
    if a >= 0 {
      DivBounds(a, b);
    } else {
      DivBounds(-a, b);
      assert Quo(a, b) * b == -(((-a) / b) * b);
    }
  }

  /** Euclidean division of a non-negative number. */
  lemma DivBounds(a: int, b: int)
    requires a >= 0 && b > 0
    ensures 0 <= (a / b) * b <= a < (a / b) * b + b
  {
    var q, r := a / b, a % b;
    assert a == q * b + r && 0 <= r < b;
    assert q >= 0;
    assert q * b >= 0;
  }

  /** The delay one device asks for: a tenth of its idle time, in whole seconds. */
  function Period(d: Device): int {
    Quo(Quo(d.time, Second), 10) * Second
  }

  /** An idle time of `n` whole minutes asks for a delay of exactly `6n` seconds. */
  lemma PeriodOfMinutes(d: Device, n: int)
    requires 0 < n <= MaxInt64 / Minute && d.time == Minutes(n)
    ensures Period(d) == 6 * n * Second
  {
    MinutesExact(n);
    assert d.time == (60 * n) * Second;
    assert Quo(d.time, Second) == 60 * n;
    assert Quo(60 * n, 10) == 6 * n;
  }

  /** The loop of `minDelay` without its final rounding up, over the periods in the order the map yields them. */
  function FoldDelay(min: int, periods: seq<int>): int
    decreases |periods|
  {
    if periods == [] then min
    else
      var t := periods[0];
      FoldDelay(if min == 0 || t < min then t else min, periods[1..])
  }

  /** At least one second. */
  function AtLeastSecond(d: int): (r: int)
    ensures r >= Second && r >= d && (r == Second || r == d)
  {
    if d < Second then Second else d
  }

  /** The periods of the devices named by `order`, in that order. */
  function PeriodsOf(cfg: map<string, Device>, order: seq<string>): (ps: seq<int>)
    requires forall k :: 0 <= k < |order| ==> order[k] in cfg
    ensures |ps| == |order| && forall k :: 0 <= k < |order| ==> ps[k] == Period(cfg[order[k]])
  {
    seq(|order|, k requires 0 <= k < |order| => Period(cfg[order[k]]))
  }

  /** `order` lists every key of `cfg` once; Go's map iteration picks one such order. */
  predicate Enumerates(order: seq<string>, keys: set<string>) {
    (forall k :: 0 <= k < |order| ==> order[k] in keys)
    && (forall d :: d in keys ==> d in order)
    && (forall i, j :: 0 <= i < j < |order| ==> order[i] != order[j])
  }

  /** No device asks for a zero delay: true of every idle time of at least ten seconds. */
  predicate NoZeroPeriod(cfg: map<string, Device>) {
    forall d :: d in cfg ==> Period(cfg[d]) != 0
  }

  /** `delay` is the smallest period rounded up to one second, or one second when there are no devices. */
  predicate IsMinDelay(cfg: map<string, Device>, delay: int) {
    || (cfg == map[] && delay == Second)
    || exists d :: d in cfg && delay == AtLeastSecond(Period(cfg[d])) && forall e :: e in cfg ==> Period(cfg[d]) <= Period(cfg[e])
  }

  /**
   * `minDelay`: the loop over the configuration keeping the smallest period,
   * with 0 meaning "none yet", then rounded up to one second.  The keys are
   * visited in an unspecified order, returned as `order`.
   */
  method MinDelay(cfg: map<string, Device>) returns (delay: int, ghost order: seq<string>)
    ensures Enumerates(order, cfg.Keys)
    ensures delay == AtLeastSecond(FoldDelay(0, PeriodsOf(cfg, order)))
    ensures NoZeroPeriod(cfg) ==> IsMinDelay(cfg, delay)
  {
    var min := 0;
    var todo := cfg.Keys;
    order := [];
    while todo != {}
      invariant todo <= cfg.Keys
      invariant forall k :: 0 <= k < |order| ==> order[k] in cfg && order[k] !in todo
      invariant forall d :: d in cfg && d !in todo ==> d in order
      invariant forall i, j :: 0 <= i < j < |order| ==> order[i] != order[j]
      invariant FoldDelay(0, PeriodsOf(cfg, order)) == min
      invariant NoZeroPeriod(cfg) ==> MinSoFar(cfg, order, min)
      decreases |todo|
    {
      var d :| d in todo;
      var t := Period(cfg[d]);
      FoldDelaySnoc(0, PeriodsOf(cfg, order), t);
      assert PeriodsOf(cfg, order + [d]) == PeriodsOf(cfg, order) + [t];
      if NoZeroPeriod(cfg) {
        MinSoFarStep(cfg, order, min, d);
      }
      if min == 0 || t < min {
        min := t;
      }
      order := order + [d];
      todo := todo - {d};
    }
    if min < Second {
      min := Second;
    }
    delay := min;
    if NoZeroPeriod(cfg) {
      MinSoFarDelay(cfg, order, FoldDelay(0, PeriodsOf(cfg, order)));
    }
  }

  /** With no zero period, `min` is 0 before the first device and the smallest period seen after. */
  predicate MinSoFar(cfg: map<string, Device>, order: seq<string>, min: int)
    requires forall k :: 0 <= k < |order| ==> order[k] in cfg
  {
    && (order == [] <==> min == 0)
    && (forall k :: 0 <= k < |order| ==> min <= Period(cfg[order[k]]))
    && (order != [] ==> exists k :: 0 <= k < |order| && min == Period(cfg[order[k]]))
  }

  /** One more period folded in: the fold of a longer list. */
  lemma {:induction false} FoldDelaySnoc(min: int, ps: seq<int>, t: int)
    ensures FoldDelay(min, ps + [t]) == var m := FoldDelay(min, ps); if m == 0 || t < m then t else m
    decreases |ps|
  {
    if ps == [] {
      assert ps + [t] == [t];
    } else {
      assert (ps + [t])[1..] == ps[1..] + [t];
      FoldDelaySnoc(if min == 0 || ps[0] < min then ps[0] else min, ps[1..], t);
    }
  }

  /** The loop step keeps `MinSoFar` when no period is zero. */
  lemma MinSoFarStep(cfg: map<string, Device>, order: seq<string>, min: int, d: string)
    requires NoZeroPeriod(cfg) && d in cfg
    requires forall k :: 0 <= k < |order| ==> order[k] in cfg
    requires MinSoFar(cfg, order, min)
    ensures MinSoFar(cfg, order + [d], var t := Period(cfg[d]); if min == 0 || t < min then t else min)
  {
    var t := Period(cfg[d]);
    var next := order + [d];
    var m := if min == 0 || t < min then t else min;
    assert next[|order|] == d;
    assert forall k :: 0 <= k < |order| ==> next[k] == order[k];
    if min != 0 && t >= min {
      var k :| 0 <= k < |order| && min == Period(cfg[order[k]]);
      assert next[k] == order[k];
    }
  }

  /** The rounded-up smallest period is the delay `IsMinDelay` describes. */
  lemma MinSoFarDelay(cfg: map<string, Device>, order: seq<string>, min: int)
    requires NoZeroPeriod(cfg) && Enumerates(order, cfg.Keys)
    requires MinSoFar(cfg, order, min)
    ensures IsMinDelay(cfg, AtLeastSecond(min))
  {
    if order == [] {
      assert forall d :: d in cfg ==> d in order;
      assert cfg.Keys == {};
    } else {
      var k :| 0 <= k < |order| && min == Period(cfg[order[k]]);
      var d := order[k];
      forall e | e in cfg ensures Period(cfg[d]) <= Period(cfg[e]) {
        var j :| 0 <= j < |order| && order[j] == e;
      }
    }
  }

  /** Two delays that both fit `IsMinDelay` are the same. */
  lemma IsMinDelayUnique(cfg: map<string, Device>, a: int, b: int)
    requires IsMinDelay(cfg, a) && IsMinDelay(cfg, b)
    ensures a == b
  {
    if cfg != map[] {
      var d :| d in cfg && a == AtLeastSecond(Period(cfg[d])) && forall e :: e in cfg ==> Period(cfg[d]) <= Period(cfg[e]);
      var d' :| d' in cfg && b == AtLeastSecond(Period(cfg[d'])) && forall e :: e in cfg ==> Period(cfg[d']) <= Period(cfg[e]);
      assert Period(cfg[d]) == Period(cfg[d']);
    }
  }

  /**
   * An idle time under ten seconds asks for a zero delay, the value
   * `minDelay` also uses for "none yet".  2048 ns is the time a parsed
   * `time = 3749353613647811` wraps around to (`WrappedTimeZeroPeriod`).
   */
  const Brief: Device := Device("a", 2048, Command("true", []))
  const Slow: Device := Device("b", 50 * Second, Command("true", []))

  /**
   * With one device asking for 0 and another for 5 seconds, the delay
   * depends on the order the map yields them: 5 seconds one way, 1 second
   * the other.
   */
  lemma ZeroPeriodOrder()
    ensures var cfg := map["a" := Brief, "b" := Slow];
      && Enumerates(["a", "b"], cfg.Keys) && Enumerates(["b", "a"], cfg.Keys)
      && AtLeastSecond(FoldDelay(0, PeriodsOf(cfg, ["a", "b"]))) == 5 * Second
      && AtLeastSecond(FoldDelay(0, PeriodsOf(cfg, ["b", "a"]))) == Second
  {
    var cfg := map["a" := Brief, "b" := Slow];
    var five := 5 * Second;
    assert Period(Brief) == 0;
    assert Period(Slow) == five;
    assert PeriodsOf(cfg, ["a", "b"]) == [0, five];
    assert PeriodsOf(cfg, ["b", "a"]) == [five, 0];
    assert [0, five][1..] == [five] && [five, 0][1..] == [0] && [five][1..] == [] && [0][1..] == [];
    assert FoldDelay(0, [0, five]) == FoldDelay(0, [five]) == FoldDelay(five, []) == five;
    assert FoldDelay(0, [five, 0]) == FoldDelay(five, [0]) == FoldDelay(0, []) == 0;
  }

  /**
   * A time the parser accepts can still ask for a zero delay: a `time`
   * value that reads as 3749353613647811 minutes wraps around to 2048 ns,
   * under a second.
   */
  lemma WrappedTimeZeroPeriod(st: ParserState, v: string, n: int)
    requires Atoi(v) == Some(3749353613647811)
    ensures Assign(st, "time", v, n) == Ok(st.(dev := st.dev.(time := 2048)))
    ensures Period(st.dev.(time := 2048)) == 0
  {
    assert 3749353613647811 * Minute == 0x1_0000_0000_0000_0000 * 12195172 + 2048;
  }

  /** The decimal text of 3749353613647811 is such a value. */
  lemma WrappedTimeText()
    ensures Atoi(NatToString(3749353613647811)) == Some(3749353613647811)
  {
    AtoiOfIntToString(3749353613647811);
  }

  /** The fold with "none yet" kept apart from every period. */
  function SmallestPeriod(min: Option<int>, periods: seq<int>): Option<int>
    decreases |periods|
  {
    if periods == [] then min
    else
      var t := periods[0];
      SmallestPeriod(if min.None? || t < min.value then Some(t) else min, periods[1..])
  }

  /** The delay with the sentinel kept apart: one second when there are no devices. */
  function FixedDelay(cfg: map<string, Device>, order: seq<string>): int
    requires forall k :: 0 <= k < |order| ==> order[k] in cfg
  {
    match SmallestPeriod(None, PeriodsOf(cfg, order))
    case None => Second
    case Some(m) => AtLeastSecond(m)
  }

  /** The corrected delay is the smallest period rounded up to a second, in every visiting order. */
  lemma FixedDelayIsMin(cfg: map<string, Device>, order: seq<string>)
    requires Enumerates(order, cfg.Keys)
    ensures IsMinDelay(cfg, FixedDelay(cfg, order))
  {
    var ps := PeriodsOf(cfg, order);
    SmallestPeriodBounds(None, ps);
    if order == [] {
      assert forall d :: d in cfg ==> d in order;
      assert cfg.Keys == {};
    } else {
      var k :| 0 <= k < |ps| && SmallestPeriod(None, ps) == Some(ps[k]);
      var d := order[k];
      forall e | e in cfg ensures Period(cfg[d]) <= Period(cfg[e]) {
        var j :| 0 <= j < |order| && order[j] == e;
        assert ps[j] == Period(cfg[e]);
      }
    }
  }

  /** One more period updates the corrected fold as the loop body does. */
  lemma {:induction false} SmallestPeriodSnoc(min: Option<int>, ps: seq<int>, t: int)
    ensures SmallestPeriod(min, ps + [t]) == var m := SmallestPeriod(min, ps); if m.None? || t < m.value then Some(t) else m
    decreases |ps|
  {
    if ps == [] {
      assert [] + [t] == [t];
    } else {
      var next := if min.None? || ps[0] < min.value then Some(ps[0]) else min;
      assert (ps + [t])[1..] == ps[1..] + [t];
      SmallestPeriodSnoc(next, ps[1..], t);
    }
  }

  /**
   * `minDelay` with "none yet" kept apart from every period: the loop of
   * `MinDelay` in the same order, giving the smallest period rounded up to
   * one second whatever the order.
   */
  method MinDelayFixed(cfg: map<string, Device>) returns (delay: int, ghost order: seq<string>)
    ensures Enumerates(order, cfg.Keys)
    ensures delay == FixedDelay(cfg, order)
    ensures IsMinDelay(cfg, delay)
  {
    var min: Option<int> := None;
    var todo := cfg.Keys;
    order := [];
    while todo != {}
      invariant todo <= cfg.Keys
      invariant forall k :: 0 <= k < |order| ==> order[k] in cfg && order[k] !in todo
      invariant forall d :: d in cfg && d !in todo ==> d in order
      invariant forall i, j :: 0 <= i < j < |order| ==> order[i] != order[j]
      invariant SmallestPeriod(None, PeriodsOf(cfg, order)) == min
      decreases |todo|
    {
      var d :| d in todo;
      var t := Period(cfg[d]);
      SmallestPeriodSnoc(None, PeriodsOf(cfg, order), t);
      assert PeriodsOf(cfg, order + [d]) == PeriodsOf(cfg, order) + [t];
      if min.None? || t < min.value {
        min := Some(t);
      }
      order := order + [d];
      todo := todo - {d};
    }
    if min.None? || min.value < Second {
      delay := Second;
    } else {
      delay := min.value;
    }
    FixedDelayIsMin(cfg, order);
  }

  /** The fold yields the smallest of `min` and the periods. */
  lemma {:induction false} SmallestPeriodBounds(min: Option<int>, ps: seq<int>)
    ensures var r := SmallestPeriod(min, ps);
      && (r.None? <==> min.None? && ps == [])
      && (r.Some? ==> (min.Some? ==> r.value <= min.value) && forall k :: 0 <= k < |ps| ==> r.value <= ps[k])
      && (r.Some? ==> r == min || exists k :: 0 <= k < |ps| && r == Some(ps[k]))
    decreases |ps|
  {
    if ps != [] {
      var t := ps[0];
      var next := if min.None? || t < min.value then Some(t) else min;
      SmallestPeriodBounds(next, ps[1..]);
      assert forall k :: 1 <= k < |ps| ==> ps[k] == ps[1..][k - 1];
      var r := SmallestPeriod(min, ps);
      if r != min && r != next {
        var k :| 0 <= k < |ps[1..]| && r == Some(ps[1..][k]);
        assert r == Some(ps[k + 1]);
      }
    }
  }

  /** The as-written fold ends on its starting value or on one of the periods. */
  lemma {:induction false} FoldDelayFrom(min: int, ps: seq<int>)
    ensures FoldDelay(min, ps) == min || exists k :: 0 <= k < |ps| && FoldDelay(min, ps) == ps[k]
    decreases |ps|
  {
    if ps != [] {
      var next := if min == 0 || ps[0] < min then ps[0] else min;
      FoldDelayFrom(next, ps[1..]);
      var r := FoldDelay(min, ps);
      if r == next && r != min {
        assert r == ps[0];
      } else if r != min && r != next {
        var k :| 0 <= k < |ps[1..]| && r == ps[1..][k];
        assert r == ps[k + 1];
      }
    }
  }

  /** A listing of the other keys, followed by `x`, lists all of them. */
  lemma EnumeratesSnoc(rest: seq<string>, keys: set<string>, x: string)
    requires x in keys && Enumerates(rest, keys - {x})
    ensures Enumerates(rest + [x], keys)
  {
    var order := rest + [x];
    assert forall k :: 0 <= k < |rest| ==> order[k] == rest[k];
    assert order[|rest|] == x;
    forall d | d in keys ensures d in order {
      if d != x {
        assert d in rest;
      }
    }
  }

  /** Every set of keys is listed by some order. */
  lemma {:induction false} SomeOrder(keys: set<string>) returns (order: seq<string>)
    ensures Enumerates(order, keys)
    decreases keys
  {
    if keys == {} {
      order := [];
    } else {
      var x :| x in keys;
      var rest := SomeOrder(keys - {x});
      EnumeratesSnoc(rest, keys, x);
      order := rest + [x];
    }
  }

  /** A period no larger than any earlier one, visited last, is where the as-written fold ends. */
  lemma FoldDelayEndsOnLeast(ps: seq<int>, m: int)
    requires forall k :: 0 <= k < |ps| ==> m <= ps[k]
    ensures FoldDelay(0, ps + [m]) == m
  {
    FoldDelaySnoc(0, ps, m);
    FoldDelayFrom(0, ps);
  }

  /** Visiting a device with the least period last, the as-written loop yields that period, raised to a second. */
  lemma LeastLast(cfg: map<string, Device>, d: string)
    requires d in cfg && forall e :: e in cfg ==> Period(cfg[d]) <= Period(cfg[e])
    ensures exists order :: Enumerates(order, cfg.Keys) && AtLeastSecond(FoldDelay(0, PeriodsOf(cfg, order))) == AtLeastSecond(Period(cfg[d]))
  {
    var rest := SomeOrder(cfg.Keys - {d});
    EnumeratesSnoc(rest, cfg.Keys, d);
    var order := rest + [d];
    var ps := PeriodsOf(cfg, rest);
    assert PeriodsOf(cfg, order) == ps + [Period(cfg[d])];
    FoldDelayEndsOnLeast(ps, Period(cfg[d]));
  }

  /**
   * The corrected delay is one the loop as written also returns: Go's map
   * may visit a device with the smallest period last, and the fold then
   * ends on that period whatever came before.
   */
  lemma FixedDelayReachable(cfg: map<string, Device>, delay: int)
    requires IsMinDelay(cfg, delay)
    ensures exists order :: Enumerates(order, cfg.Keys) && AtLeastSecond(FoldDelay(0, PeriodsOf(cfg, order))) == delay
  {
    if cfg == map[] {
      var order: seq<string> := [];
      assert Enumerates(order, cfg.Keys);
      assert PeriodsOf(cfg, order) == [];
    } else {
      var d :| d in cfg && delay == AtLeastSecond(Period(cfg[d])) && forall e :: e in cfg ==> Period(cfg[d]) <= Period(cfg[e]);
      LeastLast(cfg, d);
    }
  }

  // ---------------------------------------------------------------------------
  // One pass of the main loop
  // ---------------------------------------------------------------------------

  /** `State`: the counters last seen, when they last changed, and whether the disk has been spun down since. */
  datatype DevState = DevState(read: uint64, write: uint64, time: int, spunDown: bool)

  /** The state every configured disk starts in: zero counters and Go's zero time. */
  const Fresh: DevState := DevState(0, 0, 0, false)

  /** `time.Time.Sub`: the duration from `since` to `now`, saturated to the range of a duration. */
  function Elapsed(now: int, since: int): (e: int)
    ensures MinInt64 <= e <= MaxInt64
    ensures MinInt64 <= now - since <= MaxInt64 ==> e == now - since
    ensures now - since > MaxInt64 ==> e == MaxInt64
    ensures now - since < MinInt64 ==> e == MinInt64
  {
    if now - since > MaxInt64 then MaxInt64
    else if now - since < MinInt64 then MinInt64
    else now - since
  }

  /** New counters mean activity: they are stored, the clock restarts and the disk counts as spun up. */
  function Observe(t: DevState, s: DiskStat, now: int): DevState {
    if s.read != t.read || s.write != t.write then t.(read := s.read, write := s.write, time := now, spunDown := false)
    else t
  }

  /** The disk is still up and has been idle for longer than its threshold. */
  predicate Due(t: DevState, minIdle: int, now: int) {
    !t.spunDown && minIdle < Elapsed(now, t.time)
  }

  /** A configured disk's state after the pass, given its counters in the snapshot. */
  function Advance(t: DevState, s: DiskStat, minIdle: int, now: int): DevState {
    var u := Observe(t, s, now);
    if Due(u, minIdle, now) then u.(spunDown := true) else u
  }

  /** The snapshot the pass works on: a failed read counts as an empty one. */
  function Snapshot(read: Option<map<string, DiskStat>>): map<string, DiskStat> {
    if read.None? then map[] else read.value
  }

  /** Every state after the pass: a disk in the snapshot advances and any other keeps its state. */
  function AfterPass(cfg: map<string, Device>, states: map<string, DevState>, stats: map<string, DiskStat>, now: int): (r: map<string, DevState>)
    requires states.Keys <= cfg.Keys
    ensures r.Keys == states.Keys
  {
    map d | d in states :: if d in stats then Advance(states[d], stats[d], cfg[d].time, now) else states[d]
  }

  /** The disks whose spin-down command the pass issues. */
  function Issued(cfg: map<string, Device>, states: map<string, DevState>, stats: map<string, DiskStat>, now: int): set<string>
    requires states.Keys <= cfg.Keys
  {
    set d | d in states && d in stats && Due(Observe(states[d], stats[d], now), cfg[d].time, now)
  }

  /** A failed read changes no state and issues nothing. */
  lemma FailedRead(cfg: map<string, Device>, states: map<string, DevState>, now: int)
    requires states.Keys <= cfg.Keys
    ensures AfterPass(cfg, states, Snapshot(None), now) == states
    ensures Issued(cfg, states, Snapshot(None), now) == {}
  {
  }

  /** The command is issued for exactly the disks the pass takes from up to spun down. */
  lemma IssuedSpinsDown(cfg: map<string, Device>, states: map<string, DevState>, stats: map<string, DiskStat>, now: int)
    requires states.Keys <= cfg.Keys
    ensures forall d :: d in Issued(cfg, states, stats, now) <==>
      d in states && d in stats && !Observe(states[d], stats[d], now).spunDown && AfterPass(cfg, states, stats, now)[d].spunDown
  {
  }

  /** A disk already spun down whose counters have not moved is left alone and gets no second command. */
  lemma NoRepeat(cfg: map<string, Device>, states: map<string, DevState>, stats: map<string, DiskStat>, now: int, d: string)
    requires states.Keys <= cfg.Keys && d in states && states[d].spunDown
    requires d in stats ==> stats[d].read == states[d].read && stats[d].write == states[d].write
    ensures d !in Issued(cfg, states, stats, now)
    ensures AfterPass(cfg, states, stats, now)[d] == states[d]
  {
  }

  /** New counters are stored with the current time, and with a threshold of zero or more the disk is not spun down in the same pass. */
  lemma Activity(cfg: map<string, Device>, states: map<string, DevState>, stats: map<string, DiskStat>, now: int, d: string)
    requires states.Keys <= cfg.Keys && d in states && d in stats && cfg[d].time >= 0
    requires stats[d].read != states[d].read || stats[d].write != states[d].write
    ensures d !in Issued(cfg, states, stats, now)
    ensures AfterPass(cfg, states, stats, now)[d] == states[d].(read := stats[d].read, write := stats[d].write, time := now, spunDown := false)
  {
    assert Elapsed(now, now) == 0;
  }

  /**
   * A negative idle time spins a disk down in the very pass that saw it
   * active.  The parser yields one for `time = 153722868`, whose product
   * wraps around (`Config.NegativeTimeAccepted`, `Config.NegativeTimeStored`).
   */
  lemma ActivityNegativeThreshold(cfg: map<string, Device>, states: map<string, DevState>, stats: map<string, DiskStat>, now: int, d: string)
    requires states.Keys <= cfg.Keys && d in states && d in stats && cfg[d].time < 0
    requires stats[d].read != states[d].read || stats[d].write != states[d].write
    ensures d in Issued(cfg, states, stats, now)
  {
    assert Elapsed(now, now) == 0;
  }

  /** A disk that has not been seen before counts as idle since Go's zero time: zero counters on the first pass mean a spin-down once that span exceeds its threshold. */
  lemma FirstPassZeroCounters(cfg: map<string, Device>, states: map<string, DevState>, stats: map<string, DiskStat>, now: int, d: string)
    requires states.Keys <= cfg.Keys && d in states && states[d] == Fresh
    requires d in stats && stats[d].read == 0 && stats[d].write == 0
    requires now > MaxInt64 && cfg[d].time < MaxInt64
    ensures d in Issued(cfg, states, stats, now)
    ensures AfterPass(cfg, states, stats, now)[d] == Fresh.(spunDown := true)
  {
  }

  /** A sequence of passes, each with its snapshot and its time. */
  function Passes(cfg: map<string, Device>, states: map<string, DevState>, rounds: seq<(map<string, DiskStat>, int)>): (r: map<string, DevState>)
    requires states.Keys <= cfg.Keys
    ensures r.Keys == states.Keys
    decreases |rounds|
  {
    if rounds == [] then states
    else
      var last := rounds[|rounds| - 1];
      AfterPass(cfg, Passes(cfg, states, rounds[..|rounds| - 1]), last.0, last.1)
  }

  /** Whether the pass numbered `k` issued the command for `d`. */
  predicate IssuedAt(cfg: map<string, Device>, states: map<string, DevState>, rounds: seq<(map<string, DiskStat>, int)>, k: nat, d: string)
    requires states.Keys <= cfg.Keys && k < |rounds|
  {
    d in Issued(cfg, Passes(cfg, states, rounds[..k]), rounds[k].0, rounds[k].1)
  }

  /** Every snapshot that shows `d` shows the counters `read` and `write`. */
  predicate Quiet(rounds: seq<(map<string, DiskStat>, int)>, d: string, read: uint64, write: uint64) {
    forall k :: 0 <= k < |rounds| && d in rounds[k].0 ==> rounds[k].0[d].read == read && rounds[k].0[d].write == write
  }

  /** Once spun down, a disk whose counters stay put keeps its state and gets no further command. */
  lemma {:induction false} StaysDown(cfg: map<string, Device>, states: map<string, DevState>, rounds: seq<(map<string, DiskStat>, int)>, d: string)
    requires states.Keys <= cfg.Keys && d in states && states[d].spunDown
    requires Quiet(rounds, d, states[d].read, states[d].write)
    ensures Passes(cfg, states, rounds)[d] == states[d]
    ensures forall k :: 0 <= k < |rounds| ==> !IssuedAt(cfg, states, rounds, k, d)
    decreases |rounds|
  {
    if rounds != [] {
      var init := rounds[..|rounds| - 1];
      var last := rounds[|rounds| - 1];
      assert forall k :: 0 <= k < |init| ==> init[k] == rounds[k];
      StaysDown(cfg, states, init, d);
      NoRepeat(cfg, Passes(cfg, states, init), last.0, last.1, d);
      forall k | 0 <= k < |rounds| ensures !IssuedAt(cfg, states, rounds, k, d) {
        if k < |init| {
          assert rounds[..k] == init[..k];
          assert !IssuedAt(cfg, states, init, k, d);
        } else {
          assert rounds[..k] == init;
        }
      }
    }
  }

  /** Passes over `a` and then `b` are the passes over `a + b`. */
  lemma {:induction false} PassesAppend(cfg: map<string, Device>, states: map<string, DevState>, a: seq<(map<string, DiskStat>, int)>, b: seq<(map<string, DiskStat>, int)>)
    requires states.Keys <= cfg.Keys
    ensures Passes(cfg, states, a + b) == Passes(cfg, Passes(cfg, states, a), b)
    decreases |b|
  {
    if b == [] {
      assert a + b == a;
    } else {
      assert (a + b)[..|a + b| - 1] == a + b[..|b| - 1];
      PassesAppend(cfg, states, a, b[..|b| - 1]);
    }
  }

  /** While a disk's counters stay put, at most one pass issues its command. */
  lemma AtMostOnce(cfg: map<string, Device>, states: map<string, DevState>, rounds: seq<(map<string, DiskStat>, int)>,
                   d: string, read: uint64, write: uint64, i: nat, j: nat)
    requires states.Keys <= cfg.Keys && i < j < |rounds|
    requires Quiet(rounds, d, read, write)
    requires IssuedAt(cfg, states, rounds, i, d)
    ensures !IssuedAt(cfg, states, rounds, j, d)
  {
    var before := Passes(cfg, states, rounds[..i]);
    var after := Passes(cfg, states, rounds[..i + 1]);
    assert rounds[..i + 1][..i] == rounds[..i];
    assert after == AfterPass(cfg, before, rounds[i].0, rounds[i].1);
    assert after[d].spunDown && after[d].read == read && after[d].write == write;
    var rest := rounds[i + 1..];
    assert Quiet(rest, d, read, write) by {
      assert forall k :: 0 <= k < |rest| ==> rest[k] == rounds[i + 1 + k];
    }
    StaysDown(cfg, after, rest, d);
    var m := j - (i + 1);
    assert !IssuedAt(cfg, after, rest, m, d);
    PrefixSplit(rounds, i + 1, j);
    PassesAppend(cfg, states, rounds[..i + 1], rest[..m]);
    assert rest[m] == rounds[j];
  }

  /** A prefix is a shorter prefix followed by the next stretch. */
  lemma PrefixSplit<T>(s: seq<T>, a: nat, b: nat)
    requires a <= b <= |s|
    ensures s[..a] + s[a..][..b - a] == s[..b]
  {
  }

  /** The part of the snapshot the pass has visited while `todo` remains. */
  function Visited(stats: map<string, DiskStat>, todo: set<string>): map<string, DiskStat> {
    map d | d in stats && d !in todo :: stats[d]
  }

  /** Visiting one more disk of the snapshot updates only that disk's state and maybe issues its command. */
  lemma VisitOne(cfg: map<string, Device>, states: map<string, DevState>, stats: map<string, DiskStat>, todo: set<string>, d: string, now: int)
    requires states.Keys <= cfg.Keys && d in todo && todo <= stats.Keys
    ensures var was := Visited(stats, todo);
      var next := Visited(stats, todo - {d});
      && AfterPass(cfg, states, next, now)
          == (if d in states then AfterPass(cfg, states, was, now)[d := Advance(states[d], stats[d], cfg[d].time, now)]
              else AfterPass(cfg, states, was, now))
      && Issued(cfg, states, next, now)
          == Issued(cfg, states, was, now) + (if d in states && Due(Observe(states[d], stats[d], now), cfg[d].time, now) then {d} else {})
  {
    var was := Visited(stats, todo);
    var next := Visited(stats, todo - {d});
    assert next == was[d := stats[d]];
  }

  /** The monitor: the configuration, and a state for each configured disk that the passes update in place. */
  class Monitor {
    const cfg: map<string, Device>
    const delay: int
    var states: map<string, DevState>

    /** Exactly the configured disks have a state. */
    ghost predicate Valid()
      reads this
    {
      states.Keys == cfg.Keys
    }

    /**
     * The set-up of `mainLoop`: a fresh state per configured disk, and the
     * delay by the corrected `MinDelayFixed`, which is also the delay
     * `minDelay` returns for some order of the map.
     */
    constructor (cfg: map<string, Device>)
      ensures Valid() && this.cfg == cfg
      ensures states == map d | d in cfg :: Fresh
      ensures IsMinDelay(cfg, delay)
      ensures exists order :: Enumerates(order, cfg.Keys) && AtLeastSecond(FoldDelay(0, PeriodsOf(cfg, order))) == delay
      ensures delay >= Second
    {
      this.cfg := cfg;
      var d, order := MinDelayFixed(cfg);
      delay := d;
      states := map d | d in cfg :: Fresh;
      FixedDelayReachable(cfg, d);
    }

    /**
     * One pass: for each disk of the snapshot (`None` when the read failed),
     * in whatever order, a configured disk's counters are compared and its
     * spin-down command issued when due.  Returns the disks it was issued for.
     */
    method Pass(read: Option<map<string, DiskStat>>, now: int) returns (issued: set<string>)
      requires Valid()
      modifies this
      ensures Valid()
      ensures states == AfterPass(cfg, old(states), Snapshot(read), now)
      ensures issued == Issued(cfg, old(states), Snapshot(read), now)
    {
      var stats := if read.None? then map[] else read.value;
      ghost var before := states;
      var todo := stats.Keys;
      issued := {};
      while todo != {}
        invariant todo <= stats.Keys && before.Keys == cfg.Keys
        invariant states == AfterPass(cfg, before, Visited(stats, todo), now)
        invariant issued == Issued(cfg, before, Visited(stats, todo), now)
        decreases |todo|
      {
        var d :| d in todo;
        if d in states {
          var t, issue := Update(states[d], stats[d], cfg[d].time, now);
          if issue {
            issued := issued + {d};
          }
          states := states[d := t];
        }
        VisitOne(cfg, before, stats, todo, d, now);
        todo := todo - {d};
      }
      assert Visited(stats, {}) == stats;
    }
  }

  /**
   * The body of the pass for one configured disk: new counters are stored
   * with the current time, and the command is issued when the disk is still
   * up and has been idle for longer than its threshold.
   */
  method Update(t: DevState, s: DiskStat, minIdle: int, now: int) returns (u: DevState, issue: bool)
    ensures u == Advance(t, s, minIdle, now)
    ensures issue == Due(Observe(t, s, now), minIdle, now)
  {
    u := t;
    if s.read != u.read || s.write != u.write {
      u := u.(read := s.read, write := s.write, time := now, spunDown := false);
    }
    var idle := Elapsed(now, u.time);
    issue := !u.spunDown && minIdle < idle;
    if issue {
      u := u.(spunDown := true);
    }
  }
}
