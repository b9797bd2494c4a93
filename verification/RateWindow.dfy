/**
 The fixed-window frame budgets of the session link (src/session-link.ts): frames and bytes, per
 session and for the whole host. Windows belong to the session, so reconnecting does not reset them.
 */
module RateWindow {
  import opened Wrappers

  const WINDOW_MS := 1000
  const MAX_FRAMES_PER_SECOND: nat := 256
  const MAX_FRAME_BYTES_PER_SECOND: nat := 24 * 1024 * 1024
  const MAX_GLOBAL_FRAMES_PER_SECOND: nat := 512
  const MAX_GLOBAL_FRAME_BYTES_PER_SECOND: nat := 32 * 1024 * 1024

  /** A frame of a session arriving at a clock reading. */
  datatype Arrival = Arrival(session: string, at: nat, bytes: nat)

  datatype Meter = Meter(startedAt: int, frames: nat, bytes: nat)

  const UNUSED := Meter(0, 0, 0)

  function Count(m: Meter, x: Arrival): Meter {
    if x.at - m.startedAt >= WINDOW_MS then Meter(x.at, 1, x.bytes)
    else Meter(m.startedAt, m.frames + 1, m.bytes + x.bytes)
  }

  predicate Within(own: Meter, all: Meter) {
    && own.frames <= MAX_FRAMES_PER_SECOND && own.bytes <= MAX_FRAME_BYTES_PER_SECOND
    && all.frames <= MAX_GLOBAL_FRAMES_PER_SECOND && all.bytes <= MAX_GLOBAL_FRAME_BYTES_PER_SECOND
  }

  /** The meter of one session, or of the host when `session` is None, after a log of arrivals. */
  function MeterOf(log: seq<Arrival>, session: Option<string>): Meter {
    if log == [] then UNUSED
    else
      var before, x := MeterOf(log[..|log| - 1], session), log[|log| - 1];
      if session.None? || session.value == x.session then Count(before, x) else before
  }

  lemma MeterExtends(log: seq<Arrival>, x: Arrival, session: Option<string>)
    ensures MeterOf(log + [x], session) ==
            if session.None? || session.value == x.session then Count(MeterOf(log, session), x)
            else MeterOf(log, session)
  {
    assert (log + [x])[..|log + [x]| - 1] == log;
  }

  /** The arrival that ends the log passes every budget. */
  predicate Passes(log: seq<Arrival>)
    requires log != []
  {
    Within(MeterOf(log, Some(log[|log| - 1].session)), MeterOf(log, None))
  }

  function Own(own: map<string, Meter>, session: string): Meter {
    if session in own then own[session] else UNUSED
  }

  /** The counters are exactly what the log of arrivals makes them. */
  ghost predicate Metered(own: map<string, Meter>, all: Meter, log: seq<Arrival>) {
    all == MeterOf(log, None) && forall s :: Own(own, s) == MeterOf(log, Some(s))
  }

  lemma MetersExtend(own: map<string, Meter>, all: Meter, log: seq<Arrival>, x: Arrival)
    requires Metered(own, all, log)
    ensures Metered(own[x.session := Count(Own(own, x.session), x)], Count(all, x), log + [x])
    ensures Passes(log + [x]) <==> Within(Count(Own(own, x.session), x), Count(all, x))
  {
    hide MeterOf, Count, Within;
    MeterExtends(log, x, None);
    forall s ensures Own(own[x.session := Count(Own(own, x.session), x)], s) == MeterOf(log + [x], Some(s)) {
      MeterExtends(log, x, Some(s));
    }
  }

  class Budgets {
    var own: map<string, Meter>
    var all: Meter
    ghost var log: seq<Arrival>

    ghost predicate Valid()
      reads this
    {
      Metered(own, all, log)
    }

    constructor ()
      ensures Valid() && log == []
    {
      own, all, log := map[], UNUSED, [];
    }

    /** Counts the frame in both windows, also when it is then refused. */
    method Admit(session: string, now: nat, bytes: nat) returns (admitted: bool)
      requires Valid()
      modifies this
      ensures Valid() && log == old(log) + [Arrival(session, now, bytes)]
      ensures admitted == Passes(log)
    {
      hide Metered, MeterOf, Passes, Within;
      var mine := if session in own then own[session] else UNUSED;
      if now - mine.startedAt >= WINDOW_MS {
        mine := Meter(now, 0, 0);
      }
      mine := mine.(frames := mine.frames + 1, bytes := mine.bytes + bytes);
      if now - all.startedAt >= WINDOW_MS {
        all := Meter(now, 0, 0);
      }
      all := all.(frames := all.frames + 1, bytes := all.bytes + bytes);
      own := own[session := mine];
      MetersExtend(old(own), old(all), log, Arrival(session, now, bytes));
      log := log + [Arrival(session, now, bytes)];
      return Within(mine, all);
    }
  }

  // ---- one abstract counter ----

  /** A counted arrival of some weight; `applied` says whether it got through. */
  datatype Tick = Tick(at: int, weight: nat, applied: bool)

  datatype Window = Window(startedAt: int, used: nat)

  function Used(ticks: seq<Tick>): Window {
    if ticks == [] then Window(0, 0)
    else
      var w, t := Used(ticks[..|ticks| - 1]), ticks[|ticks| - 1];
      if t.at - w.startedAt >= WINDOW_MS then Window(t.at, t.weight) else Window(w.startedAt, w.used + t.weight)
  }

  /** Nothing gets through that takes its window over the limit. */
  ghost predicate Respects(ticks: seq<Tick>, limit: nat) {
    forall i | 0 <= i < |ticks| && ticks[i].applied :: Used(ticks[..i + 1]).used <= limit
  }

  ghost predicate ClockRuns(ticks: seq<Tick>) {
    && (forall i | 0 <= i < |ticks| :: 0 <= ticks[i].at)
    && (forall i, j | 0 <= i < j < |ticks| :: ticks[i].at <= ticks[j].at)
  }

  /** The weight that got through in [from, to). */
  function Sum(ticks: seq<Tick>, from: int, to: int): nat {
    if ticks == [] then 0
    else
      var t := ticks[|ticks| - 1];
      Sum(ticks[..|ticks| - 1], from, to) + if t.applied && from <= t.at < to then t.weight else 0
  }

  lemma SumAppends(ticks: seq<Tick>, t: Tick, from: int, to: int)
    ensures Sum(ticks + [t], from, to) == Sum(ticks, from, to) + if t.applied && from <= t.at < to then t.weight else 0
  {
    assert (ticks + [t])[..|ticks + [t]| - 1] == ticks;
  }

  lemma {:induction false} SumSplits(ticks: seq<Tick>, a: int, b: int, c: int)
    requires a <= b <= c
    ensures Sum(ticks, a, c) == Sum(ticks, a, b) + Sum(ticks, b, c)
  {
    if ticks != [] {
      SumSplits(ticks[..|ticks| - 1], a, b, c);
    }
  }

  lemma {:induction false} SumOutside(ticks: seq<Tick>, from: int, to: int)
    requires forall i | 0 <= i < |ticks| :: !(from <= ticks[i].at < to)
    ensures Sum(ticks, from, to) == 0
  {
    if ticks != [] {
      SumOutside(ticks[..|ticks| - 1], from, to);
    }
  }

  /** The current window and the one before it each let through at most the limit. */
  ghost predicate TwoWindows(ticks: seq<Tick>, limit: nat, previous: int, horizon: int) {
    var w := Used(ticks);
    && previous + WINDOW_MS <= w.startedAt
    && Sum(ticks, previous, w.startedAt) <= limit
    && Sum(ticks, w.startedAt, horizon) <= limit
    && Sum(ticks, w.startedAt, horizon) <= w.used
    && (forall i | 0 <= i < |ticks| :: ticks[i].at < w.startedAt + WINDOW_MS)
    && w.startedAt + WINDOW_MS <= horizon
  }

  lemma TwoWindowsStep(ticks: seq<Tick>, t: Tick, limit: nat, previous: int, horizon: int)
    requires TwoWindows(ticks, limit, previous, horizon)
    requires t.applied ==> Used(ticks + [t]).used <= limit
    requires Used(ticks).startedAt <= t.at && t.at + WINDOW_MS <= horizon
    ensures TwoWindows(ticks + [t], limit,
                       if t.at - Used(ticks).startedAt >= WINDOW_MS then Used(ticks).startedAt else previous, horizon)
  {
    var w, grown := Used(ticks), ticks + [t];
    assert grown[..|grown| - 1] == ticks && grown[|grown| - 1] == t;
    SumAppends(ticks, t, w.startedAt, horizon);
    if t.at - w.startedAt >= WINDOW_MS {
      SumSplits(ticks, w.startedAt, t.at, horizon);
      SumOutside(ticks, t.at, horizon);
      SumAppends(ticks, t, w.startedAt, t.at);
      SumAppends(ticks, t, t.at, horizon);
    } else {
      SumAppends(ticks, t, previous, w.startedAt);
    }
    hide Sum;
  }

  lemma RespectsShorter(ticks: seq<Tick>, limit: nat)
    requires ticks != [] && Respects(ticks, limit)
    ensures Respects(ticks[..|ticks| - 1], limit)
    ensures ticks[|ticks| - 1].applied ==> Used(ticks).used <= limit
  {
    assert ticks[..|ticks| - 1 + 1] == ticks;
    var before := ticks[..|ticks| - 1];
    forall i | 0 <= i < |before| && before[i].applied ensures Used(before[..i + 1]).used <= limit {
      assert before[..i + 1] == ticks[..i + 1];
    }
  }

  lemma {:induction false} RunHasTwoWindows(ticks: seq<Tick>, limit: nat, horizon: int) returns (previous: int)
    requires Respects(ticks, limit) && ClockRuns(ticks)
    requires WINDOW_MS <= horizon && forall i | 0 <= i < |ticks| :: ticks[i].at + WINDOW_MS <= horizon
    ensures TwoWindows(ticks, limit, previous, horizon)
  {
    if ticks == [] {
      previous := -WINDOW_MS;
    } else {
      var before, t := ticks[..|ticks| - 1], ticks[|ticks| - 1];
      RespectsShorter(ticks, limit);
      hide Respects, TwoWindows, Sum;
      previous := RunHasTwoWindows(before, limit, horizon);
      assert before + [t] == ticks;
      if before != [] {
        WindowStarted(before);
      }
      TwoWindowsStep(before, t, limit, previous, horizon);
      previous := if t.at - Used(before).startedAt >= WINDOW_MS then Used(before).startedAt else previous;
    }
  }

  lemma {:induction false} SumMonotone(ticks: seq<Tick>, a: int, b: int, c: int, d: int)
    requires a <= b && c <= d
    ensures Sum(ticks, b, c) <= Sum(ticks, a, d)
  {
    if ticks != [] {
      SumMonotone(ticks[..|ticks| - 1], a, b, c, d);
    }
  }

  /** Any closed interval of one window length meets at most two windows. */
  lemma {:induction false} AnySecondIsBounded(ticks: seq<Tick>, limit: nat, a: int)
    requires Respects(ticks, limit) && ClockRuns(ticks)
    ensures Sum(ticks, a, a + WINDOW_MS + 1) <= 2 * limit
  {
    if ticks != [] {
      var before, t := ticks[..|ticks| - 1], ticks[|ticks| - 1];
      var to := a + WINDOW_MS + 1;
      if t.at >= to {
        RespectsShorter(ticks, limit);
        AnySecondIsBounded(before, limit, a);
      } else {
        var horizon := t.at + WINDOW_MS;
        var previous := RunHasTwoWindows(ticks, limit, horizon);
        var s := Used(ticks).startedAt;
        WindowStarted(ticks);
        if to > horizon {
          SumSplits(ticks, if a <= horizon then a else horizon, horizon, to);
          SumOutside(ticks, horizon, to);
          SumMonotone(ticks, if a <= horizon then a else horizon, a, to, to);
        } else {
          SumMonotone(ticks, a, a, to, horizon);
        }
        if a < s {
          SumSplits(ticks, a, s, if horizon >= s then horizon else s);
          SumMonotone(ticks, previous, a, s, s);
        } else {
          SumMonotone(ticks, s, a, horizon, horizon);
        }
      }
    }
  }

  /** A window starts at an arrival that is not later than the last one. */
  lemma {:induction false} WindowStarted(ticks: seq<Tick>)
    requires ticks != [] && ClockRuns(ticks)
    ensures Used(ticks).startedAt <= ticks[|ticks| - 1].at
  {
    var before := ticks[..|ticks| - 1];
    if before != [] {
      WindowStarted(before);
    }
  }

  // ---- the four budgets ----

  datatype Budget = SessionFrames(session: string) | SessionBytes(session: string) | GlobalFrames | GlobalBytes

  function Scope(b: Budget): Option<string> {
    match b
    case SessionFrames(s) => Some(s)
    case SessionBytes(s) => Some(s)
    case _ => None
  }

  predicate Counts(b: Budget, x: Arrival) {
    Scope(b).None? || Scope(b).value == x.session
  }

  function Weight(b: Budget, x: Arrival): nat {
    if b.SessionFrames? || b.GlobalFrames? then 1 else x.bytes
  }

  function Limit(b: Budget): nat {
    match b
    case SessionFrames(_) => MAX_FRAMES_PER_SECOND
    case SessionBytes(_) => MAX_FRAME_BYTES_PER_SECOND
    case GlobalFrames => MAX_GLOBAL_FRAMES_PER_SECOND
    case GlobalBytes => MAX_GLOBAL_FRAME_BYTES_PER_SECOND
  }

  function WindowIn(b: Budget, m: Meter): Window {
    Window(m.startedAt, if b.SessionFrames? || b.GlobalFrames? then m.frames else m.bytes)
  }

  /** What one budget sees of a log of arrivals. */
  function Ticks(log: seq<Arrival>, b: Budget): seq<Tick> {
    if log == [] then []
    else
      var before, x := Ticks(log[..|log| - 1], b), log[|log| - 1];
      if Counts(b, x) then before + [Tick(x.at, Weight(b, x), Passes(log))] else before
  }

  /** The weight a budget let through in the closed interval [from, from + WINDOW_MS]. */
  function Passed(log: seq<Arrival>, b: Budget, from: int): nat {
    if log == [] then 0
    else
      var x := log[|log| - 1];
      Passed(log[..|log| - 1], b, from) +
      if Counts(b, x) && Passes(log) && from <= x.at <= from + WINDOW_MS then Weight(b, x) else 0
  }

  ghost predicate LogOrdered(log: seq<Arrival>) {
    forall i, j | 0 <= i < j < |log| :: log[i].at <= log[j].at
  }

  lemma {:induction false} TicksUseMeter(log: seq<Arrival>, b: Budget)
    ensures Used(Ticks(log, b)) == WindowIn(b, MeterOf(log, Scope(b)))
  {
    if log != [] {
      var before, x := log[..|log| - 1], log[|log| - 1];
      TicksUseMeter(before, b);
      if Counts(b, x) {
        assert Ticks(log, b)[..|Ticks(log, b)| - 1] == Ticks(before, b);
      }
    }
  }

  lemma {:induction false} TicksRespect(log: seq<Arrival>, b: Budget)
    ensures Respects(Ticks(log, b), Limit(b))
  {
    if log != [] {
      var before, x := log[..|log| - 1], log[|log| - 1];
      TicksRespect(before, b);
      if Counts(b, x) {
        var earlier, ticks := Ticks(before, b), Ticks(log, b);
        TicksUseMeter(log, b);
        assert Passes(log) ==> Used(ticks).used <= Limit(b);
        hide Ticks, Used, MeterOf;
        forall i | 0 <= i < |ticks| && ticks[i].applied ensures Used(ticks[..i + 1]).used <= Limit(b) {
          if i < |earlier| {
            assert ticks[..i + 1] == earlier[..i + 1];
          } else {
            assert ticks[..i + 1] == ticks;
          }
        }
      }
    }
  }

  /** Each tick has the time of some arrival, and ticks keep the order of arrivals. */
  lemma {:induction false} TicksKeepTime(log: seq<Arrival>, b: Budget)
    requires LogOrdered(log)
    ensures ClockRuns(Ticks(log, b))
    ensures forall i | 0 <= i < |Ticks(log, b)| :: Ticks(log, b)[i].at <= log[|log| - 1].at
  {
    if log != [] {
      var before := log[..|log| - 1];
      TicksKeepTime(before, b);
      hide Passes;
    }
  }

  lemma {:induction false} PassedIsSum(log: seq<Arrival>, b: Budget, from: int)
    ensures Passed(log, b, from) == Sum(Ticks(log, b), from, from + WINDOW_MS + 1)
  {
    if log != [] {
      var before := log[..|log| - 1];
      PassedIsSum(before, b, from);
      if Counts(b, log[|log| - 1]) {
        var ticks := Ticks(log, b);
        assert ticks[..|ticks| - 1] == Ticks(before, b);
      }
    }
  }

  /**
   With a clock that never runs backwards, no 1000 ms interval lets through more than twice any
   budget: two times 256 frames of a session, across all its connections, and likewise the others.
   */
  lemma TwiceTheBudget(log: seq<Arrival>, b: Budget, from: int)
    requires LogOrdered(log)
    ensures Passed(log, b, from) <= 2 * Limit(b)
  {
    TicksRespect(log, b);
    TicksKeepTime(log, b);
    PassedIsSum(log, b, from);
    AnySecondIsBounded(Ticks(log, b), Limit(b), from);
  }

  // ---- and what is within the budgets gets through ----

  /** The weight that arrived from a time on, refused frames included. */
  function Arrived(log: seq<Arrival>, b: Budget, from: int): nat {
    if log == [] then 0
    else
      var x := log[|log| - 1];
      Arrived(log[..|log| - 1], b, from) + if Counts(b, x) && x.at >= from then Weight(b, x) else 0
  }

  lemma {:induction false} ArrivedMonotone(log: seq<Arrival>, b: Budget, from: int, later: int)
    requires from <= later
    ensures Arrived(log, b, later) <= Arrived(log, b, from)
  {
    if log != [] {
      ArrivedMonotone(log[..|log| - 1], b, from, later);
    }
  }

  /** A meter counts nothing but what arrived since its window started, which is not in the future. */
  lemma {:induction false} MeterCountsArrivals(log: seq<Arrival>, b: Budget)
    requires LogOrdered(log)
    ensures var w := WindowIn(b, MeterOf(log, Scope(b)));
            w.used <= Arrived(log, b, w.startedAt) && (log != [] ==> w.startedAt <= log[|log| - 1].at)
  {
    if log != [] {
      var before, x := log[..|log| - 1], log[|log| - 1];
      MeterCountsArrivals(before, b);
      assert before != [] ==> before[|before| - 1].at <= x.at;
    }
  }

  /**
   A frame is admitted whenever, itself included, no budget has been exceeded by what arrived in the last
   second: for its session and for the whole host, in frames and in bytes.
   */
  lemma WithinBudgetIsAdmitted(log: seq<Arrival>)
    requires LogOrdered(log) && log != []
    requires var x := log[|log| - 1];
             forall b | b in [SessionFrames(x.session), SessionBytes(x.session), GlobalFrames, GlobalBytes] ::
               Arrived(log, b, x.at - 999) <= Limit(b)
    ensures Passes(log)
  {
    hide MeterOf, Arrived, LogOrdered;
    var x := log[|log| - 1];
    forall b | b in [SessionFrames(x.session), SessionBytes(x.session), GlobalFrames, GlobalBytes]
      ensures WindowIn(b, MeterOf(log, Scope(b))).used <= Limit(b)
    {
      MeterCountsArrivals(log, b);
      WindowIsRecent(log, Scope(b));
      ArrivedMonotone(log, b, x.at - 999, MeterOf(log, Scope(b)).startedAt);
    }
    var s := x.session;
    assert WindowIn(SessionFrames(s), MeterOf(log, Some(s))).used <= Limit(SessionFrames(s));
    assert WindowIn(SessionBytes(s), MeterOf(log, Some(s))).used <= Limit(SessionBytes(s));
    assert WindowIn(GlobalFrames, MeterOf(log, None)).used <= Limit(GlobalFrames);
    assert WindowIn(GlobalBytes, MeterOf(log, None)).used <= Limit(GlobalBytes);
  }

  lemma WindowIsRecent(log: seq<Arrival>, session: Option<string>)
    requires log != [] && (session.None? || session.value == log[|log| - 1].session)
    ensures MeterOf(log, session).startedAt >= log[|log| - 1].at - 999
  {
  }

  /** The budgets are the published ones. */
  lemma BudgetsAre(session: string)
    ensures Limit(SessionFrames(session)) == 256 && Limit(SessionBytes(session)) == 25165824
    ensures Limit(GlobalFrames) == 512 && Limit(GlobalBytes) == 33554432
  {
  }
}
