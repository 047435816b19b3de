/** HoldFps, the cooperative frame-rate limiter, as a function of the pacing state
    (the frame period m_millisForFrame and the frame start time), the requested rate
    and the clock. Times are milliseconds of the monotonic clock. */
module Pacing {

  /** A period below this (ms) means "not yet initialised" and is replaced on the next call. */
  const UnsetPeriod: real := 0.01

  datatype Pacer = Pacer(period: real, start: real)

  /** The new pacing state and the sleep requested, in whole milliseconds. */
  datatype Hold = Hold(pacer: Pacer, sleepMs: int)

  /** HoldFps(fps) entered at clock time `now`; `resumed` is the clock when the sleep
      (if any) is over. */
  function HoldStep(p: Pacer, fps: int, now: real, resumed: real): (r: Hold)
    ensures r.sleepMs >= 0
    // a rate of zero or below is refused
    ensures fps <= 0 ==> r == Hold(p, 0)
    // the first call fixes the period and the baseline without sleeping
    ensures fps > 0 && p.period < UnsetPeriod ==>
      r.sleepMs == 0 && r.pacer.period * (fps as real) == 1000.0 && r.pacer.start == now
    // later calls keep the period, whatever rate they ask for, and rebase the start
    ensures fps > 0 && p.period >= UnsetPeriod ==> r.pacer == Pacer(p.period, resumed)
    // a frame that already took a whole period is not held back
    ensures fps > 0 && p.period >= UnsetPeriod && now - p.start >= p.period ==> r.sleepMs == 0
    // otherwise the sleep tops the frame up to the period, short of it by less than 1 ms
    ensures fps > 0 && p.period >= UnsetPeriod && now - p.start < p.period ==>
      p.period - 1.0 < (now - p.start) + r.sleepMs as real <= p.period
  {
    if fps <= 0 then Hold(p, 0)
    else if p.period < UnsetPeriod then Hold(Pacer(1000.0 / (fps as real), now), 0)
    else
      var elapsed := now - p.start;
      var sleep := if elapsed < p.period then (p.period - elapsed).Floor else 0;
      Hold(Pacer(p.period, resumed), sleep)
  }

  /** Rates of at most 100000 fps give a period HoldFps keeps; above that every call
      re-initialises and none sleeps. */
  lemma PeriodIsKeptUpTo100000(p: Pacer, fps: int, now: real, resumed: real)
    requires fps > 0 && p.period < UnsetPeriod
    ensures var r := HoldStep(p, fps, now, resumed);
      (r.pacer.period >= UnsetPeriod <==> fps <= 100000) && r.sleepMs == 0
  {
  }

  /** One call of HoldFps: the rate asked for, the clock at entry and after the sleep. */
  datatype Call = Call(fps: int, now: real, resumed: real)

  function HoldAll(p: Pacer, calls: seq<Call>): Pacer
    decreases |calls|
  {
    if calls == [] then p
    else HoldAll(HoldStep(p, calls[0].fps, calls[0].now, calls[0].resumed).pacer, calls[1..])
  }

  /** The clock never runs backwards and every requested sleep lasts at least as long
      as asked. */
  ghost predicate ClockHonoured(p: Pacer, calls: seq<Call>)
    decreases |calls|
  {
    calls == [] ||
    (var r := HoldStep(p, calls[0].fps, calls[0].now, calls[0].resumed);
     p.start <= calls[0].now &&
     calls[0].now + r.sleepMs as real <= calls[0].resumed &&
     ClockHonoured(r.pacer, calls[1..]))
  }

  /** Once the period is set, n calls with a positive rate span at least n periods, less
      the under-1 ms truncation of each sleep, and never change the period. */
  lemma {:induction false} HeldCallsAreSpaced(p: Pacer, calls: seq<Call>)
    requires p.period >= UnsetPeriod
    requires forall i :: 0 <= i < |calls| ==> calls[i].fps > 0
    requires ClockHonoured(p, calls)
    ensures HoldAll(p, calls).period == p.period
    ensures HoldAll(p, calls).start - p.start >= (|calls| as real) * (p.period - 1.0)
    decreases |calls|
  {
    if calls != [] {
      var c := calls[0];
      var r := HoldStep(p, c.fps, c.now, c.resumed);
      assert r.pacer.start - p.start >= p.period - 1.0;
      HeldCallsAreSpaced(r.pacer, calls[1..]);
      assert HoldAll(p, calls) == HoldAll(r.pacer, calls[1..]);
      var n := |calls[1..]| as real;
      assert (n + 1.0) * (p.period - 1.0) == n * (p.period - 1.0) + (p.period - 1.0);
    }
  }
}
