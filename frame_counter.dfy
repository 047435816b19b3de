/** The frame counter of a sender/receiver channel as values: the process-local
    channel state, the shared semaphore behind its handle, and what one publish
    (SetNewFrame) or one poll (GetNewFrame) does to them. The class in
    SpoutFrameCount is proved to follow these functions step by step. */
module FrameCounter {
  import opened Kernel

  /** The semaphore EnableFrameCount creates: initial count 1, maximum LONG_MAX. */
  const FreshSemaphore: Sem := Sem(1, LongMax)

  // ---------------------------------------------------------------------------
  // Sender fps estimator (UpdateSenderFps)
  // ---------------------------------------------------------------------------

  /** Frame-equivalents accumulated before the mean frame time is taken. */
  const FpsWindow: real := 16.0
  /** Mean frame times at or below this many seconds are ignored. */
  const MinFrameSeconds: real := 0.0001
  /** The largest instantaneous rate that can be accepted: 1 / MinFrameSeconds. */
  const MaxFps: real := 10000.0

  /** Accumulated frame time (ms), accumulated frame-equivalents, the time of the
      previous frame (ms), and the damped sender fps. */
  datatype Estimator = Estimator(total: real, number: real, lastTick: real, fps: real)

  /** Between calls the accumulator never holds more than one window. */
  predicate InWindow(e: Estimator) {
    0.0 <= e.number <= FpsWindow
  }

  /** Instantaneous fps from a closed window, if its mean frame time is long enough to trust. */
  function InstantRate(total: real, number: real): (r: Option<real>)
    requires number > 0.0
    ensures r.Some? <==> total / number / 1000.0 > MinFrameSeconds
    ensures r.Some? ==> 0.0 < r.value < MaxFps
    // the rate is the reciprocal of the mean frame time (ms per frame)
    ensures r.Some? ==> r.value * (total / number) == 1000.0
  {
    var seconds := total / number / 1000.0;
    if seconds > MinFrameSeconds then
      assert 1.0 / seconds < MaxFps && (1.0 / seconds) * (total / number) == 1000.0 by {
        assert seconds * MaxFps > 1.0;
        assert (1.0 / seconds) * seconds == 1.0;
        assert total / number == seconds * 1000.0;
      }
      Some(1.0 / seconds)
    else None
  }

  /** The damping rule: 85% of the previous estimate, 15% of the new rate. */
  function Blend(previous: real, instant: real): (r: real)
    ensures previous <= instant ==> previous <= r <= instant
    ensures instant <= previous ==> instant <= r <= previous
  {
    0.85 * previous + 0.15 * instant
  }

  /** UpdateSenderFps(frames) called at time `now`. */
  function UpdateFps(e: Estimator, frames: int, now: real): (r: Estimator)
    ensures frames <= 0 ==> r == e
    ensures frames > 0 ==> r.lastTick == now && r.number <= FpsWindow
    ensures frames > 0 && e.number >= 0.0 ==> r.number >= 0.0
    ensures InWindow(e) ==> InWindow(r)
    // within a window the frames and the time since the previous frame accumulate
    ensures frames > 0 && e.number + frames as real <= FpsWindow ==>
      r.total == e.total + (now - e.lastTick) && r.number == e.number + frames as real && r.fps == e.fps
    // a window that passes 16 frames closes: both accumulators restart from zero
    ensures frames > 0 && e.number + frames as real > FpsWindow ==> r.total == 0.0 && r.number == 0.0
    // and its rate, if accepted, is blended into the estimate, which is otherwise kept
    ensures frames > 0 && e.number + frames as real > FpsWindow ==>
      var rate := InstantRate(e.total + (now - e.lastTick), e.number + frames as real);
      r.fps == if rate.Some? then Blend(e.fps, rate.value) else e.fps
  {
    if frames <= 0 then e
    else
      var total := e.total + (now - e.lastTick);
      var number := e.number + frames as real;
      if number > FpsWindow then
        var fps := match InstantRate(total, number)
                   case Some(rate) => Blend(e.fps, rate)
                   case None => e.fps;
        Estimator(0.0, 0.0, now, fps)
      else
        Estimator(total, number, now, e.fps)
  }

  /** One call of UpdateSenderFps. */
  datatype Feed = Feed(frames: int, at: real)

  function FeedAll(e: Estimator, feeds: seq<Feed>): Estimator
    decreases |feeds|
  {
    if feeds == [] then e else FeedAll(UpdateFps(e, feeds[0].frames, feeds[0].at), feeds[1..])
  }

  /** One update moves the estimate towards the window's rate and keeps it in [0, MaxFps]. */
  lemma UpdateKeepsFpsInRange(e: Estimator, frames: int, now: real)
    requires 0.0 <= e.fps <= MaxFps
    ensures var r := UpdateFps(e, frames, now); 0.0 <= r.fps <= MaxFps
    ensures var r := UpdateFps(e, frames, now);
      r.fps == e.fps ||
      (frames > 0 && e.number + frames as real > FpsWindow &&
       var rate := InstantRate(e.total + (now - e.lastTick), e.number + frames as real);
       rate.Some? && r.fps == Blend(e.fps, rate.value))
  {
  }

  /** Over any run of updates the window stays bounded and the estimate stays in [0, MaxFps]. */
  lemma {:induction false} FeedsStayBounded(e: Estimator, feeds: seq<Feed>)
    requires InWindow(e) && 0.0 <= e.fps <= MaxFps
    ensures var r := FeedAll(e, feeds); InWindow(r) && 0.0 <= r.fps <= MaxFps
    decreases |feeds|
  {
    if feeds != [] {
      UpdateKeepsFpsInRange(e, feeds[0].frames, feeds[0].at);
      FeedsStayBounded(UpdateFps(e, feeds[0].frames, feeds[0].at), feeds[1..]);
    }
  }

  /** Single-frame updates arriving every d ms, the first at t + d. */
  function Steady(t: real, d: real, n: nat): seq<Feed>
    decreases n
  {
    if n == 0 then [] else [Feed(1, t + d)] + Steady(t + d, d, n - 1)
  }

  /** A steady run is its first frame followed by the rest of the run. */
  lemma SteadyStep(e: Estimator, t: real, d: real, n: nat)
    requires n >= 1
    ensures FeedAll(e, Steady(t, d, n)) == FeedAll(UpdateFps(e, 1, t + d), Steady(t + d, d, n - 1))
  {
  }

  /** n intervals of d ms, added up one at a time. */
  function Span(n: nat, d: real): real
    decreases n
  {
    if n == 0 then 0.0 else Span(n - 1, d) + d
  }

  lemma {:induction false} SpanIsProduct(n: nat, d: real)
    ensures Span(n, d) == n as real * d
    decreases n
  {
    if n > 0 {
      SpanIsProduct(n - 1, d);
      var m := (n - 1) as real;
      assert (m + 1.0) * d == m * d + d;
    }
  }

  /** The effect of one closing window at a steady interval of d ms: the estimate moves
      15% of the way to 1000 / d fps, or stays put when the interval is 0.1 ms or less. */
  predicate DampedTowards(before: real, after: real, d: real)
    requires d > 0.0
  {
    if d > 0.1 then after - 1000.0 / d == 0.85 * (before - 1000.0 / d) else after == before
  }

  /** A frame that arrives d ms after the previous one, in a window still short of
      16 frames of that interval, only adds to it. */
  lemma FillingFrame(k: nat, t: real, d: real, fps: real)
    requires k < 16
    ensures UpdateFps(Estimator(Span(k, d), k as real, t, fps), 1, t + d) ==
      Estimator(Span(k + 1, d), (k + 1) as real, t + d, fps)
  {
  }

  /** The 17th frame at interval d closes the window and moves the estimate 15% of the
      way to 1000 / d fps, unless the interval is too short to trust. */
  lemma ClosingFrame(t: real, d: real, fps: real)
    requires d > 0.0
    ensures var r := UpdateFps(Estimator(16.0 * d, 16.0, t, fps), 1, t + d);
      r.total == 0.0 && r.number == 0.0 && r.lastTick == t + d && DampedTowards(fps, r.fps, d)
  {
  }

  /** A steady run that closes the window, starting from a window that already holds
      k frames of the same interval. */
  lemma {:induction false} SteadyRunCloses(k: nat, t: real, d: real, fps: real, n: nat)
    requires d > 0.0 && n >= 1 && k + n == 17
    ensures var r := FeedAll(Estimator(Span(k, d), k as real, t, fps), Steady(t, d, n));
      r.total == 0.0 && r.number == 0.0 && r.lastTick == t + Span(n, d) &&
      DampedTowards(fps, r.fps, d)
    decreases n
  {
    var e := Estimator(Span(k, d), k as real, t, fps);
    var next := UpdateFps(e, 1, t + d);
    SteadyStep(e, t, d, n);
    if n == 1 {
      SpanIsProduct(16, d);
      ClosingFrame(t, d, fps);
      assert Steady(t + d, d, 0) == [];
      assert FeedAll(next, []) == next;
    } else {
      FillingFrame(k, t, d, fps);
      SteadyRunCloses(k + 1, t + d, d, fps, n - 1);
    }
  }

  /** What the estimate means: 17 frames at a steady interval of d ms, fed to an empty
      window, close it and move the estimate 15% of the way to 1000 / d fps; an
      interval of 0.1 ms or less is too short to trust and leaves the estimate alone. */
  lemma SteadyRateEstimate(t: real, d: real, fps: real)
    requires d > 0.0
    ensures var r := FeedAll(Estimator(0.0, 0.0, t, fps), Steady(t, d, 17));
      r.total == 0.0 && r.number == 0.0 && r.lastTick == t + 17.0 * d &&
      (d > 0.1 ==> r.fps - 1000.0 / d == 0.85 * (fps - 1000.0 / d)) &&
      (d <= 0.1 ==> r.fps == fps)
  {
    SteadyRunCloses(0, t, d, fps, 17);
    SpanIsProduct(17, d);
  }

  // ---------------------------------------------------------------------------
  // Channel state, publish and poll
  // ---------------------------------------------------------------------------

  /** The process-local part of a channel: the registry setting (m_bFrameCount), the
      application-disable flag, the frame number, the last observed count, the
      new-frame flag and the fps estimator. Whether a semaphore handle is held, and
      the count behind it, travel separately as an Option<Sem> because the semaphore
      is shared with the other processes. */
  datatype Channel = Channel(
    setting: bool,
    disabled: bool,
    frameCount: int,
    lastFrameCount: int,
    isNewFrame: bool,
    est: Estimator)

  /** IsFrameCountEnabled */
  predicate Enabled(c: Channel) {
    c.setting && !c.disabled
  }

  datatype Published = Published(channel: Channel, sem: Option<Sem>)
  datatype Polled = Polled(channel: Channel, sem: Option<Sem>, isNew: bool)

  /** SetNewFrame at time `now`: a zero-timeout wait, then a release of 2. */
  function Publish(c: Channel, h: Option<Sem>, now: real): (r: Published)
    ensures r.sem.Some? == h.Some?
    ensures Enabled(r.channel) == Enabled(c) && r.channel.lastFrameCount == c.lastFrameCount
    ensures r.channel.isNewFrame == c.isNewFrame
    ensures r.channel.setting == c.setting && r.channel.disabled == c.disabled
    // a publish that took the semaphore and could restore it nets +1 on both counters
    ensures Enabled(c) && h.Some? && 0 < h.value.count && CanRelease(h.value, 1) ==>
      r.sem == Some(h.value.(count := h.value.count + 1)) &&
      r.channel.frameCount == c.frameCount + 1 && r.channel.est == UpdateFps(c.est, 1, now)
    // a failed release leaves the semaphore one short and the frame number as it was
    ensures Enabled(c) && h.Some? && 0 < h.value.count && !CanRelease(h.value, 1) ==>
      r.sem == Some(h.value.(count := h.value.count - 1)) && r.channel == c
    // off, disabled, without a handle, or with an empty semaphore: nothing changes
    ensures !Enabled(c) || h.None? || h.value.count == 0 ==> r == Published(c, h)
  {
    if !Enabled(c) || h.None? then Published(c, h)      // a NULL handle makes the wait fail
    else
      var s := h.value;
      if s.count == 0 then Published(c, h)              // WAIT_TIMEOUT
      else
        var taken := s.(count := s.count - 1);
        if !CanRelease(taken, 2) then Published(c, Some(taken))
        else Published(c.(frameCount := c.frameCount + 1, est := UpdateFps(c.est, 1, now)),
                       Some(taken.(count := taken.count + 2)))
  }

  /** The count a peek reads: the previous count returned by the release of 1 after a
      successful wait, and 0 when the wait does not succeed. */
  function PeekCount(s: Sem): nat {
    if s.count > 0 then s.count - 1 else 0
  }

  /** The new-frame decision of GetNewFrame once the count has been read. */
  function Decide(c: Channel, observed: int, h: Option<Sem>, now: real): (r: Polled)
    ensures r.sem == h && r.channel.frameCount == observed
    ensures observed == 0 ==>
      r.isNew && r.channel.isNewFrame == c.isNewFrame && r.channel.lastFrameCount == c.lastFrameCount
    ensures observed != 0 ==> r.isNew == (observed != c.lastFrameCount)
    ensures observed != 0 ==> r.channel.lastFrameCount == observed && r.channel.isNewFrame == r.isNew
    // the frames produced since the last count are fed to the sender fps estimate
    ensures observed != 0 && observed != c.lastFrameCount ==>
      r.channel.est == UpdateFps(c.est, observed - c.lastFrameCount, now)
    ensures observed == 0 || observed == c.lastFrameCount ==> r.channel.est == c.est
    ensures r.channel.setting == c.setting && r.channel.disabled == c.disabled
  {
    var c1 := c.(frameCount := observed);
    if observed == 0 then Polled(c1, h, true)
    else if observed == c.lastFrameCount then Polled(c1.(isNewFrame := false), h, false)
    else Polled(c1.(est := UpdateFps(c.est, observed - c.lastFrameCount, now),
                    lastFrameCount := observed, isNewFrame := true), h, true)
  }

  /** GetNewFrame at time `now`: a zero-timeout wait, a release of 1 that reads the
      previous count, then the new-frame decision. */
  function Poll(c: Channel, h: Option<Sem>, now: real): (r: Polled)
    ensures r.sem.Some? == h.Some?
    ensures Enabled(r.channel) == Enabled(c)
    // fail-open: off, disabled or without a handle, the poll reports a new frame and changes nothing
    ensures !Enabled(c) || h.None? ==> r == Polled(c, h, true)
    // the peek is non-destructive and reads the count less the unit it borrowed
    ensures Enabled(c) && h.Some? && h.value.count <= h.value.maximum ==>
      r.sem == h && r.channel.frameCount == PeekCount(h.value)
    ensures Enabled(c) && h.Some? && h.value.count <= h.value.maximum ==>
      (r.isNew <==> PeekCount(h.value) == 0 || PeekCount(h.value) != c.lastFrameCount)
    // and the rest of the receiver's state follows the new-frame decision on that count
    ensures Enabled(c) && h.Some? && h.value.count <= h.value.maximum ==>
      r == Decide(c, PeekCount(h.value), h, now)
    // a count above the maximum makes the release of 1 fail: the poll does not block,
    // keeps the unit it took and leaves the receiver's state alone
    ensures Enabled(c) && h.Some? && h.value.count > h.value.maximum ==>
      r == Polled(c, Some(h.value.(count := h.value.count - 1)), true)
  {
    if !Enabled(c) || h.None? then Polled(c, h, true)
    else
      var s := h.value;
      if s.count > 0 then
        var taken := s.(count := s.count - 1);
        if !CanRelease(taken, 1) then Polled(c, Some(taken), true)   // do not block
        else Decide(c, taken.count, Some(taken.(count := taken.count + 1)), now)
      else Decide(c, 0, h, now)                                       // wait failed: count 0
  }

  // ---------------------------------------------------------------------------
  // Runs of publishes and polls
  // ---------------------------------------------------------------------------

  /** A sender publishing at each of the given times. */
  function PublishAll(c: Channel, h: Option<Sem>, times: seq<real>): Published
    decreases |times|
  {
    if times == [] then Published(c, h)
    else
      var p := Publish(c, h, times[0]);
      PublishAll(p.channel, p.sem, times[1..])
  }

  /** N publishes on a semaphore with room for them add exactly N to its count and to
      the sender's frame number. */
  lemma {:induction false} PublishesAccumulate(c: Channel, count: nat, maximum: nat, times: seq<real>)
    requires Enabled(c) && 1 <= count && count + |times| + 1 <= maximum
    ensures var r := PublishAll(c, Some(Sem(count, maximum)), times);
      r.sem == Some(Sem(count + |times|, maximum)) &&
      r.channel.frameCount == c.frameCount + |times| &&
      r.channel.setting == c.setting && r.channel.disabled == c.disabled &&
      r.channel.isNewFrame == c.isNewFrame && r.channel.lastFrameCount == c.lastFrameCount
    decreases |times|
  {
    if times != [] {
      var p := Publish(c, Some(Sem(count, maximum)), times[0]);
      assert p.sem == Some(Sem(count + 1, maximum));
      PublishesAccumulate(p.channel, count + 1, maximum, times[1..]);
    }
  }

  /** On a freshly created semaphore, after N publishes a receiver's peek reads N, and
      leaves the count as the publishes left it. */
  lemma FreshChannelObservesPublishCount(sender: Channel, receiver: Channel, times: seq<real>, at: real)
    requires Enabled(sender) && Enabled(receiver) && |times| + 2 <= LongMax
    ensures var published := PublishAll(sender, Some(FreshSemaphore), times);
      var p := Poll(receiver, published.sem, at);
      p.channel.frameCount == |times| && p.sem == published.sem &&
      (p.isNew <==> |times| == 0 || |times| != receiver.lastFrameCount)
  {
    PublishesAccumulate(sender, 1, LongMax, times);
  }

  /** Two polls with no publish between them, on a semaphore holding a nonzero count:
      the second is never new, so at most one of the two is. */
  lemma RepeatedPollIsNotNew(c: Channel, s: Sem, t1: real, t2: real)
    requires Enabled(c) && 2 <= s.count <= s.maximum
    ensures var p1 := Poll(c, Some(s), t1);
      var p2 := Poll(p1.channel, p1.sem, t2);
      !p2.isNew && p2.sem == Some(s) && p2.channel.frameCount == s.count - 1
  {
  }

  /** At the semaphore's maximum, publishes alternate: one takes a unit and cannot give
      two back, the next takes another and can. So every two publishes leave the count at
      the maximum and still add one to the sender's frame number. */
  lemma {:induction false} SaturatedPublishesAlternate(c: Channel, maximum: nat, times: seq<real>)
    requires Enabled(c) && 2 <= maximum && |times| % 2 == 0
    ensures var r := PublishAll(c, Some(Sem(maximum, maximum)), times);
      r.sem == Some(Sem(maximum, maximum)) &&
      r.channel.frameCount == c.frameCount + |times| / 2 &&
      r.channel.setting == c.setting && r.channel.disabled == c.disabled
    decreases |times|
  {
    if times != [] {
      var full := Some(Sem(maximum, maximum));
      var p1 := Publish(c, full, times[0]);
      assert p1.sem == Some(Sem(maximum - 1, maximum)) && p1.channel == c;
      var p2 := Publish(p1.channel, p1.sem, times[1]);
      assert p2.sem == full && p2.channel.frameCount == c.frameCount + 1;
      assert times[1..][1..] == times[2..];
      SaturatedPublishesAlternate(p2.channel, maximum, times[2..]);
    }
  }

  /** At the maximum, a receiver's readings alternate with the sender's publishes between
      the maximum less one and the maximum less two. */
  lemma PollsAtMaximumAlternate(c: Channel, maximum: nat, t: real)
    requires Enabled(c) && 2 <= maximum
    ensures Poll(c, Some(Sem(maximum, maximum)), t).channel.frameCount == maximum - 1
    ensures Poll(c, Some(Sem(maximum - 1, maximum)), t).channel.frameCount == maximum - 2
  {
  }

  /** The sender's frame number is not bounded by the semaphore's maximum: LONG_MAX + 3
      publishes on a fresh semaphore take it to LONG_MAX + 1, past what a 32-bit `long`
      holds. */
  lemma SenderFrameOutgrowsLong(c: Channel, times: seq<real>)
    requires Enabled(c) && |times| == LongMax + 3
    ensures PublishAll(c, Some(FreshSemaphore), times).channel.frameCount == c.frameCount + LongMax + 1
  {
    var filling := times[..LongMax - 2];
    PublishAllAppend(c, Some(FreshSemaphore), filling, times[LongMax - 2..]);
    assert filling + times[LongMax - 2..] == times;
    PublishesAccumulate(c, 1, LongMax, filling);
    var p := PublishAll(c, Some(FreshSemaphore), filling);
    var q := Publish(p.channel, p.sem, times[LongMax - 2]);
    assert q.sem == Some(Sem(LongMax, LongMax)) && q.channel.frameCount == c.frameCount + LongMax - 1;
    SaturatedPublishesAlternate(q.channel, LongMax, times[LongMax - 1..]);
    assert times[LongMax - 2..][1..] == times[LongMax - 1..];
  }

  /** A run of publishes split in two is the first part followed by the second. */
  lemma {:induction false} PublishAllAppend(c: Channel, h: Option<Sem>, a: seq<real>, b: seq<real>)
    ensures PublishAll(c, h, a + b) ==
      var p := PublishAll(c, h, a); PublishAll(p.channel, p.sem, b)
    decreases |a|
  {
    if a != [] {
      var p := Publish(c, h, a[0]);
      assert (a + b)[0] == a[0] && (a + b)[1..] == a[1..] + b;
      PublishAllAppend(p.channel, p.sem, a[1..], b);
    } else {
      assert a + b == b;
    }
  }

  /** A sender and a receiver taking turns: publish, then poll. */
  datatype Session = Session(sender: Channel, receiver: Channel, sem: Option<Sem>, allNew: bool)

  function Rounds(sender: Channel, receiver: Channel, h: Option<Sem>, times: seq<real>): Session
    decreases |times|
  {
    if times == [] then Session(sender, receiver, h, true)
    else
      var p := Publish(sender, h, times[0]);
      var q := Poll(receiver, p.sem, times[0]);
      var rest := Rounds(p.channel, q.channel, q.sem, times[1..]);
      rest.(allNew := q.isNew && rest.allNew)
  }

  /** When polls alternate one-for-one with publishes, every poll sees a new frame and
      the receiver's last count tracks the publishes. */
  lemma {:induction false} AlternatingRoundsAreAllNew(sender: Channel, receiver: Channel, count: nat, maximum: nat, times: seq<real>)
    requires Enabled(sender) && Enabled(receiver)
    requires 1 <= count && receiver.lastFrameCount == count - 1 && count + |times| + 1 <= maximum
    ensures var r := Rounds(sender, receiver, Some(Sem(count, maximum)), times);
      r.allNew && r.sem == Some(Sem(count + |times|, maximum)) &&
      r.receiver.lastFrameCount == count + |times| - 1 &&
      r.sender.frameCount == sender.frameCount + |times|
    decreases |times|
  {
    if times != [] {
      var h := Some(Sem(count, maximum));
      var p := Publish(sender, h, times[0]);
      assert p.sem == Some(Sem(count + 1, maximum));
      var q := Poll(receiver, p.sem, times[0]);
      assert q.isNew && q.channel.lastFrameCount == count;
      AlternatingRoundsAreAllNew(p.channel, q.channel, count + 1, maximum, times[1..]);
    }
  }

  /** An arbitrary interleaving of the sender's publishes and the receiver's polls. */
  datatype Step = Send(at: real) | Receive(at: real)

  /** The counts the receiver reads, in order, over a run of steps. */
  function Observations(sender: Channel, receiver: Channel, h: Option<Sem>, steps: seq<Step>): seq<int>
    decreases |steps|
  {
    if steps == [] then []
    else match steps[0]
      case Send(t) =>
        var p := Publish(sender, h, t);
        Observations(p.channel, receiver, p.sem, steps[1..])
      case Receive(t) =>
        var q := Poll(receiver, h, t);
        [q.channel.frameCount] + Observations(sender, q.channel, q.sem, steps[1..])
  }

  /** While the semaphore has room, the counts a receiver reads never go down, whatever
      the interleaving, and none is below the count it started from. */
  lemma {:induction false} ObservationsNeverDecrease(sender: Channel, receiver: Channel, count: nat, maximum: nat, steps: seq<Step>)
    requires Enabled(sender) && Enabled(receiver)
    requires 1 <= count && count + |steps| + 1 <= maximum
    ensures var obs := Observations(sender, receiver, Some(Sem(count, maximum)), steps);
      (forall i :: 0 <= i < |obs| ==> count - 1 <= obs[i]) &&
      (forall i, j :: 0 <= i < j < |obs| ==> obs[i] <= obs[j])
    decreases |steps|
  {
    if steps != [] {
      var h := Some(Sem(count, maximum));
      match steps[0]
      case Send(t) =>
        var p := Publish(sender, h, t);
        assert p.sem == Some(Sem(count + 1, maximum));
        ObservationsNeverDecrease(p.channel, receiver, count + 1, maximum, steps[1..]);
        assert Observations(sender, receiver, h, steps) == Observations(p.channel, receiver, p.sem, steps[1..]);
      case Receive(t) =>
        var q := Poll(receiver, h, t);
        assert q.sem == h && q.channel.frameCount == count - 1;
        ObservationsNeverDecrease(sender, q.channel, count, maximum, steps[1..]);
        var rest := Observations(sender, q.channel, q.sem, steps[1..]);
        var obs := Observations(sender, receiver, h, steps);
        assert obs == [count - 1] + rest;
        assert rest == Observations(sender, q.channel, Some(Sem(count, maximum)), steps[1..]);
        assert forall k :: 0 <= k < |rest| ==> count - 1 <= rest[k];
        forall i | 0 <= i < |obs| ensures count - 1 <= obs[i] {
          if i > 0 { assert obs[i] == rest[i - 1]; }
        }
        forall i, j | 0 <= i < j < |obs| ensures obs[i] <= obs[j] {
          assert obs[j] == rest[j - 1];
          if i > 0 { assert obs[i] == rest[i - 1]; }
        }
    }
  }
}
