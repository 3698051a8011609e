/**
 `AVFrameQueue`: decoded frames wait in a bounded queue until the renderer draws. Two pacing
 paths decide how many frames a draw consumes: the legacy one follows the estimated source rate
 with a fractional frame credit, the low-latency one a predicted arrival time. The fields of
 each arrival clock are grouped in one record.
 */
module FrameQueue {
  import opened FrameStore
  import opened FrameRuns
  import opened Numbers
  import opened Pacing
  import opened Wrappers

  const ARRIVAL_RATE_WINDOW: int := 250_000_000
  const ARRIVAL_RATE_RESET_GAP: int := 500_000_000
  const ARRIVAL_RATE_SMOOTHING := 0.35
  const LONGEST_DRAW_INTERVAL: int := 250_000_000

  const LL_ALPHA := 0.125
  const LL_FAST_ALPHA := 0.25

  type DrawInterval = i: int | 0 <= i <= LONGEST_DRAW_INTERVAL

  /** The rate estimator of the legacy path. */
  datatype ArrivalClock = ArrivalClock(
    started: bool, windowStart: int, last: int, windowFrames: nat,
    samples: nat, sourceFps: real, frameInterval: nat)
  {
    predicate InRange() {
      (samples > 0 ==> 1.0 <= sourceFps) && (started ==> windowFrames >= 1)
    }

    /** An arrival at `now` goes on with the window, or even ends it. */
    predicate GoesOn(now: int) {
      started && now - last <= ARRIVAL_RATE_RESET_GAP
    }

    predicate EndsWindow(now: int) {
      GoesOn(now) && now - windowStart >= ARRIVAL_RATE_WINDOW
    }
  }

  /** The rate measured over a window, kept between one frame a second and the configured rate. */
  function MeasuredFps(frames: nat, elapsed: int, streamFps: int): (fps: real)
    requires elapsed > 0
    ensures 1.0 <= fps <= MaximumFps(streamFps)
  {
    Clamp(frames as real / (elapsed as real / 1000000000.0), 1.0, MaximumFps(streamFps))
  }

  /** A clock that starts afresh. */
  function Forgetting(c: ArrivalClock): (after: ArrivalClock)
    ensures after.InRange()
  {
    ArrivalClock(false, c.windowStart, c.last, 0, 0, 0.0, 0)
  }

  type RunningClock = c: ArrivalClock | c.InRange() witness STOPPED_CLOCK

  const STOPPED_CLOCK := ArrivalClock(false, 0, 0, 0, 0, 0.0, 0)

  function MaximumFps(streamFps: int): real {
    if streamFps > 0 then streamFps as real else 240.0
  }

  /** The alpha-beta filter of the low-latency path. */
  datatype ArrivalFilter = ArrivalFilter(
    first: bool, smoothedIntervalNs: real, intervalVelocityNs: real, jitterNs: real, lastArrival: int)
  {
    /** The filtered interval is positive and at most a second, its velocity within a fifth of it. */
    predicate InRange() {
      && 0.0 <= jitterNs
      && (!first ==>
          && 0.0 < smoothedIntervalNs <= 1000000000.0
          && Abs(intervalVelocityNs) <= smoothedIntervalNs * 0.2)
    }
  }

  type SaneFilter = f: ArrivalFilter | f.InRange() witness EMPTY_FILTER

  const EMPTY_FILTER := ArrivalFilter(true, 0.0, 0.0, 0.0, 0)

  /** The bounds of the filtered interval for a configured rate. */
  lemma RateInterval(fps: int)
    requires fps > 0
    ensures 0.0 < 1000000000.0 / (fps as real * 1.2) <= 1000000000.0 / fps as real <= 1000000000.0
  {
  }

  /** How the filter follows a measured interval: an eighth or a quarter of the error is made good
      at once, within the limits; the velocity takes up a 120th or a 28th of it, within a fifth of
      the interval, and the jitter goes an eighth of the way to its size. */
  ghost predicate Follows(was: ArrivalFilter, next: ArrivalFilter, measured: real, least: real)
    requires 0.0 <= next.smoothedIntervalNs && least <= 1000000000.0
  {
    var predicted := was.smoothedIntervalNs + was.intervalVelocityNs;
    var error := measured - predicted;
    var limit := next.smoothedIntervalNs * 0.2;
    var far := Abs(error) > predicted * 0.5;
    && next.smoothedIntervalNs == Clamp(predicted + error / (if far then 4.0 else 8.0), least, 1000000000.0)
    && next.intervalVelocityNs ==
         Clamp(was.intervalVelocityNs + error / (if far then 28.0 else 120.0), -limit, limit)
    && next.jitterNs - Abs(error) == 0.875 * (was.jitterNs - Abs(error))
  }

  /** Within the limits the new interval is closer to the measured one than the prediction was, by an
      eighth at least. */
  lemma FollowsGetsCloser(was: ArrivalFilter, next: ArrivalFilter, measured: real, least: real)
    requires 0.0 <= next.smoothedIntervalNs && least <= measured <= 1000000000.0
    requires Follows(was, next, measured, least)
    ensures Abs(next.smoothedIntervalNs - measured) <=
            0.875 * Abs(measured - (was.smoothedIntervalNs + was.intervalVelocityNs))
  {
  }

  predicate IsAlpha(alpha: real) {
    alpha == LL_ALPHA || alpha == LL_FAST_ALPHA
  }

  /** The velocity takes up a part of the error, within limits. */
  method NextVelocity(velocity: real, alpha: real, error: real, limit: real) returns (v: real)
    requires IsAlpha(alpha) && 0.0 <= limit
    ensures v == Clamp(velocity + error / (if alpha == LL_ALPHA then 120.0 else 28.0), -limit, limit)
  {
    var beta := (alpha * alpha) / (2.0 - alpha);
    assert beta == if alpha == LL_ALPHA then 1.0 / 120.0 else 1.0 / 28.0;
    v := Clamp(velocity + beta * error, -limit, limit);
  }

  /** The interval goes from the predicted towards the measured one, within limits. */
  method NextInterval(predicted: real, measured: real, alpha: real, least: real) returns (interval: real)
    requires IsAlpha(alpha) && 0.0 < predicted && 0.0 <= measured && least <= 1000000000.0
    ensures interval ==
            Clamp(predicted + (measured - predicted) / (if alpha == LL_ALPHA then 8.0 else 4.0), least, 1000000000.0)
    ensures 0.0 < interval
  {
    interval := predicted + alpha * (measured - predicted);
    BlendStaysPositive(predicted, measured, alpha);
    if interval < least {
      interval := least;
    }
    if interval > 1000000000.0 {
      interval := 1000000000.0;
    }
  }

  /** The least interval that the filter allows: a fifth faster than the configured rate. */
  function LeastInterval(fps: int): (least: real)
    ensures 0.0 <= least <= 1000000000.0
    ensures fps > 0 ==> least * (fps as real * 1.2) == 1000000000.0
  {
    if fps > 0 then RateInterval(fps); 1000000000.0 / (fps as real * 1.2) else 0.0
  }

  lemma BlendStaysPositive(predicted: real, measured: real, alpha: real)
    requires 0.0 < predicted && 0.0 <= measured && IsAlpha(alpha)
    ensures 0.0 < predicted + alpha * (measured - predicted)
  {
    if alpha == LL_ALPHA {
      assert alpha * (measured - predicted) == 0.125 * measured - 0.125 * predicted;
    } else {
      assert alpha * (measured - predicted) == 0.25 * measured - 0.25 * predicted;
    }
  }

  /** An arrival on the low-latency path: the filter starts with the configured interval, or follows
      the interval since the last arrival; the next frame is due one filtered interval on. */
  ghost predicate Predicts(was: ArrivalFilter, next: SaneFilter, now: int, deadline: int, streamFps: int) {
    && !next.first && next.lastArrival == now && deadline == now + next.smoothedIntervalNs.Floor
    && LeastInterval(streamFps) <= next.smoothedIntervalNs
    && if was.first then
         && next.intervalVelocityNs == 0.0 && next.jitterNs == next.smoothedIntervalNs * 0.1
         && next.smoothedIntervalNs == 1000000000.0 / (if streamFps > 0 then streamFps as real else 60.0)
       else Follows(was, next, (now - was.lastArrival) as real, LeastInterval(streamFps))
  }

  /** An arrival on the legacy path: one that ends a window brings the estimate to 65 percent of its
      distance from the measured rate, and the first one onto it. */
  ghost predicate Records(was: ArrivalClock, next: RunningClock, now: int, streamFps: int) {
    && next.started && next.last == now
    && if was.EndsWindow(now) then
         var measured := MeasuredFps(was.windowFrames, now - was.windowStart, streamFps);
         && next.sourceFps - measured == (if was.samples > 0 then 0.65 * (was.sourceFps - measured) else 0.0)
         && next.samples == was.samples + 1 && next.windowStart == now && next.windowFrames == 1
         && 0.0 <= 1000000000.0 / next.sourceFps - next.frameInterval as real < 1.0
       else
         && next.sourceFps == was.sourceFps && next.samples == was.samples
         && next.frameInterval == was.frameInterval
         && next.windowFrames == (if was.GoesOn(now) then was.windowFrames + 1 else 1)
         && next.windowStart == (if was.GoesOn(now) then was.windowStart else now)
  }

  // ---------------------------------------------------------------- the legacy pace

  /** The clock between draws stumbles over suspensions and debugger pauses. */
  predicate Stumbles(started: bool, lastDraw: int, now: int) {
    started && (now - lastDraw <= 0 || now - lastDraw > LONGEST_DRAW_INTERVAL)
  }

  function AverageInterval(average: nat, interval: nat): nat {
    if average == 0 then interval else (average * 15 + interval) / 16
  }

  /** The average interval after the clock has ticked; a stumble starts it afresh. */
  function Averaged(started: bool, lastDraw: int, average: nat, now: int): nat {
    if !started then average
    else if Stumbles(started, lastDraw, now) then 0
    else AverageInterval(average, now - lastDraw)
  }

  /** Whether the frame credit decides: both clocks have a rate and they do not match exactly. */
  predicate UsesCredit(depth: nat, target: nat, arrival: ArrivalClock, average: nat) {
    && HasRates(arrival, average)
    && !(0.98 <= BaseRate(arrival, average) <= 1.02 && depth == target + 1)
  }

  predicate HasRates(arrival: ArrivalClock, average: nat) {
    arrival.samples > 0 && arrival.frameInterval > 0 && average > 0
  }

  function BaseRate(arrival: ArrivalClock, average: nat): (r: real)
    requires HasRates(arrival, average)
    ensures 0.0 < r
  {
    average as real / arrival.frameInterval as real
  }

  /** The rate the credit path asks for. */
  function WantedRate(depth: nat, target: nat, arrival: ArrivalClock, average: nat): (r: real)
    requires HasRates(arrival, average)
    ensures 0.0 <= r
  {
    FramesPerDraw(BaseRate(arrival, average), depth as real - (target + 1) as real)
  }

  /** The frames that are due on the legacy path when it need not resynchronise. */
  function DueFrames(depth: nat, target: nat, limit: nat, arrival: ArrivalClock, average: nat, credit: real): nat
    requires 0.0 <= credit
  {
    if !HasRates(arrival, average) then if depth > target then 1 else 0
    else if !UsesCredit(depth, target, arrival, average) then 1
    else Min(Whole(credit + WantedRate(depth, target, arrival, average)), limit)
  }

  /** The credit that is left then. */
  function CreditLeft(depth: nat, target: nat, arrival: ArrivalClock, average: nat, credit: real): real
    requires 0.0 <= credit
  {
    if !HasRates(arrival, average) then credit
    else if !UsesCredit(depth, target, arrival, average) then 0.0
    else Rest(credit + WantedRate(depth, target, arrival, average))
  }

  /** The pacing state of the legacy path: the average draw interval, the credit, whether the queue
      still fills up and whether it is to be resynchronised, the arrival clock, and two counters. */
  datatype Pace = Pace(average: nat, credit: real, buffering: bool, resync: bool, arrival: ArrivalClock,
                       resyncs: nat, holds: nat)

  /** The pace after a resynchronisation; after a backlog the arrival clock starts afresh. */
  function Resynced(p: Pace, backlog: bool): Pace {
    p.(credit := 0.0, resync := false, resyncs := p.resyncs + 1,
       arrival := if backlog then Forgetting(p.arrival) else p.arrival)
  }

  /** The pace after a draw for which so many frames are due: none is a hold, and if the queue is empty
      when one is due the pace starts afresh. */
  function PaceCarriedOut(p: Pace, depth: nat, due: nat): Pace {
    if due == 0 then p.(holds := p.holds + 1)
    else if depth == 0 then p.(credit := 0.0, resync := true, arrival := Forgetting(p.arrival))
    else p
  }

  /** The pace after a draw that follows it. */
  function Followed(p: Pace, depth: nat, target: nat, limit: nat): Pace
    requires 0.0 <= p.credit
  {
    PaceCarriedOut(p.(credit := CreditLeft(depth, target, p.arrival, p.average, p.credit)), depth,
                   DueFrames(depth, target, limit, p.arrival, p.average, p.credit))
  }

  /** A draw that does not wait resynchronises when it has to and can, or follows the pace. */
  function PaceAfterDraw(p: Pace, depth: nat, target: nat, limit: nat): Pace
    requires 0.0 <= p.credit
  {
    var backlog := limit > 0 && depth >= limit;
    if (p.resync || backlog) && depth > 0 then Resynced(p, backlog) else Followed(p, depth, target, limit)
  }

  /** A draw that waits as long as the queue fills up, and resynchronises when it is done. */
  function PaceAfterLegacy(p: Pace, depth: nat, target: nat, limit: nat): Pace
    requires 0.0 <= p.credit
  {
    if !p.buffering then PaceAfterDraw(p, depth, target, limit)
    else if depth <= target then p
    else PaceAfterDraw(p.(buffering := false, credit := 0.0, resync := true), depth, target, limit)
  }

  /** The tick of the draw clock before it; a stumble restarts the pace. */
  function PaceAfterTick(p: Pace, started: bool, lastDraw: int, now: int): (after: Pace)
    requires 0.0 <= p.credit
    ensures 0.0 <= after.credit
  {
    var stumbles := Stumbles(started, lastDraw, now);
    p.(average := Averaged(started, lastDraw, p.average, now),
       credit := if stumbles then 0.0 else p.credit, resync := p.resync || stumbles)
  }

  /** The frame credit, with what happened to it since it was last reset: the rates that were
      requested and the whole frames that were granted. */
  datatype CreditAccount = CreditAccount(balance: real, ghost rates: seq<real>, ghost granted: nat) {
    ghost predicate Adds() {
      && Rates(rates)
      && balance == CreditAfter(0.0, rates)
      && granted == Granted(0.0, rates)
    }
  }

  /** An account that never drifts: what was granted is the floor of what was requested. */
  type Credit = c: CreditAccount | c.Adds() ghost witness NO_CREDIT

  const NO_CREDIT := CreditAccount(0.0, [], 0)

  /** Since its last reset the credit granted the floor of everything requested, hence less than
      one frame too few and none too many. */
  lemma CreditIsExact(c: Credit)
    ensures 0.0 <= c.balance < 1.0
    ensures c.granted == Total(c.rates).Floor
    ensures 0.0 <= Total(c.rates) - c.granted as real < 1.0
  {
    CreditDoesNotDrift(0.0, c.rates);
  }

  class AVFrameQueue {
    // storage
    var queue: seq<TimedFrame>
    var freeQueue: seq<Frame>
    var bufferFrame: Option<Frame>
    // configuration
    var limit: nat
    var targetBufferedFrames: nat
    var streamFps: int
    var transferOwnership: bool
    var lowLatency: bool
    // legacy pacing
    var arrival: RunningClock
    var drawClockStarted: bool
    var lastDraw: int
    var averageDrawInterval: DrawInterval
    var frameCredit: Credit
    var startupBuffering: bool
    var playoutResyncNeeded: bool
    // low-latency pacing
    var filter: SaneFilter
    var llRenderP95Ms: real
    var llGpuSubmitP95Ms: real
    var llHavePresentCost: bool
    // statistics
    var stats: Statistics
    var scheduledHoldStat: nat
    var pushesSincePop: nat
    var maxPushBurstStat: nat
    var playoutResyncStat: nat
    /** The frame allocator: frames from `nextFrame` up have never existed. */
    var nextFrame: Frame

    /** The frames of all accepted pushes since the last cleanup, and the numbers of those shown. */
    ghost var pushed: seq<Frame>
    ghost var shown: seq<nat>
    /** Frames handed out by `AcquireWriteFrame` and not returned yet. */
    ghost var checkedOut: set<Frame>

    ghost function Snap(): Store
      reads this
    {
      Store(queue, freeQueue, bufferFrame, checkedOut, nextFrame, pushed, shown, stats)
    }

    ghost predicate Valid()
      reads this
    {
      Snap().Sound()
    }

    /** The bounds of a queue that was configured while it held no frames, as long as at most `w`
        frames are out and `foreign` came in. */
    ghost predicate Within(w: nat, foreign: nat)
      reads this
    {
      InBounds(Snap(), limit, targetBufferedFrames, w, foreign)
    }

    /** A public call and its effect on the store: sound before and after, and within every bound
        that the frames outside allow. */
    twostate predicate Did(call: Call)
      reads this
    {
      && old(Valid()) && Valid() && Does(old(Snap()), call, Snap(), limit, targetBufferedFrames)
      && unchanged(`limit, `targetBufferedFrames)
      && forall w: nat, foreign: nat :: old(Within(w, foreign)) && AtMostOut(old(Snap()), call, Snap(), w) ==>
           Within(w, foreign + Foreign(old(Snap()), call))
    }

    twostate predicate SameConfig()
      reads this
    {
      unchanged(`limit, `targetBufferedFrames, `streamFps, `transferOwnership, `lowLatency)
    }

    /** The low-latency gate. */
    function Gate(): (gate: int)
      reads this`llRenderP95Ms, this`llGpuSubmitP95Ms, this`llHavePresentCost, this`filter
      ensures 1_500_000 <= gate <= 20_000_000
    {
      GateNs(llRenderP95Ms, llGpuSubmitP95Ms, llHavePresentCost, filter.jitterNs)
    }

    constructor ()
      ensures Fresh(Snap()) && checkedOut == {} && CountsNothing()
      ensures limit == 0 && targetBufferedFrames == 0 && streamFps == 0 && !transferOwnership && !lowLatency
      ensures arrival == STOPPED_CLOCK && filter == EMPTY_FILTER && !drawClockStarted && averageDrawInterval == 0
      ensures frameCredit == NO_CREDIT && startupBuffering && playoutResyncNeeded
    {
      queue, freeQueue, bufferFrame := [], [], None;
      limit, targetBufferedFrames, streamFps, transferOwnership, lowLatency := 0, 0, 0, false, false;
      arrival, filter := STOPPED_CLOCK, EMPTY_FILTER;
      drawClockStarted, lastDraw, averageDrawInterval, frameCredit := false, 0, 0, NO_CREDIT;
      startupBuffering, playoutResyncNeeded := true, true;
      llRenderP95Ms, llGpuSubmitP95Ms, llHavePresentCost := 0.0, 0.0, false;
      stats := NO_STATISTICS;
      scheduledHoldStat, pushesSincePop, maxPushBurstStat, playoutResyncStat := 0, 0, 0, 0;
      nextFrame := 0;
      pushed, shown, checkedOut := [], [], {};
    }

    method Configure(queueLimit: nat, configuredStreamFps: int, transferOwnershipEnabled: bool, lowLatencyEnabled: bool)
      requires Valid()
      modifies this
      ensures Valid() && Snap() == old(Snap())
      ensures limit == (if queueLimit == 0 then 1 else queueLimit) + 5 && streamFps == configuredStreamFps
      ensures transferOwnership == transferOwnershipEnabled && lowLatency == lowLatencyEnabled
      ensures targetBufferedFrames == if queueLimit <= 1 then 0 else if lowLatency then 1 else Min(queueLimit - 1, 2)
      ensures AtStart()
      ensures unchanged(`scheduledHoldStat, `pushesSincePop, `maxPushBurstStat, `playoutResyncStat)
      ensures unchanged(`llRenderP95Ms, `llGpuSubmitP95Ms, `llHavePresentCost)
      ensures queue == [] && freeQueue == [] && bufferFrame == None ==> Within(|checkedOut|, 0)
    {
      SetLimits(queueLimit, configuredStreamFps, transferOwnershipEnabled, lowLatencyEnabled);
      ResetPacing();
      assert Snap() == old(Snap());
    }

    /** The part of `configure` that sizes the queue. */
    method SetLimits(queueLimit: nat, configuredStreamFps: int, transferOwnershipEnabled: bool, lowLatencyEnabled: bool)
      modifies this`limit, this`targetBufferedFrames, this`lowLatency, this`transferOwnership, this`streamFps
      ensures transferOwnership == transferOwnershipEnabled && streamFps == configuredStreamFps
      ensures limit == CapacityFor(queueLimit) && lowLatency == lowLatencyEnabled
      ensures targetBufferedFrames == if queueLimit <= 1 then 0 else if lowLatency then 1 else Min(queueLimit - 1, 2)
    {
      var configuredDepth := Max(queueLimit, 1);
      limit := CapacityFor(configuredDepth);
      lowLatency := lowLatencyEnabled;
      if lowLatency {
        targetBufferedFrames := if configuredDepth > 1 then Min(configuredDepth - 1, 1) else 0;
      } else {
        targetBufferedFrames := if configuredDepth > 1 then Min(configuredDepth - 1, 2) else 0;
      }
      transferOwnership := transferOwnershipEnabled;
      streamFps := configuredStreamFps;
    }

    /** The pacing state that `configure` and `cleanup` start afresh. */
    /** The pace of a queue that has yet to fill up. */
    twostate predicate AtStart()
      reads this
    {
      && arrival == Forgetting(old(arrival)) && filter == EMPTY_FILTER
      && !drawClockStarted && averageDrawInterval == 0 && frameCredit == NO_CREDIT
      && startupBuffering && playoutResyncNeeded
    }

    predicate CountsNothing()
      reads this
    {
      && scheduledHoldStat == 0 && pushesSincePop == 0 && maxPushBurstStat == 0 && playoutResyncStat == 0
      && llRenderP95Ms == 0.0 && llGpuSubmitP95Ms == 0.0 && !llHavePresentCost
    }

    method ResetPacing()
      modifies this`arrival, this`filter, this`drawClockStarted, this`averageDrawInterval, this`frameCredit,
               this`startupBuffering, this`playoutResyncNeeded
      ensures AtStart()
    {
      drawClockStarted := false;
      averageDrawInterval := 0;
      ResetArrivalRateEstimator();
      frameCredit := NO_CREDIT;
      startupBuffering := true;
      playoutResyncNeeded := true;
      ResetLLFilter();
    }

    // ---------------------------------------------------------------- frame pool

    /** `av_frame_alloc`, which may fail. */
    method AllocFrame() returns (frame: Option<Frame>)
      modifies this`nextFrame
      ensures frame.Some? ==> frame.value == old(nextFrame) && nextFrame == old(nextFrame) + 1
      ensures frame.None? ==> nextFrame == old(nextFrame)
    {
      if * {
        return None;
      }
      frame := Some(nextFrame);
      nextFrame := nextFrame + 1;
    }

    /** Reuses the oldest free frame, and allocates only when there is none. */
    method AcquireFrame() returns (frame: Option<Frame>)
      modifies this`freeQueue, this`nextFrame
      ensures frame.Some? ==> frame.value == TakenFrame(old(Snap())) && Snap() == Taken(old(Snap()))
      ensures frame.None? ==> freeQueue == [] && Snap() == old(Snap())
    {
      if freeQueue != [] {
        frame := Some(freeQueue[0]);
        freeQueue := freeQueue[1..];
        return;
      }
      frame := AllocFrame();
    }

    /** Puts a frame, if it is one, into the free list. */
    method RecycleFrame(frame: Option<Frame>)
      modifies this`freeQueue
      ensures freeQueue == old(freeQueue) + if frame.Some? then [frame.value] else []
    {
      if frame.None? {
        return;
      }
      freeQueue := freeQueue + [frame.value];
    }

    /** Takes the oldest queued frame out as a dropped one. */
    method DropFront(forOverflow: bool)
      requires queue != []
      modifies this`queue, this`freeQueue, this`stats
      ensures queue == old(queue)[1..] && freeQueue == old(freeQueue) + [old(queue)[0].frame]
      ensures stats == old(stats).Drop(1, forOverflow)
    {
      var dropped := queue[0].frame;
      queue := queue[1..];
      RecycleFrame(Some(dropped));
      stats := stats.Drop(1, forOverflow);
    }

    /** Drops the oldest frames until `keepFrames` are left: the overflow loop of a push, and with
        the other counter `trimToPlayoutWindowLocked`. */
    method TrimTo(keepFrames: nat, forOverflow: bool)
      modifies this`queue, this`freeQueue, this`stats
      ensures Snap() == KeepNewest(old(Snap()), keepFrames, forOverflow)
    {
      ghost var start := Snap();
      ghost var k := 0;
      while |queue| > keepFrames
        invariant k <= |start.queue| - Min(|start.queue|, keepFrames)
        invariant Snap() == DropOldest(start, k, forOverflow)
      {
        DropOneMore(start, k, forOverflow);
        DropFront(forOverflow);
        k := k + 1;
      }
    }

    // ---------------------------------------------------------------- arrival clocks

    /** `recordArrivalLocked`: the source rate over windows of a quarter second, smoothed and kept
        between one frame a second and the configured rate. */
    method RecordArrival(now: int)
      modifies this`arrival
      ensures Records(old(arrival), arrival, now, streamFps)
      ensures old(arrival.samples == 0 || arrival.sourceFps <= MaximumFps(streamFps)) ==>
                arrival.samples == 0 || arrival.sourceFps <= MaximumFps(streamFps)
    {
      if !arrival.started || now - arrival.last > ARRIVAL_RATE_RESET_GAP {
        arrival := arrival.(started := true, windowStart := now, last := now, windowFrames := 1);
        return;
      }
      arrival := arrival.(last := now, windowFrames := arrival.windowFrames + 1);
      var elapsed := now - arrival.windowStart;
      if elapsed < ARRIVAL_RATE_WINDOW {
        return;
      }
      if arrival.windowFrames > 1 {
        var sampleFps := MeasuredFps(arrival.windowFrames - 1, elapsed, streamFps);
        if arrival.samples > 0 {
          sampleFps := arrival.sourceFps * (1.0 - ARRIVAL_RATE_SMOOTHING) + sampleFps * ARRIVAL_RATE_SMOOTHING;
        }
        arrival := arrival.(samples := arrival.samples + 1, sourceFps := sampleFps,
                            frameInterval := (1000000000.0 / sampleFps).Floor);
      }
      arrival := arrival.(windowStart := now, windowFrames := 1);
    }

    method ResetArrivalRateEstimator()
      modifies this`arrival
      ensures arrival == Forgetting(old(arrival))
    {
      arrival := arrival.(started := false, windowFrames := 0, samples := 0, sourceFps := 0.0, frameInterval := 0);
    }

    /** `updateLLFilterLocked`: the predicted arrival of the next frame. */
    method UpdateLLFilter(now: int) returns (nextEstimate: int)
      requires !filter.first ==> filter.lastArrival <= now
      modifies this`filter
      ensures Predicts(old(filter), filter, now, nextEstimate, streamFps)
      ensures now <= nextEstimate <= now + ONE_SECOND
    {
      if streamFps > 0 {
        RateInterval(streamFps);
      }
      if filter.first {
        var interval := if streamFps > 0 then 1000000000.0 / streamFps as real else 1000000000.0 / 60.0;
        filter := ArrivalFilter(false, interval, 0.0, interval * 0.1, now);
      } else {
        FollowArrival(now);
      }
      nextEstimate := now + filter.smoothedIntervalNs.Floor;
    }

    /** The step of the filter from the interval between two arrivals. */
    method FollowArrival(now: int)
      requires !filter.first && filter.lastArrival <= now
      modifies this`filter
      ensures !filter.first && filter.lastArrival == now && LeastInterval(streamFps) <= filter.smoothedIntervalNs
      ensures Follows(old(filter), filter, (now - old(filter).lastArrival) as real, LeastInterval(streamFps))
    {
      var measuredNs := (now - filter.lastArrival) as real;
      var predictedInterval := filter.smoothedIntervalNs + filter.intervalVelocityNs;
      var predError := measuredNs - predictedInterval;
      var alpha := if Abs(predError) > predictedInterval * 0.5 then LL_FAST_ALPHA else LL_ALPHA;
      var smoothed := NextInterval(predictedInterval, measuredNs, alpha, LeastInterval(streamFps));
      var velocity := NextVelocity(filter.intervalVelocityNs, alpha, predError, smoothed * 0.2);
      var jitter := filter.jitterNs * (1.0 - LL_ALPHA) + Abs(predError) * LL_ALPHA;
      filter := ArrivalFilter(false, smoothed, velocity, jitter, now);
    }

    method ResetLLFilter()
      modifies this`filter
      ensures filter == EMPTY_FILTER
    {
      filter := EMPTY_FILTER;
    }

    // ---------------------------------------------------------------- push

    /** The arrival clock of the configured path; only the low-latency path predicts a deadline. */
    method EstimateArrival(now: int) returns (estimate: int)
      requires 0 <= now && (!filter.first ==> filter.lastArrival <= now)
      modifies this`arrival, this`filter
      ensures estimate <= now + ONE_SECOND
      ensures if lowLatency then Predicts(old(filter), filter, now, estimate, streamFps) && arrival == old(arrival)
              else Records(old(arrival), arrival, now, streamFps) && filter == old(filter) && estimate == 0
    {
      estimate := 0;
      if lowLatency {
        estimate := UpdateLLFilter(now);
      } else {
        RecordArrival(now);
      }
    }

    /** The clock of the configured path has noted an arrival, and it has set the deadline; after an
        overflow it starts afresh. */
    twostate predicate Noted(deadline: int, now: int, overflow: bool)
      reads this
    {
      if lowLatency then
        && unchanged(`arrival, `playoutResyncNeeded)
        && exists next: SaneFilter :: Predicts(old(filter), next, now, deadline, streamFps)
             && filter == if overflow then EMPTY_FILTER else next
      else
        && unchanged(`filter) && deadline == 0
        && playoutResyncNeeded == (overflow || old(playoutResyncNeeded))
        && exists next: RunningClock :: Records(old(arrival), next, now, streamFps)
             && arrival == if overflow then Forgetting(next) else next
    }

    /** A frame has been pushed onto the store `before`: it is the newest one now, its arrival is noted
        and the push is counted. */
    twostate predicate Accepted(before: Store, frame: Frame, now: int)
      reads this
    {
      && queue != [] && var deadline := queue[|queue| - 1].timeEstimate;
      && Pushed(before, Snap(), frame, deadline, now, limit, targetBufferedFrames)
      && Noted(deadline, now, |before.queue| >= limit)
      && pushesSincePop == old(pushesSincePop) + 1
      && maxPushBurstStat == Max(old(maxPushBurstStat), pushesSincePop)
    }

    /** Nothing has arrived. */
    twostate predicate NoneAccepted()
      reads this
    {
      unchanged(`arrival, `filter, `playoutResyncNeeded, `pushesSincePop, `maxPushBurstStat)
    }

    /** The common end of both pushes: the frame joins the queue, which is trimmed if overfull. */
    method Append(frame: Frame, now: int)
      requires 0 <= now && (!filter.first ==> filter.lastArrival <= now)
      modifies this`queue, this`freeQueue, this`pushed, this`stats,
               this`pushesSincePop, this`maxPushBurstStat, this`arrival, this`filter, this`playoutResyncNeeded
      ensures Accepted(old(Snap()), frame, now)
    {
      var estimate := EstimateArrival(now);
      ghost var clock, prediction := arrival, filter;
      EnlistAndTrim(TimedFrame(estimate, now, frame));
      PushedIsNewest(old(Snap()), Snap(), frame, estimate, now, limit, targetBufferedFrames);
      assert lowLatency ==> Predicts(old(filter), prediction, now, estimate, streamFps);
      assert !lowLatency ==> Records(old(arrival), clock, now, streamFps);
    }

    method EnlistAndTrim(t: TimedFrame)
      modifies this`queue, this`freeQueue, this`pushed, this`stats,
               this`pushesSincePop, this`maxPushBurstStat, this`arrival, this`filter, this`playoutResyncNeeded
      ensures Snap() == AfterPush(old(Snap()), t, limit, targetBufferedFrames)
      ensures pushesSincePop == old(pushesSincePop) + 1
      ensures maxPushBurstStat == Max(old(maxPushBurstStat), pushesSincePop)
      ensures if old(|queue|) >= limit then Restarted() else unchanged(`arrival, `filter, `playoutResyncNeeded)
    {
      Enlist(t);
      TrimIfOverfull();
    }

    method Enlist(t: TimedFrame)
      modifies this`queue, this`pushed, this`pushesSincePop, this`maxPushBurstStat
      ensures Snap() == Enqueue(old(Snap()), t)
      ensures pushesSincePop == old(pushesSincePop) + 1
      ensures maxPushBurstStat == Max(old(maxPushBurstStat), pushesSincePop)
    {
      queue := queue + [t];
      pushed := pushed + [t.frame];
      pushesSincePop := pushesSincePop + 1;
      maxPushBurstStat := Max(maxPushBurstStat, pushesSincePop);
    }

    method TrimIfOverfull()
      modifies this`queue, this`freeQueue, this`stats,
               this`arrival, this`filter, this`playoutResyncNeeded
      ensures Snap() == Trimmed(old(Snap()), limit, targetBufferedFrames)
      ensures if old(|queue|) > limit then Restarted() else unchanged(`arrival, `filter, `playoutResyncNeeded)
    {
      if |queue| > limit {
        TrimTo(targetBufferedFrames + 1, true);
        RestartEstimators();
      }
    }

    /** After an overflow the clock of the configured path starts afresh. */
    twostate predicate Restarted()
      reads this
    {
      if lowLatency then filter == EMPTY_FILTER && unchanged(`arrival, `playoutResyncNeeded)
      else arrival == Forgetting(old(arrival)) && playoutResyncNeeded && unchanged(`filter)
    }

    method RestartEstimators()
      modifies this`arrival, this`filter, this`playoutResyncNeeded
      ensures Restarted()
    {
      if lowLatency {
        ResetLLFilter();
      } else {
        ResetArrivalRateEstimator();
        playoutResyncNeeded := true;
      }
    }

    /** `push` without ownership transfer: a reference to the decoder's frame is taken. When that
        fails, the pooled frame is freed. */
    method PushCopy(now: int) returns (ok: bool)
      requires 0 <= now && (!filter.first ==> filter.lastArrival <= now)
      modifies this`queue, this`freeQueue, this`nextFrame, this`pushed, this`stats,
               this`pushesSincePop, this`maxPushBurstStat, this`arrival, this`filter, this`playoutResyncNeeded
      ensures !ok ==> (Snap() == old(Snap()) || Snap() == Taken(old(Snap()))) && NoneAccepted()
      ensures ok ==> Accepted(Taken(old(Snap())), TakenFrame(old(Snap())), now)
      ensures Does(old(Snap()), CopyPush, Snap(), limit, targetBufferedFrames)
    {
      ghost var before := Snap();
      var queuedFrame := AcquireFrame();
      var referenced := *;
      ok := queuedFrame.Some? && referenced;
      if ok {
        assert Snap() == Taken(old(Snap()));
        Append(queuedFrame.value, now);
        CopyPushDoes(before, Snap(), queue[|queue| - 1].timeEstimate, now, limit, targetBufferedFrames);
      }
    }

    /** `pushTransferredLocked`: the queue takes the frame over. */
    method PushTransferredLocked(item: Option<Frame>, now: int) returns (ok: bool)
      requires 0 <= now && (!filter.first ==> filter.lastArrival <= now)
      modifies this`checkedOut, this`queue, this`freeQueue, this`nextFrame, this`pushed, this`stats,
               this`pushesSincePop, this`maxPushBurstStat, this`arrival, this`filter, this`playoutResyncNeeded
      ensures ok == item.Some?
      ensures !ok ==> Snap() == old(Snap()) && NoneAccepted()
      ensures ok ==> Accepted(HandedIn(old(Snap()), item.value), item.value, now)
      ensures ok && old(item.value !in Snap().Held()) ==>
                Does(old(Snap()), HandPush(item.value), Snap(), limit, targetBufferedFrames)
    {
      ghost var before := Snap();
      if item.None? {
        return false;
      }
      ReceiveFrame(item.value);
      Append(item.value, now);
      if item.value !in before.Held() {
        HandPushDoes(before, item.value, Snap(), queue[|queue| - 1].timeEstimate, now, limit, targetBufferedFrames);
      }
      ok := true;
    }

    /** Bookkeeping: a frame comes back from outside, whether or not this queue handed it out. */
    method ReceiveFrame(frame: Frame)
      modifies this`checkedOut, this`nextFrame
      ensures Snap() == HandedIn(old(Snap()), frame)
    {
      checkedOut := checkedOut - {frame};
      nextFrame := Max(nextFrame, frame + 1);
    }

    /** Pushing a decoded frame: it is copied into a pooled frame, or handed over as it is. */
    method Push(item: Option<Frame>, now: int) returns (ok: bool)
      requires Valid() && 0 <= now && (!filter.first ==> filter.lastArrival <= now)
      requires transferOwnership && item.Some? ==> item.value !in Snap().Held()
      modifies this`checkedOut, this`queue, this`freeQueue, this`nextFrame, this`pushed, this`stats,
               this`pushesSincePop, this`maxPushBurstStat, this`arrival, this`filter, this`playoutResyncNeeded
      ensures Valid()
      ensures if item.None? then Snap() == old(Snap())
              else Did(if transferOwnership then HandPush(item.value) else CopyPush)
      ensures checkedOut == old(checkedOut) - if transferOwnership && item.Some? then {item.value} else {}
      ensures item.None? ==> !ok
      ensures transferOwnership && item.Some? ==> ok
      ensures !ok ==> (Snap() == old(Snap()) || Snap() == Taken(old(Snap()))) && NoneAccepted()
      ensures ok && transferOwnership ==> Accepted(HandedIn(old(Snap()), item.value), item.value, now)
      ensures ok && !transferOwnership ==> Accepted(Taken(old(Snap())), TakenFrame(old(Snap())), now)
    {
      if item.None? {
        return false;
      }
      if transferOwnership {
        ok := PushTransferred(item, now);
      } else {
        ok := PushCopied(now);
      }
    }

    /** A copying push of a sound queue. */
    method PushCopied(now: int) returns (ok: bool)
      requires Valid() && 0 <= now && (!filter.first ==> filter.lastArrival <= now)
      modifies this`queue, this`freeQueue, this`nextFrame, this`pushed, this`stats,
               this`pushesSincePop, this`maxPushBurstStat, this`arrival, this`filter, this`playoutResyncNeeded
      ensures Did(CopyPush) && checkedOut == old(checkedOut)
      ensures !ok ==> (Snap() == old(Snap()) || Snap() == Taken(old(Snap()))) && NoneAccepted()
      ensures ok ==> Accepted(Taken(old(Snap())), TakenFrame(old(Snap())), now)
    {
      ok := PushCopy(now);
      Keeps(CopyPush);
    }

    /** What a call does to a sound store keeps it sound and within its bounds. */
    twostate lemma Keeps(call: Call)
      requires old(Valid()) && Does(old(Snap()), call, Snap(), limit, targetBufferedFrames)
      requires unchanged(`limit, `targetBufferedFrames)
      ensures Did(call)
    {
      DoesKeepsSound(old(Snap()), call, Snap(), limit, targetBufferedFrames);
      DoesStaysInAllBounds(old(Snap()), call, Snap(), limit, targetBufferedFrames);
    }

    /** `pushTransferred`: hands a frame over whatever the configured mode. */
    method PushTransferred(item: Option<Frame>, now: int) returns (ok: bool)
      requires Valid() && 0 <= now && (!filter.first ==> filter.lastArrival <= now)
      requires item.Some? ==> item.value !in Snap().Held()
      modifies this`checkedOut, this`queue, this`freeQueue, this`nextFrame, this`pushed, this`stats,
               this`pushesSincePop, this`maxPushBurstStat, this`arrival, this`filter, this`playoutResyncNeeded
      ensures Valid() && (item.Some? ==> Did(HandPush(item.value)))
      ensures ok == item.Some? && checkedOut == old(checkedOut) - if ok then {item.value} else {}
      ensures !ok ==> Snap() == old(Snap()) && NoneAccepted()
      ensures ok ==> Accepted(HandedIn(old(Snap()), item.value), item.value, now)
    {
      ok := PushTransferredLocked(item, now);
      if ok {
        Keeps(HandPush(item.value));
      }
    }

    // ---------------------------------------------------------------- pop, the low-latency path

    /** `prepareLatestFrame`: once the oldest frame is due, everything older than the newest goes. */
    method PrepareLatestFrame(now: int, lead: int) returns (ready: bool)
      modifies this`queue, this`freeQueue, this`stats
      ensures ready == Due(old(Snap()), now, lead, targetBufferedFrames)
      ensures Snap() == if ready then DropOldest(old(Snap()), old(|queue|) - 1, false) else old(Snap())
      ensures ready ==> |queue| == 1
    {
      if queue == [] {
        return false;
      }
      var backlogged := |queue| - 1 > targetBufferedFrames;
      if !backlogged && now < queue[0].timeEstimate - lead {
        return false;
      }
      TrimTo(1, false);
      ready := true;
    }

    method CountEmptyHold()
      modifies this`stats
      ensures Snap() == HoldOnEmpty(old(Snap()))
    {
      if bufferFrame.Some? {
        stats := stats.(fake := stats.fake + 1, empty := stats.empty + 1);
      }
    }

    method CountRebufferHold()
      modifies this`stats
      ensures Snap() == HoldRebuffering(old(Snap()))
    {
      if bufferFrame.Some? {
        stats := stats.(fake := stats.fake + 1, rebuffer := stats.rebuffer + 1);
      }
    }

    /** A low-latency draw. */
    method PopLowLatency(now: int) returns (frame: Option<Frame>, consumed: bool)
      modifies this`queue, this`freeQueue, this`bufferFrame, this`shown, this`stats, this`scheduledHoldStat
      ensures Outcome(Snap(), consumed) == LowLatencyOutcome(old(Snap()), now, Gate(), targetBufferedFrames)
      ensures frame == bufferFrame
      ensures scheduledHoldStat == old(scheduledHoldStat) + if consumed || old(queue) == [] then 0 else 1
    {
      if queue == [] {
        CountEmptyHold();
        return bufferFrame, false;
      }
      frame, consumed := ShowLatestIfDue(now);
    }

    method ShowLatestIfDue(now: int) returns (frame: Option<Frame>, consumed: bool)
      requires queue != []
      modifies this`queue, this`freeQueue, this`bufferFrame, this`shown, this`stats, this`scheduledHoldStat
      ensures consumed == Due(old(Snap()), now, Gate(), targetBufferedFrames) && frame == bufferFrame
      ensures Snap() == if consumed then Advance(old(Snap()), old(|queue|) - 1, 1) else old(Snap())
      ensures scheduledHoldStat == old(scheduledHoldStat) + if consumed then 0 else 1
    {
      var gate := Gate();
      var ready := PrepareLatestFrame(now, gate);
      if !ready {
        scheduledHoldStat := scheduledHoldStat + 1;
        return bufferFrame, false;
      }
      ConsumeFrames(1);
      return bufferFrame, true;
    }

    /** The queue hands `n` frames to the screen, which keeps the last of them. */
    method ConsumeFrames(n: nat)
      requires 1 <= n <= |queue|
      modifies this`queue, this`freeQueue, this`bufferFrame, this`shown, this`stats
      ensures Snap() == Consume(old(Snap()), n)
    {
      ghost var start := Snap();
      shown := shown + [Monus(|pushed|, |queue|) + n - 1];
      RecycleFrame(bufferFrame);
      bufferFrame := None;
      for i := 0 to n
        invariant queue == start.queue[i..]
        invariant i < n ==> freeQueue == start.free + Listed(start.screen) + Frames(start.queue[..i])
        invariant i < n ==> stats == start.stats.Drop(i, false)
        invariant i == n ==> freeQueue == start.free + Listed(start.screen) + Frames(start.queue[..n - 1])
        invariant i == n ==> stats == start.stats.Drop(n - 1, false)
        invariant shown == start.shown + [Monus(|start.pushed|, |start.queue|) + n - 1]
        invariant i == n ==> bufferFrame == Some(start.queue[n - 1].frame)
      {
        var item := queue[0].frame;
        queue := queue[1..];
        if i + 1 < n {
          assert start.queue[..i + 1] == start.queue[..i] + [start.queue[i]];
          FramesAppend(start.queue[..i], start.queue[i]);
          RecycleFrame(Some(item));
          stats := stats.Drop(1, false);
        } else {
          bufferFrame := Some(item);
        }
      }
      stats := stats.(paced := stats.paced + 1);
    }

    // ---------------------------------------------------------------- pop, the legacy path

    /** The start of a legacy draw: the draw clock ticks, and a stumble restarts the pace. */
    method TickDrawClock(now: int)
      modifies this`drawClockStarted, this`lastDraw, this`averageDrawInterval, this`frameCredit,
               this`playoutResyncNeeded
      ensures drawClockStarted && lastDraw == now
      ensures Stumbles(old(drawClockStarted), old(lastDraw), now) ==>
                frameCredit == NO_CREDIT && playoutResyncNeeded
      ensures !Stumbles(old(drawClockStarted), old(lastDraw), now) ==>
                unchanged(`frameCredit, `playoutResyncNeeded)
      ensures averageDrawInterval == Averaged(old(drawClockStarted), old(lastDraw), old(averageDrawInterval), now)
    {
      if !drawClockStarted {
        lastDraw := now;
        drawClockStarted := true;
        return;
      }
      var drawInterval := now - lastDraw;
      lastDraw := now;
      if drawInterval <= 0 || drawInterval > LONGEST_DRAW_INTERVAL {
        averageDrawInterval := 0;
        frameCredit := NO_CREDIT;
        playoutResyncNeeded := true;
      } else if averageDrawInterval == 0 {
        averageDrawInterval := drawInterval;
      } else {
        averageDrawInterval := (averageDrawInterval * 15 + drawInterval) / 16;
      }
    }

    /** The credit branch: the wanted rate is added, whole frames are taken out. */
    method GrantCredit(framesPerDraw: real) returns (wholeFrames: nat)
      requires 0.0 <= framesPerDraw
      modifies this`frameCredit
      ensures wholeFrames == Whole(old(frameCredit).balance + framesPerDraw)
      ensures frameCredit.balance == Rest(old(frameCredit).balance + framesPerDraw)
      ensures frameCredit.rates == old(frameCredit).rates + [framesPerDraw]
      ensures frameCredit.granted == old(frameCredit).granted + wholeFrames
    {
      var rates := frameCredit.rates + [framesPerDraw];
      assert rates[..|rates| - 1] == frameCredit.rates;
      var sum := frameCredit.balance + framesPerDraw;
      wholeFrames := Whole(sum);
      frameCredit := CreditAccount(sum - wholeFrames as real, rates, frameCredit.granted + wholeFrames);
    }

    /** The resynchronising branch: when it is needed and there are frames, the queue is trimmed to
        the playout window. */
    method TryResync() returns (resynced: bool)
      modifies this`queue, this`freeQueue, this`stats, this`arrival, this`frameCredit,
               this`playoutResyncNeeded, this`playoutResyncStat
      ensures resynced == ((old(playoutResyncNeeded) || (limit > 0 && old(|queue|) >= limit)) && old(queue) != [])
      ensures resynced ==> Snap() == KeepNewest(old(Snap()), targetBufferedFrames + 1, false)
      ensures !resynced ==> Snap() == old(Snap())
      ensures PaceNow() == if resynced then Resynced(old(PaceNow()), limit > 0 && old(|queue|) >= limit)
                           else old(PaceNow())
    {
      var backlogResync := limit > 0 && |queue| >= limit;
      resynced := (playoutResyncNeeded || backlogResync) && queue != [];
      if resynced {
        Resync(backlogResync);
      }
    }

    method Resync(backlogResync: bool)
      modifies this`queue, this`freeQueue, this`stats, this`arrival, this`frameCredit, this`playoutResyncNeeded,
               this`playoutResyncStat
      ensures Snap() == KeepNewest(old(Snap()), targetBufferedFrames + 1, false)
      ensures frameCredit == NO_CREDIT && !playoutResyncNeeded && playoutResyncStat == old(playoutResyncStat) + 1
      ensures if backlogResync then arrival == Forgetting(old(arrival)) else arrival == old(arrival)
    {
      TrimTo(targetBufferedFrames + 1, false);
      if backlogResync {
        ResetArrivalRateEstimator();
      }
      playoutResyncNeeded := false;
      frameCredit := NO_CREDIT;
      playoutResyncStat := playoutResyncStat + 1;
    }

    /** How many frames are due: one after a resynchronisation, else what the pace says. */
    method DecideDue(resynced: bool) returns (dueFrames: nat)
      modifies this`frameCredit
      ensures resynced ==> dueFrames == 1
      ensures !resynced ==>
                dueFrames ==
                DueFrames(|queue|, targetBufferedFrames, limit, arrival, averageDrawInterval, old(frameCredit).balance)
      ensures !resynced && UsesCredit(|queue|, targetBufferedFrames, arrival, averageDrawInterval) ==>
                frameCredit.rates ==
                old(frameCredit).rates + [WantedRate(|queue|, targetBufferedFrames, arrival, averageDrawInterval)]
      ensures PaceNow() == if resynced then old(PaceNow()) else old(PaceNow()).(credit :=
                CreditLeft(|queue|, targetBufferedFrames, arrival, averageDrawInterval, old(frameCredit).balance))
    {
      if resynced {
        dueFrames := 1;
      } else {
        dueFrames := FollowPace();
      }
    }

    /** The pace of the two clocks. */
    method FollowPace() returns (dueFrames: nat)
      modifies this`frameCredit
      ensures dueFrames ==
              DueFrames(|queue|, targetBufferedFrames, limit, arrival, averageDrawInterval, old(frameCredit).balance)
      ensures UsesCredit(|queue|, targetBufferedFrames, arrival, averageDrawInterval) ==>
                frameCredit.rates ==
                old(frameCredit).rates + [WantedRate(|queue|, targetBufferedFrames, arrival, averageDrawInterval)]
      ensures !UsesCredit(|queue|, targetBufferedFrames, arrival, averageDrawInterval) ==>
                frameCredit == if HasRates(arrival, averageDrawInterval) then NO_CREDIT else old(frameCredit)
      ensures frameCredit.balance ==
              CreditLeft(|queue|, targetBufferedFrames, arrival, averageDrawInterval, old(frameCredit).balance)
    {
      if arrival.samples == 0 || arrival.frameInterval <= 0 || averageDrawInterval <= 0 {
        return if |queue| > targetBufferedFrames then 1 else 0;
      }
      var baseFramesPerDraw := BaseRate(arrival, averageDrawInterval);
      var depthError := |queue| as real - (targetBufferedFrames + 1) as real;
      var framesPerDraw := FramesPerDraw(baseFramesPerDraw, depthError);
      if baseFramesPerDraw >= 0.98 && baseFramesPerDraw <= 1.02 && depthError == 0.0 {
        frameCredit := NO_CREDIT;
        return 1;
      }
      var wholeFrames := GrantCredit(framesPerDraw);
      dueFrames := Min(wholeFrames, limit);
    }

    /** The end of startup buffering. */
    method LeaveStartup()
      modifies this`startupBuffering, this`playoutResyncNeeded, this`frameCredit
      ensures !startupBuffering
      ensures playoutResyncNeeded == (old(playoutResyncNeeded) || old(startupBuffering))
      ensures frameCredit == if old(startupBuffering) then NO_CREDIT else old(frameCredit)
    {
      if startupBuffering {
        startupBuffering := false;
        frameCredit := NO_CREDIT;
        playoutResyncNeeded := true;
      }
    }

    /** The end of a legacy draw. */
    method CarryOut(dueFrames: nat) returns (frame: Option<Frame>, consumed: bool)
      modifies this`queue, this`freeQueue, this`bufferFrame, this`shown, this`stats, this`scheduledHoldStat,
               this`arrival, this`frameCredit, this`playoutResyncNeeded
      ensures frame == bufferFrame
      ensures Outcome(Snap(), consumed) == CarriedOut(old(Snap()), dueFrames)
      ensures PaceNow() == PaceCarriedOut(old(PaceNow()), old(|queue|), dueFrames)
    {
      if dueFrames == 0 {
        scheduledHoldStat := scheduledHoldStat + 1;
        return bufferFrame, false;
      }
      if queue == [] {
        CountEmptyHold();
        frameCredit := NO_CREDIT;
        playoutResyncNeeded := true;
        ResetArrivalRateEstimator();
        return bufferFrame, false;
      }
      ConsumeFrames(Min(|queue|, dueFrames));
      return bufferFrame, true;
    }

    /** The rest of a legacy draw, once the queue has been resynchronised or need not be. */
    method DrawDue(resynced: bool) returns (frame: Option<Frame>, consumed: bool)
      requires resynced ==> queue != []
      modifies this`queue, this`freeQueue, this`bufferFrame, this`shown, this`stats, this`scheduledHoldStat,
               this`arrival, this`frameCredit, this`playoutResyncNeeded
      ensures frame == bufferFrame
      ensures
        var due := if resynced then 1
                   else DueFrames(old(|queue|), targetBufferedFrames, limit, old(arrival), averageDrawInterval,
                                  old(frameCredit).balance);
        && Outcome(Snap(), consumed) == CarriedOut(old(Snap()), due)
        && PaceNow() == if resynced then old(PaceNow())
                        else Followed(old(PaceNow()), old(|queue|), targetBufferedFrames, limit)
    {
      ghost var trimmed := Snap();
      var dueFrames := DecideDue(resynced);
      assert Snap() == trimmed;
      frame, consumed := CarryOut(dueFrames);
    }

    /** A legacy draw that does not wait for the queue to fill. */
    method PaceDraw() returns (frame: Option<Frame>, consumed: bool)
      requires !startupBuffering
      modifies this`queue, this`freeQueue, this`bufferFrame, this`shown, this`stats, this`scheduledHoldStat,
               this`playoutResyncStat, this`arrival, this`frameCredit, this`playoutResyncNeeded
      ensures frame == bufferFrame
      ensures
        Outcome(Snap(), consumed) ==
        PacedOutcome(old(Snap()), old(playoutResyncNeeded) || (limit > 0 && old(|queue|) >= limit),
                     DueFrames(old(|queue|), targetBufferedFrames, limit, old(arrival), averageDrawInterval,
                               old(frameCredit).balance),
                     targetBufferedFrames)
      ensures PaceNow() == old(PaceAfterDraw(PaceNow(), |queue|, targetBufferedFrames, limit))
    {
      var resynced := TryResync();
      frame, consumed := DrawDue(resynced);
    }

    /** A legacy draw after the clock has ticked. */
    method PopLegacy() returns (frame: Option<Frame>, consumed: bool)
      modifies this`queue, this`freeQueue, this`bufferFrame, this`shown, this`stats, this`scheduledHoldStat,
               this`playoutResyncStat, this`arrival, this`frameCredit, this`startupBuffering, this`playoutResyncNeeded
      ensures frame == bufferFrame
      ensures Outcome(Snap(), consumed) == old(Paced(averageDrawInterval, frameCredit.balance, playoutResyncNeeded))
      ensures PaceNow() == old(PaceAfterLegacy(PaceNow(), |queue|, targetBufferedFrames, limit))
    {
      if startupBuffering && |queue| <= targetBufferedFrames {
        CountRebufferHold();
        return bufferFrame, false;
      }
      LeaveStartup();
      assert Snap() == old(Snap());
      frame, consumed := PaceDraw();
    }

    // ---------------------------------------------------------------- pop

    /** The outcome of a legacy draw with this average interval and this credit. */
    ghost function Paced(average: nat, credit: real, resync: bool): Outcome
      requires 0.0 <= credit
      reads this
    {
      LegacyOutcome(Snap(), startupBuffering, startupBuffering || resync || (limit > 0 && |queue| >= limit),
                    DueFrames(|queue|, targetBufferedFrames, limit, arrival, average, credit), targetBufferedFrames)
    }

    /** The pacing state of the legacy path. */
    ghost function PaceNow(): (p: Pace)
      reads this
      ensures 0.0 <= p.credit
    {
      CreditIsExact(frameCredit);
      Pace(averageDrawInterval, frameCredit.balance, startupBuffering, playoutResyncNeeded, arrival,
           playoutResyncStat, scheduledHoldStat)
    }

    /** And after the next draw. */
    ghost function NextPace(now: int): Pace
      reads this
    {
      PaceAfterLegacy(PaceAfterTick(PaceNow(), drawClockStarted, lastDraw, now),
                      |queue|, targetBufferedFrames, limit)
    }

    /** The pacing state of the configured path after a draw. */
    twostate predicate Moved(now: int, consumed: bool)
      reads this
    {
      if lowLatency then
        && unchanged(`arrival, `frameCredit, `startupBuffering, `playoutResyncNeeded, `playoutResyncStat)
        && unchanged(`drawClockStarted, `lastDraw, `averageDrawInterval)
        && scheduledHoldStat == old(scheduledHoldStat) + if consumed || old(queue) == [] then 0 else 1
      else
        drawClockStarted && lastDraw == now && PaceNow() == old(NextPace(now))
    }

    /** The outcome of a legacy draw. */
    ghost function LegacyDraw(now: int): Outcome
      reads this
    {
      var stumbles := Stumbles(drawClockStarted, lastDraw, now);
      Paced(Averaged(drawClockStarted, lastDraw, averageDrawInterval, now),
            if stumbles then 0.0 else frameCredit.balance, playoutResyncNeeded || stumbles)
    }

    /** A draw on the legacy path. */
    method DrawLegacy(now: int) returns (frame: Option<Frame>, consumed: bool)
      modifies this`queue, this`freeQueue, this`bufferFrame, this`shown, this`stats, this`scheduledHoldStat,
               this`playoutResyncStat, this`arrival, this`frameCredit, this`startupBuffering, this`playoutResyncNeeded,
               this`drawClockStarted, this`lastDraw, this`averageDrawInterval
      ensures Outcome(Snap(), consumed) == old(LegacyDraw(now)) && frame == bufferFrame
      ensures drawClockStarted && lastDraw == now && PaceNow() == old(NextPace(now))
    {
      TickDrawClock(now);
      assert PaceNow() == old(PaceAfterTick(PaceNow(), drawClockStarted, lastDraw, now));
      assert Paced(averageDrawInterval, frameCredit.balance, playoutResyncNeeded) == old(LegacyDraw(now));
      frame, consumed := PopLegacy();
    }

    /** A draw on the configured path. */
    method Draw(now: int) returns (frame: Option<Frame>, consumed: bool)
      modifies this`queue, this`freeQueue, this`bufferFrame, this`shown, this`stats, this`scheduledHoldStat,
               this`playoutResyncStat, this`arrival, this`frameCredit, this`startupBuffering, this`playoutResyncNeeded,
               this`drawClockStarted, this`lastDraw, this`averageDrawInterval
      ensures Outcome(Snap(), consumed) == old(NextDraw(now)) && frame == bufferFrame
      ensures Moved(now, consumed)
    {
      if lowLatency {
        frame, consumed := PopLowLatency(now);
      } else {
        frame, consumed := DrawLegacy(now);
      }
    }

    /** What the next draw does. */
    ghost function NextDraw(now: int): Outcome
      reads this
    {
      if lowLatency then LowLatencyOutcome(Snap(), now, Gate(), targetBufferedFrames) else LegacyDraw(now)
    }

    /** Whatever the path, the next draw keeps what `Draws` says. */
    lemma NextDraws(now: int)
      requires Valid()
      ensures Draws(Snap(), NextDraw(now))
      ensures lowLatency && queue != [] && queue[0].queued + ONE_SECOND <= now ==> NextDraw(now).consumed
    {
      if lowLatency {
        LowLatencyDraws(Snap(), now, Gate(), targetBufferedFrames);
        if queue != [] && queue[0].queued + ONE_SECOND <= now {
          DueWithinASecond(Snap(), now, Gate(), targetBufferedFrames);
        }
      } else {
        LegacyDrawDraws(now);
      }
    }

    lemma LegacyDrawDraws(now: int)
      requires Valid()
      ensures Draws(Snap(), LegacyDraw(now))
    {
      var stumbles := Stumbles(drawClockStarted, lastDraw, now);
      var average := Averaged(drawClockStarted, lastDraw, averageDrawInterval, now);
      var credit := if stumbles then 0.0 else frameCredit.balance;
      LegacyDraws(Snap(), startupBuffering,
                  startupBuffering || playoutResyncNeeded || stumbles || (limit > 0 && |queue| >= limit),
                  DueFrames(|queue|, targetBufferedFrames, limit, arrival, average, credit), targetBufferedFrames);
    }

    /** A draw: the frame to show, and whether it is a new one. */
    method Pop(now: int) returns (frame: Option<Frame>, consumed: bool)
      requires Valid()
      modifies this`queue, this`freeQueue, this`bufferFrame, this`shown, this`stats, this`scheduledHoldStat,
               this`playoutResyncStat, this`arrival, this`frameCredit, this`startupBuffering, this`playoutResyncNeeded,
               this`drawClockStarted, this`lastDraw, this`averageDrawInterval, this`pushesSincePop
      ensures Did(Call.Draw)
      ensures Outcome(Snap(), consumed) == old(NextDraw(now)) && Draws(old(Snap()), Outcome(Snap(), consumed))
      ensures frame == bufferFrame && pushesSincePop == 0 && Moved(now, consumed)
      ensures lowLatency && old(queue) != [] && old(queue)[0].queued + ONE_SECOND <= now ==> consumed
    {
      frame, consumed := DrawWithin(now);
      ghost var after := Snap();
      // cleared before the draw in the original, where nothing reads it
      pushesSincePop := 0;
      assert Snap() == after;
    }

    /** The draw of a sound queue leaves it sound, and within its bounds. */
    method DrawWithin(now: int) returns (frame: Option<Frame>, consumed: bool)
      requires Valid()
      modifies this`queue, this`freeQueue, this`bufferFrame, this`shown, this`stats, this`scheduledHoldStat,
               this`playoutResyncStat, this`arrival, this`frameCredit, this`startupBuffering, this`playoutResyncNeeded,
               this`drawClockStarted, this`lastDraw, this`averageDrawInterval
      ensures Did(Call.Draw)
      ensures Outcome(Snap(), consumed) == old(NextDraw(now)) && Draws(old(Snap()), Outcome(Snap(), consumed))
      ensures frame == bufferFrame && Moved(now, consumed)
      ensures lowLatency && old(queue) != [] && old(queue)[0].queued + ONE_SECOND <= now ==> consumed
    {
      ghost var before := Snap();
      NextDraws(now);
      frame, consumed := Draw(now);
      assert Draws(before, Outcome(Snap(), consumed));
      Keeps(Call.Draw);
    }

    // ---------------------------------------------------------------- write frames, cleanup

    /** Lends a frame to the decoder. */
    method AcquireWriteFrame() returns (frame: Option<Frame>)
      requires Valid()
      modifies this`freeQueue, this`nextFrame, this`checkedOut
      ensures Did(Lend)
      ensures frame.None? ==> Snap() == old(Snap()) && freeQueue == []
      ensures frame.Some? ==> frame.value == TakenFrame(old(Snap())) && Snap() == HandedOut(old(Snap()))
      ensures frame.Some? ==> frame.value !in old(checkedOut) && frame.value !in Snap().Held()
    {
      ghost var before := Snap();
      HandedOutIsSound(before);
      frame := AcquireFrame();
      if frame.Some? {
        checkedOut := checkedOut + {frame.value};
        assert Snap() == HandedOut(before);
      } else {
        assert Snap() == before;
      }
      Keeps(Lend);
    }

    /** Takes an unused frame back. */
    method RecycleWriteFrame(frame: Option<Frame>)
      requires Valid() && (frame.Some? ==> frame.value !in Snap().Held())
      modifies this`freeQueue, this`nextFrame, this`checkedOut
      ensures Valid() && (frame.Some? ==> Did(TakeBack(frame.value)))
      ensures Snap() == if frame.Some? then Returned(old(Snap()), frame.value) else old(Snap())
    {
      ghost var before := Snap();
      if frame.Some? {
        ReceiveFrame(frame.value);
      }
      RecycleFrame(frame);
      assert Snap() == if frame.Some? then Returned(before, frame.value) else before;
      if frame.Some? {
        Keeps(TakeBack(frame.value));
      }
    }

    method UpdatePresentCostMs(renderP95Ms: real, gpuSubmitP95Ms: real, haveSamples: bool)
      modifies this`llRenderP95Ms, this`llGpuSubmitP95Ms, this`llHavePresentCost
      ensures Gate() == GateNs(renderP95Ms, gpuSubmitP95Ms, haveSamples, filter.jitterNs)
    {
      llRenderP95Ms := renderP95Ms;
      llGpuSubmitP95Ms := gpuSubmitP95Ms;
      llHavePresentCost := haveSamples;
    }

    /** Frees every stored frame and starts all statistics and clocks afresh; frames that are
        checked out stay out. */
    method Cleanup()
      requires Valid()
      modifies this
      ensures Fresh(Snap()) && Did(Clean) && SameConfig()
      ensures checkedOut == old(checkedOut) && nextFrame == old(nextFrame)
      ensures AtStart() && CountsNothing()
    {
      StartAfresh();
      Keeps(Clean);
    }

    method StartAfresh()
      requires Valid()
      modifies this
      ensures Fresh(Snap()) && SameConfig()
      ensures checkedOut == old(checkedOut) && nextFrame == old(nextFrame)
      ensures AtStart() && CountsNothing()
    {
      ResetStatistics();
      ResetPacing();
      FreeFrames();
    }

    method ResetStatistics()
      modifies this`stats, this`scheduledHoldStat, this`pushesSincePop,
               this`maxPushBurstStat, this`playoutResyncStat,
               this`llRenderP95Ms, this`llGpuSubmitP95Ms, this`llHavePresentCost
      ensures stats == NO_STATISTICS
      ensures CountsNothing()
    {
      stats := NO_STATISTICS;
      scheduledHoldStat, pushesSincePop, maxPushBurstStat, playoutResyncStat := 0, 0, 0, 0;
      llRenderP95Ms, llGpuSubmitP95Ms, llHavePresentCost := 0.0, 0.0, false;
    }

    method FreeFrames()
      modifies this`bufferFrame, this`queue, this`freeQueue, this`pushed, this`shown
      ensures bufferFrame == None && queue == [] && freeQueue == [] && pushed == [] && shown == []
    {
      bufferFrame := None;
      queue, freeQueue := [], [];
      pushed, shown := [], [];
    }
  }
}
