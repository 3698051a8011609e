/**
 What an `AVFrameQueue` stores and what its operations do to it, as values: a bounded queue of
 decoded frames, a free list through which frames are recycled, the frame on screen, and the
 statistics. A frame is an identity; times are nanoseconds.
 */
module FrameStore {
  import opened Numbers
  import opened Wrappers

  type Frame = nat

  datatype TimedFrame = TimedFrame(timeEstimate: int, queued: int, frame: Frame)

  const BURST_HEADROOM_FRAMES: nat := 5

  const ONE_SECOND: int := 1_000_000_000

  function Frames(q: seq<TimedFrame>): seq<Frame> {
    seq(|q|, i requires 0 <= i < |q| => q[i].frame)
  }

  lemma FramesSplit(q: seq<TimedFrame>, k: nat)
    requires k <= |q|
    ensures Frames(q) == Frames(q[..k]) + Frames(q[k..])
  {
  }

  lemma FramesAppend(q: seq<TimedFrame>, t: TimedFrame)
    ensures Frames(q + [t]) == Frames(q) + [t.frame]
  {
  }

  ghost predicate Distinct(s: seq<Frame>) {
    forall i, j :: 0 <= i < j < |s| ==> s[i] != s[j]
  }

  lemma DistinctParts(a: seq<Frame>, b: seq<Frame>)
    ensures Distinct(a + b) <==> Distinct(a) && Distinct(b) && forall f :: f in a ==> f !in b
  {
    var s := a + b;
    if Distinct(s) {
      forall i, j | 0 <= i < j < |a|
        ensures a[i] != a[j]
      {
        assert s[i] != s[j];
      }
      forall i, j | 0 <= i < j < |b|
        ensures b[i] != b[j]
      {
        assert s[|a| + i] != s[|a| + j];
      }
      forall i, j | 0 <= i < |a| && 0 <= j < |b|
        ensures a[i] != b[j]
      {
        assert s[i] != s[|a| + j];
      }
    }
    if Distinct(a) && Distinct(b) && (forall f :: f in a ==> f !in b) {
      forall i, j | 0 <= i < j < |s|
        ensures s[i] != s[j]
      {
        if j < |a| {
          assert a[i] != a[j];
        } else if |a| <= i {
          assert b[i - |a|] != b[j - |a|];
        } else {
          assert a[i] in a && b[j - |a|] in b;
        }
      }
    }
  }

  /** A block of distinct frames may move past its neighbour. */
  lemma DistinctMove(a: seq<Frame>, b: seq<Frame>, rest: seq<Frame>)
    requires Distinct(a + b + rest)
    ensures Distinct(b + a + rest)
    ensures forall f :: f in b + a + rest <==> f in a + b + rest
  {
    DistinctParts(a, b);
    DistinctParts(a + b, rest);
    DistinctParts(b, a);
    DistinctParts(b + a, rest);
  }

  ghost predicate Increasing(s: seq<nat>) {
    forall i, j :: 0 <= i < j < |s| ==> s[i] < s[j]
  }

  // ---------------------------------------------------------------- the store

  /** The statistics that account for every frame and every draw: frames dropped, for overflow or
      skipped for pacing; frames that reached the screen; draws that had to show an old frame,
      because the queue was empty or still filling. */
  datatype Statistics = Statistics(
    dropped: nat, overflow: nat, skipped: nat, paced: nat,
    fake: nat, empty: nat, rebuffer: nat)
  {
    function Drop(k: nat, forOverflow: bool): Statistics {
      this.(dropped := dropped + k,
            overflow := overflow + if forOverflow then k else 0,
            skipped := skipped + if forOverflow then 0 else k)
    }
  }

  const NO_STATISTICS := Statistics(0, 0, 0, 0, 0, 0, 0)

  /** The frames of a queue and their fate. `pushed` are the frames of all accepted pushes since
      the last cleanup and `shown` the numbers of the pushes that reached the screen. */
  datatype Store = Store(
    queue: seq<TimedFrame>,
    free: seq<Frame>,
    screen: Option<Frame>,
    checkedOut: set<Frame>,
    nextFrame: Frame,
    pushed: seq<Frame>,
    shown: seq<nat>,
    stats: Statistics)
  {
    /** Every frame the queue holds. */
    ghost function Held(): seq<Frame> {
      Frames(queue) + free + Listed(screen)
    }

    /** Each frame is held in one place once, and never while it is checked out. */
    ghost predicate OwnsFrames() {
      && Distinct(Held())
      && (forall f :: f in Held() ==> f !in checkedOut && f < nextFrame)
      && (forall f :: f in checkedOut ==> f < nextFrame)
    }

    /** None gets lost: every accepted push was shown, dropped or is still queued. */
    ghost predicate Conserves() {
      && |pushed| == stats.paced + stats.dropped + |queue|
      && stats.paced == |shown|
      && stats.dropped == stats.overflow + stats.skipped
      && stats.fake == stats.empty + stats.rebuffer
    }

    /** The number of the oldest queued push. */
    ghost function Front(): int {
      |pushed| - |queue|
    }

    /** The queue is the tail of what was pushed; what was shown is an increasing selection
        from before it, and the last of it is on screen. */
    ghost predicate InOrder() {
      && |queue| <= |pushed|
      && Frames(queue) == pushed[Front()..]
      && Increasing(shown)
      && (forall i :: 0 <= i < |shown| ==> shown[i] < Front())
      && screen == if shown == [] then None else Some(pushed[shown[|shown| - 1]])
    }

    /** Every queued frame is to be shown within a second of its arrival. */
    ghost predicate Timely() {
      forall i :: 0 <= i < |queue| ==> queue[i].timeEstimate <= queue[i].queued + ONE_SECOND
    }

    /** The frame of `t` came from here or was handed in, is in no other hands, and `t` is timely. */
    ghost predicate Admits(t: TimedFrame) {
      && t.frame !in Held() && t.frame !in checkedOut && t.frame < nextFrame
      && t.timeEstimate <= t.queued + ONE_SECOND
    }

    ghost predicate Sound() {
      OwnsFrames() && Conserves() && InOrder() && Timely()
    }
  }

  /** A new frame at the back of the queue. */
  function Enqueue(s: Store, t: TimedFrame): Store {
    s.(queue := s.queue + [t], pushed := s.pushed + [t.frame])
  }

  /** The `k` oldest queued frames are dropped, for overflow or to catch up. */
  function DropOldest(s: Store, k: nat, forOverflow: bool): Store
    requires k <= |s.queue|
  {
    if k == 0 then s
    else s.(queue := s.queue[k..], free := s.free + Frames(s.queue[..k]), stats := s.stats.Drop(k, forOverflow))
  }

  /** A trimming loop: dropping until at most `keep` frames are queued. */
  function KeepNewest(s: Store, keep: nat, forOverflow: bool): Store {
    if |s.queue| <= keep then s else DropOldest(s, |s.queue| - keep, forOverflow)
  }

  function Listed(frame: Option<Frame>): seq<Frame> {
    match frame case None => [] case Some(f) => [f]
  }

  /** A draw consumes the `n` oldest queued frames: the frame on screen is recycled, the last
      of the `n` takes its place and the others are skipped. */
  function Consume(s: Store, n: nat): Store
    requires 1 <= n <= |s.queue|
  {
    s.(queue := s.queue[n..],
       free := s.free + Listed(s.screen) + Frames(s.queue[..n - 1]),
       screen := Some(s.queue[n - 1].frame),
       shown := s.shown + [Monus(|s.pushed|, |s.queue|) + n - 1],
       stats := s.stats.Drop(n - 1, false).(paced := s.stats.paced + 1))
  }

  function Monus(a: nat, b: nat): nat {
    if a < b then 0 else a - b
  }

  /** A queue that starts afresh: nothing stored, nothing counted. */
  ghost predicate Fresh(s: Store) {
    && |s.queue| == 0 && |s.free| == 0 && s.screen == None && |s.pushed| == 0 && |s.shown| == 0
    && s.stats == NO_STATISTICS
  }

  lemma FreshIsSound(s: Store)
    requires Fresh(s) && forall f :: f in s.checkedOut ==> f < s.nextFrame
    ensures s.Sound() && PoolSize(s) == |s.checkedOut|
  {
    assert |s.Held()| == 0;
    assert Frames(s.queue) == s.pushed[s.Front()..];
    assert s.shown == [];
  }

  lemma DropOneMore(s: Store, k: nat, forOverflow: bool)
    requires k < |s.queue|
    ensures
      var d := DropOldest(s, k, forOverflow);
      && |d.queue| == |s.queue| - k > 0
      && DropOldest(s, k + 1, forOverflow) ==
         d.(queue := d.queue[1..], free := d.free + [d.queue[0].frame], stats := d.stats.Drop(1, forOverflow))
  {
    assert s.queue[..k + 1] == s.queue[..k] + [s.queue[k]];
    FramesAppend(s.queue[..k], s.queue[k]);
    if k > 0 {
      assert s.queue[k + 1..] == s.queue[k..][1..];
    }
  }

  lemma EnqueueIsSound(s: Store, t: TimedFrame)
    requires s.Sound() && s.Admits(t)
    ensures Enqueue(s, t).Sound()
  {
    var e := Enqueue(s, t);
    var q, rest := Frames(s.queue), s.free + Listed(s.screen);
    FramesAppend(s.queue, t);
    assert s.Held() == q + rest && e.Held() == q + [t.frame] + rest;
    assert [t.frame] + s.Held() == [t.frame] + q + rest;
    DistinctParts([t.frame], s.Held());
    DistinctMove([t.frame], q, rest);
  }

  lemma DropOldestIsSound(s: Store, k: nat, forOverflow: bool)
    requires s.Sound() && k <= |s.queue|
    ensures DropOldest(s, k, forOverflow).Sound()
  {
    if k == 0 {
      return;
    }
    var d := DropOldest(s, k, forOverflow);
    var a, b, f, rest := Frames(s.queue[..k]), Frames(s.queue[k..]), s.free, Listed(s.screen);
    FramesSplit(s.queue, k);
    assert s.Held() == a + (b + f) + rest;
    assert d.Held() == (b + f) + a + rest;
    DistinctMove(a, b + f, rest);
    assert Frames(d.queue) == Frames(s.queue)[k..];
  }

  lemma KeepNewestIsSound(s: Store, keep: nat, forOverflow: bool)
    requires s.Sound()
    ensures KeepNewest(s, keep, forOverflow).Sound()
    ensures PoolSize(KeepNewest(s, keep, forOverflow)) == PoolSize(s)
    ensures |KeepNewest(s, keep, forOverflow).queue| == Min(|s.queue|, keep)
  {
    if |s.queue| > keep {
      DropOldestIsSound(s, |s.queue| - keep, forOverflow);
    }
  }

  lemma ConsumeIsSound(s: Store, n: nat)
    requires s.Sound() && 1 <= n <= |s.queue|
    ensures Consume(s, n).Sound()
  {
    var c := Consume(s, n);
    var a, b, rest := Frames(s.queue[..n]), Frames(s.queue[n..]), s.free + Listed(s.screen);
    FramesSplit(s.queue, n);
    FramesAppend(s.queue[..n - 1], s.queue[n - 1]);
    assert s.queue[..n] == s.queue[..n - 1] + [s.queue[n - 1]];
    assert s.Held() == a + (b + rest) + [];
    assert c.Held() == (b + rest) + a + [];
    DistinctMove(a, b + rest, []);
    assert Frames(c.queue) == Frames(s.queue)[n..];
    assert s.queue[n - 1].frame == Frames(s.queue)[n - 1];
  }

  /** The frames a queue answers for, in it or handed out. */
  ghost function PoolSize(s: Store): nat {
    |s.queue| + |s.free| + |Listed(s.screen)| + |s.checkedOut|
  }

  /** The bounds of a queue that was configured while it held no frames: its length, and the frames
      in it and outside it, when at most `peakOut` were ever out at once and `foreign` came in. */
  ghost predicate InBounds(s: Store, limit: nat, target: nat, peakOut: nat, foreign: nat) {
    && target + 1 <= limit
    && |s.queue| <= limit
    && |s.checkedOut| <= peakOut
    && PoolSize(s) <= limit + 1 + peakOut + foreign
  }

  function CapacityFor(configuredQueueSize: nat): nat {
    Max(configuredQueueSize, 1) + BURST_HEADROOM_FRAMES
  }

  /** An overfull queue is cut down to the playout window. */
  function Trimmed(s: Store, limit: nat, target: nat): Store {
    if |s.queue| > limit then KeepNewest(s, target + 1, true) else s
  }

  /** What a push leaves behind. */
  function AfterPush(s: Store, t: TimedFrame, limit: nat, target: nat): Store {
    Trimmed(Enqueue(s, t), limit, target)
  }

  /** A frame that arrived `now` was pushed, with a deadline within a second. */
  ghost predicate Pushed(s: Store, after: Store, frame: Frame, deadline: int, now: int, limit: nat, target: nat) {
    deadline <= now + ONE_SECOND && after == AfterPush(s, TimedFrame(deadline, now, frame), limit, target)
  }

  /** The frame that was pushed is the newest one, trimmed or not. */
  lemma PushedIsNewest(s: Store, after: Store, frame: Frame, deadline: int, now: int, limit: nat, target: nat)
    requires Pushed(s, after, frame, deadline, now, limit, target)
    ensures after.queue != [] && after.queue[|after.queue| - 1] == TimedFrame(deadline, now, frame)
  {
  }

  lemma AfterPushIsSound(s: Store, t: TimedFrame, limit: nat, target: nat)
    requires s.Sound() && s.Admits(t)
    ensures AfterPush(s, t, limit, target).Sound()
    ensures PoolSize(AfterPush(s, t, limit, target)) == PoolSize(s) + 1
    ensures target + 1 <= limit && |s.queue| <= limit ==> |AfterPush(s, t, limit, target).queue| <= limit
  {
    EnqueueIsSound(s, t);
    KeepNewestIsSound(Enqueue(s, t), target + 1, true);
  }

  /** Taking a frame from the pool: the oldest free one, else a new one. */
  function Taken(s: Store): Store {
    if s.free != [] then s.(free := s.free[1..]) else s.(nextFrame := s.nextFrame + 1)
  }

  function TakenFrame(s: Store): Frame {
    if s.free != [] then s.free[0] else s.nextFrame
  }

  /** The oldest free frame is held nowhere else. */
  lemma FreeFrameLeaves(s: Store)
    requires Distinct(s.Held()) && s.free != []
    ensures s.Held()[|s.queue|] == s.free[0] && s.free[0] in s.Held()
    ensures Distinct(Taken(s).Held()) && s.free[0] !in Taken(s).Held()
    ensures forall f :: f in Taken(s).Held() ==> f in s.Held()
  {
    var q, first, rest := Frames(s.queue), [s.free[0]], s.free[1..] + Listed(s.screen);
    assert s.Held() == q + first + rest by {
      assert s.free == first + s.free[1..];
    }
    DistinctMove(q, first, rest);
    assert Taken(s).Held() == q + rest;
    assert first + q + rest == first + Taken(s).Held();
    DistinctParts(first, Taken(s).Held());
  }

  lemma TakenIsSound(s: Store)
    requires s.Sound()
    ensures Taken(s).Sound()
    ensures TakenFrame(s) !in Taken(s).Held() && TakenFrame(s) !in s.checkedOut && TakenFrame(s) < Taken(s).nextFrame
    ensures PoolSize(Taken(s)) == PoolSize(s) - if s.free != [] then 1 else 0
  {
    if s.free != [] {
      FreeFrameLeaves(s);
    } else {
      assert Taken(s).Held() == s.Held();
    }
  }

  /** A frame comes back from outside the queue. */
  function HandedIn(s: Store, frame: Frame): Store {
    s.(checkedOut := s.checkedOut - {frame}, nextFrame := Max(s.nextFrame, frame + 1))
  }

  lemma HandedInIsSound(s: Store, frame: Frame)
    requires s.Sound() && frame !in s.Held()
    ensures HandedIn(s, frame).Sound()
    ensures HandedIn(s, frame).Held() == s.Held()
    ensures PoolSize(HandedIn(s, frame)) == PoolSize(s) - if frame in s.checkedOut then 1 else 0
  {
    assert HandedIn(s, frame).Held() == s.Held();
  }

  lemma HandedPushIsSound(s: Store, after: Store, frame: Frame, deadline: int, now: int, limit: nat, target: nat)
    requires s.Sound() && frame !in s.Held()
    requires Pushed(HandedIn(s, frame), after, frame, deadline, now, limit, target)
    ensures after.Sound()
    ensures PoolSize(after) == PoolSize(s) + if frame in s.checkedOut then 0 else 1
    ensures after.checkedOut <= s.checkedOut
    ensures target + 1 <= limit && |s.queue| <= limit ==> |after.queue| <= limit
  {
    HandedInIsSound(s, frame);
    AfterPushIsSound(HandedIn(s, frame), TimedFrame(deadline, now, frame), limit, target);
  }

  lemma CopiedPushIsSound(s: Store, after: Store, ok: bool, deadline: int, now: int, limit: nat, target: nat)
    requires s.Sound()
    requires !ok ==> after == s || after == Taken(s)
    requires ok ==> Pushed(Taken(s), after, TakenFrame(s), deadline, now, limit, target)
    ensures after.Sound() && after.checkedOut == s.checkedOut
    ensures PoolSize(after) <= if s.free == [] && ok then PoolSize(s) + 1 else PoolSize(s)
    ensures target + 1 <= limit && |s.queue| <= limit ==> |after.queue| <= limit
  {
    TakenIsSound(s);
    if ok {
      AfterPushIsSound(Taken(s), TimedFrame(deadline, now, TakenFrame(s)), limit, target);
    }
  }

  // ---------------------------------------------------------------- frames in other hands

  /** A frame leaves the pool to be written by the decoder. */
  function HandedOut(s: Store): Store {
    Taken(s).(checkedOut := s.checkedOut + {TakenFrame(s)})
  }

  lemma HandedOutIsSound(s: Store)
    requires s.Sound()
    ensures HandedOut(s).Sound()
    ensures TakenFrame(s) !in s.checkedOut
    ensures PoolSize(HandedOut(s)) == PoolSize(s) + if s.free == [] then 1 else 0
  {
    TakenIsSound(s);
    assert HandedOut(s).Held() == Taken(s).Held();
  }

  /** A frame comes back unused. */
  function Returned(s: Store, frame: Frame): Store {
    HandedIn(s, frame).(free := s.free + [frame])
  }

  lemma ReturnedIsSound(s: Store, frame: Frame)
    requires s.Sound() && frame !in s.Held()
    ensures Returned(s, frame).Sound()
    ensures PoolSize(Returned(s, frame)) == PoolSize(s) + if frame in s.checkedOut then 0 else 1
  {
    HandedInIsSound(s, frame);
    var r := Returned(s, frame);
    var kept, screen := Frames(s.queue) + s.free, Listed(s.screen);
    assert s.Held() == kept + screen && r.Held() == kept + [frame] + screen;
    assert [frame] + s.Held() == [frame] + kept + screen;
    DistinctParts([frame], s.Held());
    DistinctMove([frame], kept, screen);
  }

  // ---------------------------------------------------------------- draws

  /** A draw that finds no frame, or is still filling the queue, shows the old frame again. */
  function HoldOnEmpty(s: Store): Store {
    if s.screen.Some? then s.(stats := s.stats.(fake := s.stats.fake + 1, empty := s.stats.empty + 1)) else s
  }

  function HoldRebuffering(s: Store): Store {
    if s.screen.Some? then s.(stats := s.stats.(fake := s.stats.fake + 1, rebuffer := s.stats.rebuffer + 1)) else s
  }

  /** A draw that skips `k` frames and then consumes `n`. */
  function Advance(s: Store, k: nat, n: nat): Store
    requires k + n <= |s.queue| && 1 <= n
  {
    Consume(DropOldest(s, k, false), n)
  }

  lemma AdvanceIsSound(s: Store, k: nat, n: nat)
    requires s.Sound() && k + n <= |s.queue| && 1 <= n
    ensures Advance(s, k, n).Sound()
    ensures PoolSize(Advance(s, k, n)) == PoolSize(s)
    ensures Advance(s, k, n).screen == Some(s.queue[k + n - 1].frame)
  {
    DropOldestIsSound(s, k, false);
    ConsumeIsSound(DropOldest(s, k, false), n);
  }

  /** What a draw leaves behind, and whether it consumed a frame. */
  datatype Outcome = Outcome(store: Store, consumed: bool)

  /** The low-latency gate: the oldest frame is due, or the queue is backlogged. */
  predicate Due(s: Store, now: int, gate: int, target: nat) {
    s.queue != [] && (|s.queue| - 1 > target || now >= s.queue[0].timeEstimate - gate)
  }

  /** A low-latency draw goes straight to the newest frame once the oldest one is due. */
  function LowLatencyOutcome(s: Store, now: int, gate: int, target: nat): Outcome {
    if s.queue == [] then Outcome(HoldOnEmpty(s), false)
    else if !Due(s, now, gate, target) then Outcome(s, false)
    else Outcome(Advance(s, |s.queue| - 1, 1), true)
  }

  /** A legacy draw: fill up, then resynchronise to the playout window, then follow the pace. */
  function LegacyOutcome(s: Store, buffering: bool, resync: bool, due: nat, target: nat): Outcome {
    if buffering && |s.queue| <= target then Outcome(HoldRebuffering(s), false)
    else PacedOutcome(s, resync, due, target)
  }

  function PacedOutcome(s: Store, resync: bool, due: nat, target: nat): Outcome {
    if resync && s.queue != [] then CarriedOut(KeepNewest(s, target + 1, false), 1)
    else CarriedOut(s, due)
  }

  /** A legacy draw for which `due` frames are due. */
  function CarriedOut(s: Store, due: nat): Outcome {
    if due == 0 then Outcome(s, false)
    else if s.queue == [] then Outcome(HoldOnEmpty(s), false)
    else Outcome(Consume(s, Min(|s.queue|, due)), true)
  }

  /** What every draw keeps: it is sound, only shortens the queue, moves no frame in or out, and
      shows a later push than before exactly when it consumes; otherwise the store is as before
      except for the hold counters. */
  ghost predicate Draws(s: Store, o: Outcome) {
    var d := o.store;
    && d.Sound()
    && |d.queue| <= |s.queue| && PoolSize(d) == PoolSize(s) && d.checkedOut == s.checkedOut
    && d.pushed == s.pushed
    && (o.consumed ==>
          && |s.shown| < |d.shown| == |s.shown| + 1
          && d.shown[..|s.shown|] == s.shown
          && d.screen == Some(s.pushed[d.shown[|s.shown|]])
          && s.Front() <= d.shown[|s.shown|])
    && (!o.consumed ==> d == s.(stats := s.stats.(fake := d.stats.fake, empty := d.stats.empty,
      rebuffer := d.stats.rebuffer)))
  }

  lemma AdvanceDraws(s: Store, k: nat, n: nat)
    requires s.Sound() && k + n <= |s.queue| && 1 <= n
    ensures Draws(s, Outcome(Advance(s, k, n), true))
  {
    AdvanceIsSound(s, k, n);
    assert s.queue[k + n - 1].frame == Frames(s.queue)[k + n - 1];
  }

  lemma HoldDraws(s: Store, fake: nat, empty: nat, rebuffer: nat)
    requires s.Sound() && fake == empty + rebuffer
    ensures Draws(s, Outcome(s.(stats := s.stats.(fake := fake, empty := empty, rebuffer := rebuffer)), false))
  {
    assert s.(stats := s.stats.(fake := fake, empty := empty, rebuffer := rebuffer)).Held() == s.Held();
  }

  lemma HoldsDraw(s: Store)
    requires s.Sound()
    ensures Draws(s, Outcome(s, false)) && Draws(s, Outcome(HoldOnEmpty(s), false))
    ensures Draws(s, Outcome(HoldRebuffering(s), false))
  {
    HoldDraws(s, s.stats.fake, s.stats.empty, s.stats.rebuffer);
    HoldDraws(s, s.stats.fake + 1, s.stats.empty + 1, s.stats.rebuffer);
    HoldDraws(s, s.stats.fake + 1, s.stats.empty, s.stats.rebuffer + 1);
  }

  lemma LowLatencyDraws(s: Store, now: int, gate: int, target: nat)
    requires s.Sound()
    ensures Draws(s, LowLatencyOutcome(s, now, gate, target))
  {
    if Due(s, now, gate, target) {
      AdvanceDraws(s, |s.queue| - 1, 1);
    } else {
      HoldsDraw(s);
    }
  }

  lemma CarriedOutDraws(s: Store, due: nat)
    requires s.Sound()
    ensures Draws(s, CarriedOut(s, due))
  {
    HoldsDraw(s);
    if due > 0 && s.queue != [] {
      AdvanceDraws(s, 0, Min(|s.queue|, due));
      assert DropOldest(s, 0, false) == s;
    }
  }

  lemma LegacyDraws(s: Store, buffering: bool, resync: bool, due: nat, target: nat)
    requires s.Sound()
    ensures Draws(s, LegacyOutcome(s, buffering, resync, due, target))
  {
    if buffering && |s.queue| <= target {
      HoldsDraw(s);
    } else if resync && s.queue != [] {
      AdvanceDraws(s, |s.queue| - Min(|s.queue|, target + 1), 1);
    } else {
      CarriedOutDraws(s, due);
    }
  }

  /** Starvation: a push into a queue that is not full leaves the oldest deadline in place, so a
      due frame stays due. A trimming push starts again from a younger frame's deadline. */
  lemma PushKeepsDue(s: Store, t: TimedFrame, now: int, later: int, gate: int, limit: nat, target: nat)
    requires Due(s, now, gate, target) && now <= later && target + 1 <= limit
    ensures |s.queue| < limit ==> Due(AfterPush(s, t, limit, target), later, gate, target)
    ensures |s.queue| >= limit ==>
              (Due(AfterPush(s, t, limit, target), later, gate, target)
               <==> later >= (s.queue + [t])[|s.queue| - target].timeEstimate - gate)
  {
  }

  /** The gate always opens within a second of the oldest frame's arrival. */
  lemma DueWithinASecond(s: Store, now: int, gate: int, target: nat)
    requires s.Sound() && s.queue != [] && 0 <= gate && s.queue[0].queued + ONE_SECOND <= now
    ensures Due(s, now, gate, target)
  {
    assert s.queue[0].timeEstimate <= s.queue[0].queued + ONE_SECOND;
  }
}
