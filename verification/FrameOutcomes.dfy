/**
 What draws and pushes come to, in numbers: which push is on screen afterwards, how many frames are
 left, and how the others are counted.
 */
module FrameOutcomes {
  import opened FrameStore
  import opened Numbers
  import opened Wrappers

  /** A draw has shown the push of this number, with so many skipped to get there. */
  ghost predicate Shows(s: Store, o: Outcome, number: int, skipped: nat) {
    && o.consumed && 0 <= number && o.store.shown == s.shown + [number] && 0 <= number < |s.pushed|
    && o.store.screen == Some(s.pushed[number])
    && |o.store.queue| == |s.pushed| - 1 - number <= |s.queue|
    && o.store.queue == s.queue[|s.queue| - |o.store.queue|..]
    && o.store.stats == s.stats.(paced := s.stats.paced + 1, dropped := s.stats.dropped + skipped,
                                 skipped := s.stats.skipped + skipped)
  }

  /** A draw shows the old frame again and counts that, if there is one, under `empty` or `rebuffer`. */
  ghost predicate Repeats(s: Store, o: Outcome, empty: nat, rebuffer: nat) {
    && !o.consumed
    && o.store == if s.screen.None? then s else s.(stats := s.stats.(fake := s.stats.fake + empty + rebuffer,
         empty := s.stats.empty + empty, rebuffer := s.stats.rebuffer + rebuffer))
  }

  lemma AdvanceShows(s: Store, k: nat, n: nat)
    requires s.Sound() && k + n <= |s.queue| && 1 <= n
    ensures Shows(s, Outcome(Advance(s, k, n), true), s.Front() + k + n - 1, k + n - 1)
  {
    AdvanceIsSound(s, k, n);
    var d := DropOldest(s, k, false);
    assert d.queue == s.queue[k..] && Consume(d, n).queue == s.queue[k + n..];
    assert Frames(s.queue)[k + n - 1] == s.pushed[s.Front() + k + n - 1];
  }

  /** A legacy draw. While the queue fills up it waits for more than `target` frames. To resynchronise
      it goes to the oldest of the `target` + 1 newest frames. Otherwise it takes as many frames as
      are due, or as there are. */
  lemma LegacyDrawsInNumbers(s: Store, buffering: bool, resync: bool, due: nat, target: nat)
    requires s.Sound()
    ensures
      var o, n := LegacyOutcome(s, buffering, resync, due, target), |s.queue|;
      if buffering && n <= target then Repeats(s, o, 0, 1)
      else if resync && n > target then Shows(s, o, |s.pushed| - target - 1, n - target - 1)
      else if resync && n > 0 then Shows(s, o, s.Front(), 0)
      else if due == 0 then Repeats(s, o, 0, 0)
      else if n == 0 then Repeats(s, o, 1, 0)
      else if due <= n then Shows(s, o, s.Front() + due - 1, due - 1)
      else Shows(s, o, |s.pushed| - 1, n - 1)
  {
    var n := |s.queue|;
    if buffering && n <= target {
      assert LegacyOutcome(s, buffering, resync, due, target) == Outcome(HoldRebuffering(s), false);
    } else if resync && n > 0 {
      ResyncShows(s, due, target);
    } else {
      PaceShows(s, due);
    }
  }

  lemma ResyncShows(s: Store, due: nat, target: nat)
    requires s.Sound() && s.queue != []
    ensures
      var n := |s.queue|;
      Shows(s, PacedOutcome(s, true, due, target), if n > target then |s.pushed| - target - 1 else s.Front(),
            if n > target then n - target - 1 else 0)
  {
    var k := if |s.queue| > target then |s.queue| - target - 1 else 0;
    assert KeepNewest(s, target + 1, false) == DropOldest(s, k, false);
    AdvanceShows(s, k, 1);
  }

  lemma PaceShows(s: Store, due: nat)
    requires s.Sound()
    ensures
      var o, n := CarriedOut(s, due), |s.queue|;
      if due == 0 then Repeats(s, o, 0, 0)
      else if n == 0 then Repeats(s, o, 1, 0)
      else Shows(s, o, s.Front() + Min(n, due) - 1, Min(n, due) - 1)
  {
    if due > 0 && s.queue != [] {
      AdvanceShows(s, 0, Min(|s.queue|, due));
      assert DropOldest(s, 0, false) == s;
    }
  }

  /** A low-latency draw goes to the newest frame: with more than `target` + 1 frames at once, with fewer
      once the deadline of the oldest one is less than the gate away. */
  lemma LowLatencyDrawsInNumbers(s: Store, now: int, gate: int, target: nat)
    requires s.Sound()
    ensures
      var o, n := LowLatencyOutcome(s, now, gate, target), |s.queue|;
      if n == 0 then Repeats(s, o, 1, 0)
      else if n > target + 1 || s.queue[0].timeEstimate <= now + gate then Shows(s, o, |s.pushed| - 1, n - 1)
      else Repeats(s, o, 0, 0)
  {
    if s.queue != [] {
      AdvanceShows(s, |s.queue| - 1, 1);
    }
  }

  /** A push is trimmed to the `target` + 1 newest frames if the queue was full; what goes is counted as
      overflow. */
  lemma PushesInNumbers(s: Store, t: TimedFrame, limit: nat, target: nat)
    requires target + 1 <= limit && |s.queue| <= limit
    ensures
      var after := AfterPush(s, t, limit, target);
      var lost := if |s.queue| == limit then limit - target else 0;
      && after.pushed == s.pushed + [t.frame] && after.shown == s.shown && after.screen == s.screen
      && after.queue == (s.queue + [t])[lost..]
      && after.stats == s.stats.(dropped := s.stats.dropped + lost, overflow := s.stats.overflow + lost)
  {
  }

  /** Frames are recycled oldest first, and only when none is free a new one is made. */
  lemma FramesAreRecycled(s: Store)
    ensures s.free != [] ==> [TakenFrame(s)] + Taken(s).free == s.free && Taken(s).nextFrame == s.nextFrame
    ensures s.free == [] ==> TakenFrame(s) == s.nextFrame && Taken(s).nextFrame == s.nextFrame + 1
  {
  }
}
