/**
 Whole lives of a frame queue: runs of its public calls, as values. In every run each frame stays
 in one place, no push gets lost, and the pool of frames stays bounded.
 */
module FrameRuns {
  import opened FrameStore
  import opened Numbers
  import opened Wrappers

  /** The calls that touch the store: a push that copies, a push that hands a frame over, a draw,
      lending and taking back a frame to write, and a cleanup. */
  datatype Call = CopyPush | HandPush(frame: Frame) | Draw | Lend | TakeBack(frame: Frame) | Clean

  /** What each call may do, failures included. */
  ghost predicate Does(s: Store, call: Call, s': Store, limit: nat, target: nat) {
    match call
    case CopyPush =>
      || s' == s || s' == Taken(s)
      || exists deadline, now :: Pushed(Taken(s), s', TakenFrame(s), deadline, now, limit, target)
    case HandPush(frame) =>
      && frame !in s.Held()
      && exists deadline, now :: Pushed(HandedIn(s, frame), s', frame, deadline, now, limit, target)
    case Draw => exists consumed :: Draws(s, Outcome(s', consumed))
    case Lend => s' == s || s' == HandedOut(s)
    case TakeBack(frame) => frame !in s.Held() && s' == Returned(s, frame)
    case Clean => Fresh(s') && s'.checkedOut == s.checkedOut && s'.nextFrame == s.nextFrame
  }

  lemma CopyPushDoes(s: Store, s': Store, deadline: int, now: int, limit: nat, target: nat)
    requires Pushed(Taken(s), s', TakenFrame(s), deadline, now, limit, target)
    ensures Does(s, CopyPush, s', limit, target)
  {
  }

  lemma HandPushDoes(s: Store, frame: Frame, s': Store, deadline: int, now: int, limit: nat, target: nat)
    requires frame !in s.Held() && Pushed(HandedIn(s, frame), s', frame, deadline, now, limit, target)
    ensures Does(s, HandPush(frame), s', limit, target)
  {
  }

  /** Frames that come in although they were not lent out. */
  function Foreign(s: Store, call: Call): nat {
    match call
    case HandPush(frame) => if frame in s.checkedOut then 0 else 1
    case TakeBack(frame) => if frame in s.checkedOut then 0 else 1
    case _ => 0
  }

  /** At most `w` frames are out after the call, and while a copying push fills one of them. */
  predicate AtMostOut(s: Store, call: Call, s': Store, w: nat) {
    |s'.checkedOut| <= w && (call.CopyPush? ==> |s.checkedOut| < w)
  }

  // ---------------------------------------------------------------- one call

  lemma CopyPushKeeps(s: Store, s': Store, limit: nat, target: nat)
    requires s.Sound() && Does(s, CopyPush, s', limit, target)
    ensures s'.Sound() && s'.checkedOut == s.checkedOut
    ensures PoolSize(s') <= if s.free == [] then PoolSize(s) + 1 else PoolSize(s)
    ensures target + 1 <= limit && |s.queue| <= limit ==> |s'.queue| <= limit
  {
    if deadline, now :| Pushed(Taken(s), s', TakenFrame(s), deadline, now, limit, target) {
      CopiedPushIsSound(s, s', true, deadline, now, limit, target);
    } else {
      CopiedPushIsSound(s, s', false, 0, 0, limit, target);
    }
  }

  lemma HandPushKeeps(s: Store, frame: Frame, s': Store, limit: nat, target: nat)
    requires s.Sound() && Does(s, HandPush(frame), s', limit, target)
    ensures s'.Sound() && s'.checkedOut <= s.checkedOut
    ensures PoolSize(s') == PoolSize(s) + Foreign(s, HandPush(frame))
    ensures target + 1 <= limit && |s.queue| <= limit ==> |s'.queue| <= limit
  {
    var deadline, now :| Pushed(HandedIn(s, frame), s', frame, deadline, now, limit, target);
    HandedPushIsSound(s, s', frame, deadline, now, limit, target);
  }

  lemma LendKeeps(s: Store, s': Store, limit: nat, target: nat)
    requires s.Sound() && Does(s, Lend, s', limit, target)
    ensures s'.Sound() && s'.queue == s.queue
    ensures s' != s ==> |s'.checkedOut| == |s.checkedOut| + 1
    ensures PoolSize(s') == PoolSize(s) + if s' != s && s.free == [] then 1 else 0
  {
    HandedOutIsSound(s);
  }

  lemma TakeBackKeeps(s: Store, frame: Frame, s': Store, limit: nat, target: nat)
    requires s.Sound() && Does(s, TakeBack(frame), s', limit, target)
    ensures s'.Sound() && s'.queue == s.queue && s'.checkedOut <= s.checkedOut
    ensures PoolSize(s') == PoolSize(s) + Foreign(s, TakeBack(frame))
  {
    ReturnedIsSound(s, frame);
  }

  /** Every call keeps the store sound. */
  lemma DoesKeepsSound(s: Store, call: Call, s': Store, limit: nat, target: nat)
    requires s.Sound() && Does(s, call, s', limit, target)
    ensures s'.Sound()
  {
    match call
    case CopyPush => CopyPushKeeps(s, s', limit, target);
    case HandPush(frame) => HandPushKeeps(s, frame, s', limit, target);
    case Draw =>
    case Lend => LendKeeps(s, s', limit, target);
    case TakeBack(frame) => TakeBackKeeps(s, frame, s', limit, target);
    case Clean => FreshIsSound(s');
  }

  /** And every call keeps the bounds, whatever they are. */
  lemma DoesStaysInAllBounds(s: Store, call: Call, s': Store, limit: nat, target: nat)
    requires s.Sound() && Does(s, call, s', limit, target)
    ensures forall w: nat, foreign: nat ::
      InBounds(s, limit, target, w, foreign) && AtMostOut(s, call, s', w) ==>
        InBounds(s', limit, target, w, foreign + Foreign(s, call))
  {
    forall w: nat, foreign: nat | InBounds(s, limit, target, w, foreign) && AtMostOut(s, call, s', w)
      ensures InBounds(s', limit, target, w, foreign + Foreign(s, call))
    {
      DoesStaysInBounds(s, call, s', limit, target, w, foreign);
    }
  }

  lemma DoesStaysInBounds(s: Store, call: Call, s': Store, limit: nat, target: nat, w: nat, foreign: nat)
    requires s.Sound() && Does(s, call, s', limit, target)
    requires InBounds(s, limit, target, w, foreign) && AtMostOut(s, call, s', w)
    ensures InBounds(s', limit, target, w, foreign + Foreign(s, call))
  {
    match call
    case CopyPush => CopyPushKeeps(s, s', limit, target);
    case HandPush(frame) => HandPushKeeps(s, frame, s', limit, target);
    case Draw =>
    case Lend => LendKeeps(s, s', limit, target);
    case TakeBack(frame) => TakeBackKeeps(s, frame, s', limit, target);
    case Clean => FreshIsSound(s');
  }

  // ---------------------------------------------------------------- whole runs

  /** A run of a queue that was configured while it held no frames. */
  ghost predicate IsRun(stores: seq<Store>, calls: seq<Call>, limit: nat, target: nat) {
    && |stores| == |calls| + 1 && target + 1 <= limit
    && Fresh(stores[0]) && (forall f :: f in stores[0].checkedOut ==> f < stores[0].nextFrame)
    && forall i :: 0 <= i < |calls| ==> Does(stores[i], calls[i], stores[i + 1], limit, target)
  }

  /** In every run each frame is in one place, pushes equal frames shown, dropped and queued, and
      the frames shown are an increasing selection of the pushes. */
  lemma {:induction false} RunsAreSound(stores: seq<Store>, calls: seq<Call>, limit: nat, target: nat, i: nat)
    requires IsRun(stores, calls, limit, target) && i < |stores|
    ensures stores[i].Sound()
  {
    if i == 0 {
      FreshIsSound(stores[0]);
    } else {
      RunsAreSound(stores, calls, limit, target, i - 1);
      assert Does(stores[i - 1], calls[i - 1], stores[i - 1 + 1], limit, target);
      DoesKeepsSound(stores[i - 1], calls[i - 1], stores[i], limit, target);
    }
  }

  /** Never more than `w` frames are out, counting one that a copying push fills. */
  predicate NeverMoreOut(stores: seq<Store>, calls: seq<Call>, w: nat)
    requires |stores| == |calls| + 1
  {
    && |stores[0].checkedOut| <= w
    && forall i :: 0 <= i < |calls| ==> AtMostOut(stores[i], calls[i], stores[i + 1], w)
  }

  /** The foreign frames of the first `i` calls. */
  function ForeignFrames(stores: seq<Store>, calls: seq<Call>, i: nat): nat
    requires i <= |calls| <= |stores|
  {
    if i == 0 then 0 else ForeignFrames(stores, calls, i - 1) + Foreign(stores[i - 1], calls[i - 1])
  }

  lemma {:induction false} RunsStayInBounds(stores: seq<Store>, calls: seq<Call>, limit: nat, target: nat,
                                            w: nat, i: nat)
    requires IsRun(stores, calls, limit, target) && NeverMoreOut(stores, calls, w) && i < |stores|
    ensures InBounds(stores[i], limit, target, w, ForeignFrames(stores, calls, i))
  {
    if i == 0 {
      FreshIsSound(stores[0]);
    } else {
      RunsStayInBounds(stores, calls, limit, target, w, i - 1);
      RunsAreSound(stores, calls, limit, target, i - 1);
      assert Does(stores[i - 1], calls[i - 1], stores[i - 1 + 1], limit, target);
      assert AtMostOut(stores[i - 1], calls[i - 1], stores[i - 1 + 1], w);
      DoesStaysInBounds(stores[i - 1], calls[i - 1], stores[i], limit, target, w, ForeignFrames(stores, calls, i - 1));
    }
  }

  predicate InCopyMode(call: Call) {
    call.CopyPush? || call.Draw? || call.Clean?
  }

  /** Copy mode: when frames are only pushed by copying, drawn and cleaned up, the queue never has
      more than `limit` frames waiting and `limit + 2` frames in all. */
  lemma CopyModePool(stores: seq<Store>, calls: seq<Call>, limit: nat, target: nat, i: nat)
    requires IsRun(stores, calls, limit, target) && stores[0].checkedOut == {} && i < |stores|
    requires forall j :: 0 <= j < |calls| ==> InCopyMode(calls[j])
    ensures |stores[i].queue| <= limit && PoolSize(stores[i]) <= limit + 2
  {
    forall j | 0 <= j < |stores|
      ensures stores[j].checkedOut == {} && ForeignFrames(stores, calls, j) == 0
    {
      NothingLeaves(stores, calls, limit, target, j);
    }
    RunsStayInBounds(stores, calls, limit, target, 1, i);
  }

  lemma NothingLeaves(stores: seq<Store>, calls: seq<Call>, limit: nat, target: nat, i: nat)
    requires IsRun(stores, calls, limit, target) && stores[0].checkedOut == {} && i < |stores|
    requires forall j :: 0 <= j < |calls| ==> InCopyMode(calls[j])
    ensures stores[i].checkedOut == {} && ForeignFrames(stores, calls, i) == 0
  {
    forall j | 0 <= j < |calls| && stores[j].checkedOut == {}
      ensures stores[j + 1].checkedOut == {} && Foreign(stores[j], calls[j]) == 0
    {
      NothingLeavesBy(stores, calls, limit, target, j);
    }
    AllIn(stores, calls, i);
  }

  lemma {:induction false} AllIn(stores: seq<Store>, calls: seq<Call>, i: nat)
    requires |stores| == |calls| + 1 && stores[0].checkedOut == {} && i < |stores|
    requires forall j :: 0 <= j < |calls| && stores[j].checkedOut == {} ==>
      stores[j + 1].checkedOut == {} && Foreign(stores[j], calls[j]) == 0
    ensures stores[i].checkedOut == {} && ForeignFrames(stores, calls, i) == 0
  {
    if i > 0 {
      AllIn(stores, calls, i - 1);
      assert stores[i - 1 + 1].checkedOut == {};
    }
  }

  lemma NothingLeavesBy(stores: seq<Store>, calls: seq<Call>, limit: nat, target: nat, i: nat)
    requires IsRun(stores, calls, limit, target) && i < |calls|
    requires stores[i].checkedOut == {} && InCopyMode(calls[i])
    ensures stores[i + 1].checkedOut == {} && Foreign(stores[i], calls[i]) == 0
  {
    StepOfRun(stores, calls, limit, target, i);
    StaysIn(stores[i], calls[i], stores[i + 1], limit, target);
  }

  lemma StepOfRun(stores: seq<Store>, calls: seq<Call>, limit: nat, target: nat, i: nat)
    requires IsRun(stores, calls, limit, target) && i < |calls|
    ensures stores[i].Sound() && Does(stores[i], calls[i], stores[i + 1], limit, target)
  {
    RunsAreSound(stores, calls, limit, target, i);
  }

  lemma StaysIn(s: Store, call: Call, s': Store, limit: nat, target: nat)
    requires s.Sound() && s.checkedOut == {} && Does(s, call, s', limit, target)
    requires InCopyMode(call)
    ensures s'.checkedOut == {} && Foreign(s, call) == 0
  {
    if call.CopyPush? {
      CopyPushKeeps(s, s', limit, target);
    }
  }

  /** Transfer mode: when at most `w` frames are lent out at once and only those come back, there
      are never more than `limit + 1 + w` frames, in the queue and out of it. */
  lemma LendingPool(stores: seq<Store>, calls: seq<Call>, limit: nat, target: nat, w: nat, i: nat)
    requires IsRun(stores, calls, limit, target) && i < |stores|
    requires forall j :: 0 <= j < |stores| ==> |stores[j].checkedOut| <= w
    requires forall j :: 0 <= j < |calls| ==> !calls[j].CopyPush? && Foreign(stores[j], calls[j]) == 0
    ensures |stores[i].queue| <= limit && PoolSize(stores[i]) <= limit + 1 + w
  {
    RunsStayInBounds(stores, calls, limit, target, w, i);
    NoneForeign(stores, calls, i);
  }

  lemma {:induction false} NoneForeign(stores: seq<Store>, calls: seq<Call>, i: nat)
    requires i <= |calls| <= |stores| && forall j :: 0 <= j < |calls| ==> Foreign(stores[j], calls[j]) == 0
    ensures ForeignFrames(stores, calls, i) == 0
  {
    if i > 0 {
      NoneForeign(stores, calls, i - 1);
    }
  }
}
