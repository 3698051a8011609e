/**
 What the result of selecting a provider means, in every interleaving, and of starting one.
 */
module RouteSelect {
  import opened RouteTable
  import opened RouteProtocol
  import opened RouteLocks
  import opened RouteHistory
  import RouteTheorems
  import opened Wrappers

  /** Call `c` runs the block at `pc` in step `i`. */
  ghost predicate RunsAt(r: Trace, i: nat, c: CallId, pc: Pc) {
    && i < |r.steps| && i < |r.states| && r.steps[i].Run? && r.steps[i].c == c
    && c in r.states[i].calls && r.states[i].calls[c] == pc
  }

  /** What the call has told the provider that was active when it ran its stop section, in step `i`. */
  ghost function StoppedBy(reg: Registry, r: Trace, i: nat): seq<Event>
    requires i < |r.states|
  {
    var active := r.states[i].table.active;
    if active in reg then [Stopped(active)] else []
  }

  /** The provider that is to be started, if there is one. */
  ghost predicate Startable(reg: Registry, choice: Option<ProviderId>) {
    choice.Some? && choice.value != "" && choice.value in reg
  }

  // ---------------------------------------------------------------- a call under way

  ghost predicate Begun(s: State, c: CallId, choice: Option<ProviderId>) {
    && c in s.calls && c in s.history && s.history[c] == []
    && (s.calls[c] == SelEnter(choice) || s.calls[c] == SelStop(choice))
  }

  /** The stop section is behind it. */
  ghost predicate Emptied(reg: Registry, r: Trace, s: State, c: CallId, choice: Option<ProviderId>, i: nat) {
    && RunsAt(r, i, c, SelStop(choice)) && c in s.calls && c in s.history
    && (|| (s.calls[c] == SelHalt(choice, r.states[i].table.active)
            && r.states[i].table.active in reg && s.history[c] == [])
        || (choice.Some? && choice.value != "" && s.calls[c] == SelFind(choice.value)
            && s.history[c] == StoppedBy(reg, r, i))
        || (Startable(reg, choice) && s.calls[c] == SelStart(choice.value) && s.history[c] == StoppedBy(reg, r, i))
        || (Startable(reg, choice) && s.calls[c] == SelPublish(choice.value)
            && s.history[c] == StoppedBy(reg, r, i) + [Started(choice.value, true)]))
  }

  /** It has returned without starting a provider, or with one that said no. */
  ghost predicate Refused(reg: Registry, r: Trace, s: State, c: CallId, choice: Option<ProviderId>, i: nat) {
    && RunsAt(r, i, c, SelStop(choice)) && c !in s.calls && c in s.history
    && s.history[c] == StoppedBy(reg, r, i)
         + (if Startable(reg, choice) then [Started(choice.value, false)] else []) + [Returned(false)]
  }

  /** It has returned with the provider started and, in step `k`, made the active one. */
  ghost predicate Selected(reg: Registry, r: Trace, s: State, c: CallId, choice: Option<ProviderId>, i: nat, k: nat) {
    && RunsAt(r, i, c, SelStop(choice)) && c !in s.calls && c in s.history && Startable(reg, choice)
    && s.history[c] == StoppedBy(reg, r, i) + [Started(choice.value, true), Returned(true)]
    && i < k && RunsAt(r, k, c, SelPublish(choice.value)) && k + 1 < |r.states|
    && r.states[k + 1].table.active == choice.value
    && r.states[k + 1].table.generation == r.states[k].table.generation + 1
    && r.states[k + 1].table.routes == r.states[k].table.routes
  }

  ghost predicate OnItsWay(reg: Registry, r: Trace, n: nat, c: CallId, choice: Option<ProviderId>)
    requires n < |r.states|
  {
    || Begun(r.states[n], c, choice)
    || (exists i: nat :: i < n && Emptied(reg, r, r.states[n], c, choice, i))
    || Through(reg, r, n, c, choice)
  }

  ghost predicate Through(reg: Registry, r: Trace, n: nat, c: CallId, choice: Option<ProviderId>)
    requires n < |r.states|
  {
    || (exists i: nat :: i < n && Refused(reg, r, r.states[n], c, choice, i))
    || (exists i: nat, k: nat :: k < n && Selected(reg, r, r.states[n], c, choice, i, k))
  }

  // ---------------------------------------------------------------- its steps

  /** The end of the stop section, when no provider was running ... */
  lemma StopStep(reg: Registry, s: State, c: CallId, choice: Choice)
    requires Fires(reg, s, c, choice) && s.calls[c].SelStop? && c in s.history
    ensures
      var pc, s' := s.calls[c], ExecSelect(reg, s, c, choice);
      && c in s'.history
      && if s.table.active in reg then
           c in s'.calls && s'.calls[c] == SelHalt(pc.choice, s.table.active) && s'.history[c] == s.history[c]
         else GoesOnTo(s', c, pc.choice, s.history[c])
  {
  }

  /** ... and when one was. */
  lemma HaltStep(reg: Registry, s: State, c: CallId, choice: Choice)
    requires Fires(reg, s, c, choice) && s.calls[c].SelHalt? && c in s.history
    ensures
      var pc, s' := s.calls[c], ExecSelect(reg, s, c, choice);
      GoesOnTo(s', c, pc.choice, s.history[c] + [Stopped(pc.halted)])
  {
  }

  /** On to the chosen provider, if there is one. */
  ghost predicate GoesOnTo(s: State, c: CallId, choice: Option<ProviderId>, h: seq<Event>) {
    && c in s.history
    && if choice.Some? && choice.value != ""
       then c in s.calls && s.calls[c] == SelFind(choice.value) && s.history[c] == h
       else c !in s.calls && s.history[c] == h + [Returned(false)]
  }

  lemma FindStep(reg: Registry, s: State, c: CallId, choice: Choice)
    requires Fires(reg, s, c, choice) && s.calls[c].SelFind? && c in s.history
    ensures
      var pc, s', h := s.calls[c], ExecSelect(reg, s, c, choice), s.history[c];
      && c in s'.history
      && if pc.id in reg then c in s'.calls && s'.calls[c] == SelStart(pc.id) && s'.history[c] == h
         else c !in s'.calls && s'.history[c] == h + [Returned(false)]
  {
  }

  lemma StartStep(reg: Registry, s: State, c: CallId, choice: Choice)
    requires Fires(reg, s, c, choice) && s.calls[c].SelStart? && c in s.history
    ensures
      var pc, s', h := s.calls[c], ExecSelect(reg, s, c, choice), s.history[c];
      && c in s'.history
      && if choice.answer
         then c in s'.calls && s'.calls[c] == SelPublish(pc.id) && s'.history[c] == h + [Started(pc.id, true)]
         else c !in s'.calls && s'.history[c] == h + [Started(pc.id, false)] + [Returned(false)]
  {
  }

  lemma PublishStep(reg: Registry, s: State, c: CallId, choice: Choice)
    requires Fires(reg, s, c, choice) && s.calls[c].SelPublish? && c in s.history
    ensures
      var pc, s' := s.calls[c], ExecSelect(reg, s, c, choice);
      && c !in s'.calls && c in s'.history && s'.history[c] == s.history[c] + [Returned(true)]
      && s'.table.active == pc.id && s'.table.generation == s.table.generation + 1
      && s'.table.routes == s.table.routes
  {
  }

  // ---------------------------------------------------------------- its way

  lemma BegunOnward(reg: Registry, r: Trace, n: nat, c: CallId, choice: Option<ProviderId>)
    requires IsRun(reg, r) && n < |r.steps| && Begun(r.states[n], c, choice)
    requires r.steps[n].Run? && r.steps[n].c == c
    ensures OnItsWay(reg, r, n + 1, c, choice)
  {
    var s, s' := r.states[n], r.states[n + 1];
    assert Next(reg, s, r.steps[n], s');
    if s.calls[c].SelEnter? {
      assert Begun(s', c, choice);
    } else {
      StopStep(reg, s, c, r.steps[n].choice);
      AfterStopping(reg, r, s', c, choice, n);
    }
  }

  lemma AfterStopping(reg: Registry, r: Trace, s: State, c: CallId, choice: Option<ProviderId>, i: nat)
    requires RunsAt(r, i, c, SelStop(choice)) && c in s.history
    requires
      || GoesOnTo(s, c, choice, StoppedBy(reg, r, i))
      || (r.states[i].table.active in reg && c in s.calls && s.history[c] == []
          && s.calls[c] == SelHalt(choice, r.states[i].table.active))
    ensures Emptied(reg, r, s, c, choice, i) || Refused(reg, r, s, c, choice, i)
  {
    assert StoppedBy(reg, r, i) + [] == StoppedBy(reg, r, i);
  }

  lemma HaltOnward(reg: Registry, r: Trace, n: nat, c: CallId, choice: Option<ProviderId>, i: nat)
    requires IsRun(reg, r) && n < |r.steps| && Emptied(reg, r, r.states[n], c, choice, i)
    requires r.steps[n].Run? && r.steps[n].c == c && r.states[n].calls[c].SelHalt?
    ensures Emptied(reg, r, r.states[n + 1], c, choice, i) || Refused(reg, r, r.states[n + 1], c, choice, i)
  {
    assert Next(reg, r.states[n], r.steps[n], r.states[n + 1]);
    HaltStep(reg, r.states[n], c, r.steps[n].choice);
    assert [] + [Stopped(r.states[i].table.active)] == StoppedBy(reg, r, i);
    AfterStopping(reg, r, r.states[n + 1], c, choice, i);
  }

  lemma StartOnward(reg: Registry, r: Trace, n: nat, c: CallId, choice: Option<ProviderId>, i: nat)
    requires IsRun(reg, r) && n < |r.steps| && Emptied(reg, r, r.states[n], c, choice, i)
    requires r.steps[n].Run? && r.steps[n].c == c && (r.states[n].calls[c].SelFind? || r.states[n].calls[c].SelStart?)
    ensures Emptied(reg, r, r.states[n + 1], c, choice, i) || Refused(reg, r, r.states[n + 1], c, choice, i)
  {
    assert Next(reg, r.states[n], r.steps[n], r.states[n + 1]);
    if r.states[n].calls[c].SelFind? {
      FindStep(reg, r.states[n], c, r.steps[n].choice);
      assert StoppedBy(reg, r, i) + [] == StoppedBy(reg, r, i);
    } else {
      StartStep(reg, r.states[n], c, r.steps[n].choice);
    }
  }

  lemma PublishOnward(reg: Registry, r: Trace, n: nat, c: CallId, choice: Option<ProviderId>, i: nat)
    requires IsRun(reg, r) && n < |r.steps| && i < n && Emptied(reg, r, r.states[n], c, choice, i)
    requires r.steps[n].Run? && r.steps[n].c == c && r.states[n].calls[c].SelPublish?
    ensures Selected(reg, r, r.states[n + 1], c, choice, i, n)
  {
    assert Next(reg, r.states[n], r.steps[n], r.states[n + 1]);
    PublishStep(reg, r.states[n], c, r.steps[n].choice);
    var h := StoppedBy(reg, r, i);
    assert h + [Started(choice.value, true)] + [Returned(true)] == h + [Started(choice.value, true), Returned(true)];
  }

  lemma EmptiedOnward(reg: Registry, r: Trace, n: nat, c: CallId, choice: Option<ProviderId>, i: nat)
    requires IsRun(reg, r) && n < |r.steps| && i < n && Emptied(reg, r, r.states[n], c, choice, i)
    requires r.steps[n].Run? && r.steps[n].c == c
    ensures OnItsWay(reg, r, n + 1, c, choice)
  {
    if r.states[n].calls[c].SelHalt? {
      HaltOnward(reg, r, n, c, choice, i);
    } else if r.states[n].calls[c].SelPublish? {
      PublishOnward(reg, r, n, c, choice, i);
    } else {
      StartOnward(reg, r, n, c, choice, i);
    }
  }

  lemma SameIsOnward(reg: Registry, r: Trace, n: nat, c: CallId, choice: Option<ProviderId>)
    requires n + 1 < |r.states| && OnItsWay(reg, r, n, c, choice) && Same(r.states[n], r.states[n + 1], c)
    ensures OnItsWay(reg, r, n + 1, c, choice)
  {
    var s, s' := r.states[n], r.states[n + 1];
    if i: nat :| i < n && Emptied(reg, r, s, c, choice, i) {
      assert Emptied(reg, r, s', c, choice, i);
    } else if !Begun(s, c, choice) {
      SameIsThrough(reg, r, n, c, choice);
    }
  }

  lemma SameIsThrough(reg: Registry, r: Trace, n: nat, c: CallId, choice: Option<ProviderId>)
    requires n + 1 < |r.states| && Through(reg, r, n, c, choice) && Same(r.states[n], r.states[n + 1], c)
    ensures Through(reg, r, n + 1, c, choice)
  {
    var s, s' := r.states[n], r.states[n + 1];
    if i: nat :| i < n && Refused(reg, r, s, c, choice, i) {
      assert Refused(reg, r, s', c, choice, i);
    } else if i: nat, k: nat :| k < n && Selected(reg, r, s, c, choice, i, k) {
      assert Selected(reg, r, s', c, choice, i, k);
    }
  }

  lemma StepOnward(reg: Registry, r: Trace, n: nat, c: CallId, choice: Option<ProviderId>)
    requires IsRun(reg, r) && n < |r.steps| && OnItsWay(reg, r, n, c, choice)
    ensures OnItsWay(reg, r, n + 1, c, choice)
  {
    assert Next(reg, r.states[n], r.steps[n], r.states[n + 1]);
    if !(r.steps[n].Run? && r.steps[n].c == c) {
      RouteTheorems.LocksAlongRun(reg, r, n);
      OtherStep(reg, r.states[n], r.steps[n], r.states[n + 1], c);
      SameIsOnward(reg, r, n, c, choice);
    } else if Begun(r.states[n], c, choice) {
      BegunOnward(reg, r, n, c, choice);
    } else if i: nat :| i < n && Emptied(reg, r, r.states[n], c, choice, i) {
      EmptiedOnward(reg, r, n, c, choice, i);
    }
  }

  // ---------------------------------------------------------------- the verdicts

  lemma {:induction false} SelectionOnItsWay(reg: Registry, r: Trace, b: nat, n: nat, c: CallId,
                                             choice: Option<ProviderId>)
    requires IsRun(reg, r) && b < n < |r.states| && r.steps[b] == Begin(c, SelEnter(choice))
    ensures OnItsWay(reg, r, n, c, choice)
    decreases n
  {
    if n == b + 1 {
      assert Next(reg, r.states[b], r.steps[b], r.states[b + 1]);
      assert Begun(r.states[n], c, choice);
    } else {
      SelectionOnItsWay(reg, r, b, n - 1, c, choice);
      StepOnward(reg, r, n - 1, c, choice);
    }
  }

  /** A finished selection has told the provider that was active to stop, if it was registered, and
      then the chosen one to start, if it is; it returned true exactly if that one said yes, and
      has made it the active one, in a new generation. Without a choice it is a stop. */
  lemma SelectVerdict(reg: Registry, r: Trace, b: nat, n: nat, c: CallId, choice: Option<ProviderId>)
    requires IsRun(reg, r) && b < n < |r.states| && r.steps[b] == Begin(c, SelEnter(choice))
    requires c !in r.states[n].calls
    ensures
      || (exists i: nat :: i < n && Refused(reg, r, r.states[n], c, choice, i))
      || (exists i: nat, k: nat :: k < n && Selected(reg, r, r.states[n], c, choice, i, k))
  {
    SelectionOnItsWay(reg, r, b, n, c, choice);
    assert Through(reg, r, n, c, choice);
  }

  /** `startProvider` and `stopProvider`: a registered provider is told, and a start returns what it
      says. */
  lemma TellVerdict(reg: Registry, r: Trace, i: nat, c: CallId, pc: Pc)
    requires IsRun(reg, r) && RunsAt(r, i, c, pc) && (pc.RunFind? || pc.RunTell?)
    ensures
      var s, s', choice := r.states[i], r.states[i + 1], r.steps[i].choice;
      && s'.table == s.table && c in s.history && c in s'.history
      && if pc.RunFind? then
           if pc.id in reg then c in s'.calls && s'.calls[c] == RunTell(pc.id, pc.starting)
           else c !in s'.calls && s'.history[c] == s.history[c] + [Returned(false)]
         else
           && c !in s'.calls
           && s'.history[c] == s.history[c] + (if pc.starting
                then [Started(pc.id, choice.answer), Returned(choice.answer)] else [Stopped(pc.id), Returned(false)])
  {
    assert Next(reg, r.states[i], r.steps[i], r.states[i + 1]);
    RouteTheorems.LocksAlongRun(reg, r, i);
    TellBlock(reg, r.states[i], c, r.steps[i].choice);
  }

  lemma TellBlock(reg: Registry, s: State, c: CallId, choice: Choice)
    requires Fires(reg, s, c, choice) && (s.calls[c].RunFind? || s.calls[c].RunTell?) && c in s.history
    ensures
      var s', pc, h := ExecOther(reg, s, c, choice), s.calls[c], s.history[c];
      && s'.table == s.table && c in s'.history
      && if pc.RunFind? then
           if pc.id in reg then c in s'.calls && s'.calls[c] == RunTell(pc.id, pc.starting)
           else c !in s'.calls && s'.history[c] == h + [Returned(false)]
         else
           && c !in s'.calls
           && s'.history[c] == h + (if pc.starting
                then [Started(pc.id, choice.answer), Returned(choice.answer)] else [Stopped(pc.id), Returned(false)])
  {
    var pc := s.calls[c];
    var event := if pc.RunTell? && pc.starting then Started(pc.id, choice.answer) else Stopped(pc.id);
    assert [event] + [Returned(pc.starting && choice.answer)] == [event, Returned(pc.starting && choice.answer)];
  }
}
