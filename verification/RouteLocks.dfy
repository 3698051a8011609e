/**
 Locks of `RemoteAccessManager`: who owns which lock at each point of a run, and why
 no set of calls can end up waiting for each other.
 */
module RouteLocks {
  import opened RouteTable
  import opened RouteProtocol
  import opened Wrappers

  /** `l` is kept by a call at `pc`, or is the lock it is about to use. */
  predicate Uses(pc: Pc, l: Lock) {
    Keeps(pc) == Some(l) || Wants(pc) == Some(l)
  }

  /** A lock is owned by a call that kept it or is about to use it, and every kept lock is owned. */
  ghost predicate LockInv(s: State) {
    && (forall l :: l in s.locks ==> s.locks[l] in s.calls && Uses(s.calls[s.locks[l]], l))
    && (forall c :: c in s.calls && Keeps(s.calls[c]).Some? ==>
        Keeps(s.calls[c]).value in s.locks && s.locks[Keeps(s.calls[c]).value] == c)
  }

  /** The lock order: a call asks only for locks above everything it keeps. */
  lemma LockOrder(pc: Pc, l: Lock)
    requires Keeps(pc) == Some(l)
    ensures Wants(pc).Some? ==> Rank(l) < Rank(Wants(pc).value)
    ensures !pc.Waiting?
  {
  }

  /** Only call `c` moves; others at most leave the condition variable. */
  ghost predicate OthersStay(s: State, c: CallId, s': State) {
    forall d :: d != c ==>
      (d in s.calls <==> d in s'.calls) &&
      (d in s.calls ==>
        s'.calls[d] == s.calls[d] ||
        (s.calls[d].Waiting? && s'.calls[d] == Rejoin(s.calls[d].p, s.calls[d].target, s.calls[d].entry)))
  }

  /** A block ends by releasing exactly the locks that its successor does not keep. */
  ghost predicate ReleasesRest(s: State, c: CallId, s': State)
    requires c in s.calls
  {
    && (c in s'.calls && Keeps(s'.calls[c]).Some? ==> Uses(s.calls[c], Keeps(s'.calls[c]).value))
    && (forall l :: l in s'.locks <==>
        l in s.locks && (Uses(s.calls[c], l) ==> c in s'.calls && Keeps(s'.calls[c]) == Some(l)))
    && (forall l :: l in s'.locks ==> s'.locks[l] == s.locks[l])
  }

  ghost predicate Fires(reg: Registry, s: State, c: CallId, choice: Choice) {
    c in s.calls && Ready(s, c) && Legal(reg, s, s.calls[c], choice) && Sound(reg, s, s.calls[c])
  }

  ghost predicate Shaped(s: State, c: CallId, s': State)
    requires c in s.calls
  {
    OthersStay(s, c, s') && ReleasesRest(s, c, s')
  }

  lemma EnterShape(reg: Registry, s: State, c: CallId, choice: Choice)
    requires Fires(reg, s, c, choice) && (s.calls[c].ActFind? || s.calls[c].ActEnter? || s.calls[c].Rejoin?)
    ensures Shaped(s, c, ExecActivate(reg, s, c, choice))
  {
  }

  lemma AskShape(reg: Registry, s: State, c: CallId, choice: Choice)
    requires Fires(reg, s, c, choice) && (s.calls[c].ActRetire? || s.calls[c].ActAsk? || s.calls[c].ActUndo?)
    ensures Shaped(s, c, ExecActivate(reg, s, c, choice))
  {
  }

  lemma CommitShape(reg: Registry, s: State, c: CallId, choice: Choice)
    requires Fires(reg, s, c, choice) && (s.calls[c].ActCommit?)
    ensures Shaped(s, c, ExecActivate(reg, s, c, choice))
  {
  }

  lemma ReleaseShape(reg: Registry, s: State, c: CallId, choice: Choice)
    requires Fires(reg, s, c, choice) && (s.calls[c].DeaEnter? || s.calls[c].DeaTell?)
    ensures Shaped(s, c, ExecUse(reg, s, c, choice))
  {
  }

  lemma PrepareShape(reg: Registry, s: State, c: CallId, choice: Choice)
    requires Fires(reg, s, c, choice) && (s.calls[c].PreEnter? || s.calls[c].PreAsk? || s.calls[c].PreCheck?)
    ensures Shaped(s, c, ExecUse(reg, s, c, choice))
  {
  }

  /** The stop section, whatever it does to the table, when a provider has to be stopped. */
  lemma StopShape(s: State, c: CallId, t: Table, changed: set<EntryRef>, sel: Option<ProviderId>, halted: ProviderId)
    requires c in s.calls && Ready(s, c) && s.calls[c] == SelStop(sel)
    ensures Shaped(s, c, Goto(Notify(Unlock(s, {StateMutex}), t, changed), c, SelHalt(sel, halted)))
  {
    var s1 := Notify(Unlock(s, {StateMutex}), t, changed);
    assert OthersStay(s, c, s1) && s1.locks == s.locks - {StateMutex};
  }

  /** The same section when no provider was active. */
  lemma AfterStopShape(s: State, c: CallId, t: Table, changed: set<EntryRef>, sel: Option<ProviderId>)
    requires c in s.calls && Ready(s, c) && s.calls[c] == SelStop(sel)
    ensures Shaped(s, c, AfterStop(Notify(Unlock(s, {StateMutex}), t, changed), c, sel))
  {
    var s1 := Notify(Unlock(s, {StateMutex}), t, changed);
    assert OthersStay(s, c, s1) && s1.locks == s.locks - {StateMutex};
    if sel == None || sel.value == "" {
      EndShape(s, c, s1);
    } else {
      GoOnShape(s, c, s1, sel.value);
    }
  }

  /** The selection goes on. */
  lemma GoOnShape(s: State, c: CallId, s1: State, id: ProviderId)
    requires c in s.calls && s.calls[c].SelStop? && OthersStay(s, c, s1) && s1.locks == s.locks - {StateMutex}
    ensures Shaped(s, c, Goto(s1, c, SelFind(id)))
  {
  }

  /** The selection ends there. */
  lemma EndShape(s: State, c: CallId, s1: State)
    requires c in s.calls && s.calls[c].SelStop? && OthersStay(s, c, s1) && s1.locks == s.locks - {StateMutex}
    ensures Shaped(s, c, Return(Unlock(s1, {Lifecycle}), c, false))
  {
  }

  lemma SelectShape(reg: Registry, s: State, c: CallId, choice: Choice)
    requires Fires(reg, s, c, choice) && (s.calls[c].SelEnter? || s.calls[c].SelStop? || s.calls[c].SelHalt?)
    ensures Shaped(s, c, ExecSelect(reg, s, c, choice))
  {
    if s.calls[c].SelStop? {
      var changed := Refs(s.table, RoutesOf(s.table, s.table.active));
      StopShape(s, c, Stop(s.table), changed, s.calls[c].choice, s.table.active);
      AfterStopShape(s, c, Stop(s.table), changed, s.calls[c].choice);
    }
  }

  lemma FindShape(reg: Registry, s: State, c: CallId, choice: Choice)
    requires Fires(reg, s, c, choice) && (s.calls[c].SelFind?)
    ensures Shaped(s, c, ExecSelect(reg, s, c, choice))
  {
  }

  lemma StartShape(reg: Registry, s: State, c: CallId, choice: Choice)
    requires Fires(reg, s, c, choice) && (s.calls[c].SelStart? || s.calls[c].SelPublish?)
    ensures Shaped(s, c, ExecSelect(reg, s, c, choice))
  {
  }

  lemma BeginRunShape(reg: Registry, s: State, c: CallId, choice: Choice)
    requires Fires(reg, s, c, choice) && (s.calls[c].RunEnter?)
    ensures Shaped(s, c, ExecOther(reg, s, c, choice))
  {
  }

  lemma TellShape(reg: Registry, s: State, c: CallId, choice: Choice)
    requires Fires(reg, s, c, choice) && (s.calls[c].RunFind?)
    ensures Shaped(s, c, ExecOther(reg, s, c, choice))
  {
  }

  lemma ToldShape(reg: Registry, s: State, c: CallId, choice: Choice)
    requires Fires(reg, s, c, choice) && (s.calls[c].RunTell? || s.calls[c].SetPublish?)
    ensures Shaped(s, c, ExecOther(reg, s, c, choice))
  {
  }

  lemma VisitShape(reg: Registry, s: State, c: CallId, choice: Choice)
    requires Fires(reg, s, c, choice) && (s.calls[c].SurveyVisit?)
    ensures Shaped(s, c, ExecOther(reg, s, c, choice))
  {
  }

  lemma BeginSetShape(reg: Registry, s: State, c: CallId, choice: Choice)
    requires Fires(reg, s, c, choice) && s.calls[c].SetEnter?
    ensures Shaped(s, c, ExecOther(reg, s, c, choice))
  {
  }

  lemma SurveyShape(reg: Registry, s: State, c: CallId, choice: Choice)
    requires Fires(reg, s, c, choice) && s.calls[c].SurveyEnter?
    ensures Shaped(s, c, ExecOther(reg, s, c, choice))
  {
  }

  lemma RunShape(reg: Registry, s: State, c: CallId, choice: Choice)
    requires Fires(reg, s, c, choice)
    ensures Shaped(s, c, ExecRun(reg, s, c, choice))
  {
    var pc := s.calls[c];
    if pc.ActFind? || pc.ActEnter? || pc.Rejoin? { EnterShape(reg, s, c, choice); }
    else if pc.ActCommit? { CommitShape(reg, s, c, choice); }
    else if IsActivate(pc) { AskShape(reg, s, c, choice); }
    else if pc.DeaEnter? || pc.DeaTell? { ReleaseShape(reg, s, c, choice); }
    else if IsUse(pc) { PrepareShape(reg, s, c, choice); }
    else if pc.SelEnter? || pc.SelStop? || pc.SelHalt? { SelectShape(reg, s, c, choice); }
    else if pc.SelFind? { FindShape(reg, s, c, choice); }
    else if IsSelect(pc) { StartShape(reg, s, c, choice); }
    else if pc.RunEnter? { BeginRunShape(reg, s, c, choice); }
    else if pc.RunFind? { TellShape(reg, s, c, choice); }
    else if pc.RunTell? || pc.SetPublish? { ToldShape(reg, s, c, choice); }
    else if pc.SurveyVisit? { VisitShape(reg, s, c, choice); }
    else if pc.SetEnter? { BeginSetShape(reg, s, c, choice); }
    else { SurveyShape(reg, s, c, choice); }
  }

  lemma ShapeKeepsLocks(s: State, c: CallId, s': State)
    requires LockInv(s) && c in s.calls && Ready(s, c)
    requires Shaped(s, c, s')
    ensures LockInv(s')
  {
    forall l | l in s'.locks
      ensures s'.locks[l] in s'.calls && Uses(s'.calls[s'.locks[l]], l)
    {
      assert l in s.locks;
    }
    forall d | d in s'.calls && Keeps(s'.calls[d]).Some?
      ensures Keeps(s'.calls[d]).value in s'.locks && s'.locks[Keeps(s'.calls[d]).value] == d
    {
      var l := Keeps(s'.calls[d]).value;
      if d == c {
        assert Uses(s.calls[c], l);
      } else {
        assert s.locks[l] == d;
        assert !Uses(s.calls[c], l);
      }
    }
  }

  lemma LocksKept(reg: Registry, s: State, step: Step, s': State)
    requires LockInv(s) && Next(reg, s, step, s')
    ensures LockInv(s')
  {
    match step
    case Begin(c, first) =>
    case Acquire(c) =>
    case WakeSpuriously(c) =>
    case Run(c, choice) =>
      RunShape(reg, s, c, choice);
      ShapeKeepsLocks(s, c, s');
  }
}
