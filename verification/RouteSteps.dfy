/**
 Every step of the protocol, `setActiveProviderId` included, keeps the invariant about entries and
 their creators.
 */
module RouteSteps {
  import opened RouteTable
  import opened RouteProtocol
  import opened RouteLocks
  import opened RouteInvariants
  import opened Wrappers

  /** A block that leaves the table alone. */
  lemma QuietKeeps(reg: Registry, s: State, c: CallId, s': State)
    requires InvBase(reg, s) && c in s.calls && LockInv(s') && s'.table == s.table
    requires forall d :: d != c ==> (d in s'.calls <==> d in s.calls) && (d in s.calls ==> s'.calls[d] == s.calls[d])
    requires IsCreator(s.calls[c]) ==> c in s'.calls
    requires c in s'.calls ==>
      CallBase(reg, s.table, s'.calls[c]) && IsCreator(s'.calls[c]) == IsCreator(s.calls[c])
      && (IsCreator(s.calls[c]) ==> s'.calls[c].entry == s.calls[c].entry)
    ensures InvBase(reg, s')
  {
    MovedKeeps(reg, s, c, s', {}, {});
  }

  /** The end of the wait loop. */
  lemma AwaitKeeps(reg: Registry, s: State, c: CallId, p: ProviderId, target: RouteTarget, e: EntryRef)
    requires InvBase(reg, s) && c in s.calls && e < |s.table.entries|
    requires s.calls[c].ActEnter? || s.calls[c].Rejoin?
    requires LockInv(Await(s, c, p, target, e))
    ensures InvBase(reg, Await(s, c, p, target, e))
  {
    var s' := Await(s, c, p, target, e);
    if s.table.entries[e].state == Activating {
      MovedKeeps(reg, s, c, s', {}, {});
    } else {
      JoinKeepsBase(reg, s.table, e);
      MovedKeeps(reg, s, c, s', {}, {});
    }
  }

  lemma EnterKeeps(reg: Registry, s: State, c: CallId, choice: Choice)
    requires BaseAt(reg, s, c, choice) && (s.calls[c].ActEnter?)
    requires LockInv(ExecActivate(reg, s, c, choice))
    ensures InvBase(reg, ExecActivate(reg, s, c, choice))
  {
    var s' := ExecActivate(reg, s, c, choice);
    var p, target, t := s.calls[c].p, s.calls[c].target, s.table;
    if t.active != p {
      QuietKeeps(reg, s, c, s');
    } else if KeyOf(p, target) in t.routes {
      AwaitKeeps(reg, s, c, p, target, t.routes[KeyOf(p, target)]);
    } else {
      CreateStepKeeps(reg, s, c, choice);
    }
  }

  lemma CreateStepKeeps(reg: Registry, s: State, c: CallId, choice: Choice)
    requires BaseAt(reg, s, c, choice) && (s.calls[c].ActEnter?)
    requires s.table.active == s.calls[c].p && KeyOf(s.calls[c].p, s.calls[c].target) !in s.table.routes
    requires LockInv(ExecActivate(reg, s, c, choice))
    ensures InvBase(reg, ExecActivate(reg, s, c, choice))
  {
    var p, target, t := s.calls[c].p, s.calls[c].target, s.table;
    CreateKeepsBase(reg, t, p, target);
    CreateMoves(reg, s, c, choice);
    MovedKeeps(reg, s, c, ExecActivate(reg, s, c, choice), Refs(t, Replaced(t, p, target, reg[p])), {});
  }

  lemma CreateMoves(reg: Registry, s: State, c: CallId, choice: Choice)
    requires Fires(reg, s, c, choice) && s.calls[c].ActEnter?
    requires s.table.active == s.calls[c].p && KeyOf(s.calls[c].p, s.calls[c].target) !in s.table.routes
    ensures
      var p, target, t, s' := s.calls[c].p, s.calls[c].target, s.table, ExecActivate(reg, s, c, choice);
      && s'.table == Create(t, p, target, reg[p]) && c in s'.calls
      && s'.calls[c] == ActRetire(p, target, |t.entries|, ActiveTargets(t, Replaced(t, p, target, reg[p])))
      && Moved(s, c, s', Refs(t, Replaced(t, p, target, reg[p]))) && OwnsItsEntry(s, c, s')
  {
  }

  lemma CommitStepKeeps(reg: Registry, s: State, c: CallId, choice: Choice)
    requires BaseAt(reg, s, c, choice) && (s.calls[c].ActCommit?)
    requires LockInv(ExecActivate(reg, s, c, choice))
    ensures InvBase(reg, ExecActivate(reg, s, c, choice))
  {
    var pc := s.calls[c];
    CommitKeepsBase(reg, s.table, pc.p, pc.target, pc.entry, pc.activated);
    CommitMoves(reg, s, c, choice);
    DecidedKeeps(reg, s, c, ExecActivate(reg, s, c, choice));
  }

  /** The commit section, whatever it decides about the entry. */
  lemma DecidedKeeps(reg: Registry, s: State, c: CallId, s': State)
    requires InvBase(reg, s) && c in s.calls && s.calls[c].ActCommit? && LockInv(s') && TableBase(reg, s'.table)
    requires Respects(s.table, s'.table, {s.calls[c].entry}, {s.calls[c].entry})
    requires |s'.table.entries| == |s.table.entries| && s.calls[c].entry < |s.table.entries|
    requires s'.table.entries[s.calls[c].entry].state != Activating
    requires Moved(s, c, s', {s.calls[c].entry})
    requires c in s'.calls ==> s'.calls[c] == ActUndo(s.calls[c].p, s.calls[c].target)
    ensures InvBase(reg, s')
  {
    assert CallBase(reg, s.table, s.calls[c]);
    MovedKeeps(reg, s, c, s', {s.calls[c].entry}, {s.calls[c].entry});
  }

  lemma CommitMoves(reg: Registry, s: State, c: CallId, choice: Choice)
    requires Fires(reg, s, c, choice) && s.calls[c].ActCommit?
    ensures
      var pc, s' := s.calls[c], ExecActivate(reg, s, c, choice);
      && s'.table == Commit(s.table, pc.p, KeyOf(pc.p, pc.target), pc.entry, pc.activated)
      && (c in s'.calls ==> s'.calls[c] == ActUndo(pc.p, pc.target)) && Moved(s, c, s', {pc.entry})
  {
  }

  lemma RejoinKeeps(reg: Registry, s: State, c: CallId, choice: Choice)
    requires BaseAt(reg, s, c, choice) && (s.calls[c].ActFind? || s.calls[c].Rejoin?)
    requires LockInv(ExecActivate(reg, s, c, choice))
    ensures InvBase(reg, ExecActivate(reg, s, c, choice))
  {
    if s.calls[c].Rejoin? {
      AwaitKeeps(reg, s, c, s.calls[c].p, s.calls[c].target, s.calls[c].entry);
    } else {
      QuietKeeps(reg, s, c, ExecActivate(reg, s, c, choice));
    }
  }

  lemma AskKeeps(reg: Registry, s: State, c: CallId, choice: Choice)
    requires BaseAt(reg, s, c, choice) && (s.calls[c].ActRetire? || s.calls[c].ActAsk? || s.calls[c].ActUndo?)
    requires LockInv(ExecActivate(reg, s, c, choice))
    ensures InvBase(reg, ExecActivate(reg, s, c, choice))
  {
    QuietKeeps(reg, s, c, ExecActivate(reg, s, c, choice));
  }

  /** The section of `deactivateRoute`, for any table that respects the other calls. */
  lemma ReleasedKeeps(reg: Registry, s: State, c: CallId, t: Table, next: Option<Pc>, s': State)
    requires InvBase(reg, s) && c in s.calls && s.calls[c].DeaEnter? && LockInv(s')
    requires TableBase(reg, t) && Respects(s.table, t, {}, {})
    requires |t.entries| == |s.table.entries|
    requires next.Some? ==> next.value.DeaTell? && next.value.p in reg
    requires
      var s1 := Unlock(s, {StateMutex}).(table := t);
      s' == if next.Some? then Goto(s1, c, next.value) else Return(s1, c, true)
    ensures InvBase(reg, s')
  {
    MovedKeeps(reg, s, c, s', {}, {});
  }

  lemma ReleaseStepKeeps(reg: Registry, s: State, c: CallId, choice: Choice)
    requires BaseAt(reg, s, c, choice) && s.calls[c].DeaEnter?
    requires LockInv(ExecUse(reg, s, c, choice))
    ensures InvBase(reg, ExecUse(reg, s, c, choice))
  {
    var p := s.calls[c].p;
    ReleaseKeepsBase(reg, s.table, choice.found);
    var verdict := ReleaseVerdict(s.table, choice.found);
    var next := if verdict.Erased? && s.table.active == p && p in reg then Some(DeaTell(p, verdict.target)) else None;
    ReleasedKeeps(reg, s, c, Release(s.table, choice.found), next, ExecUse(reg, s, c, choice));
  }

  lemma DropKeeps(reg: Registry, s: State, c: CallId, choice: Choice)
    requires BaseAt(reg, s, c, choice) && (s.calls[c].DeaTell?)
    requires LockInv(ExecUse(reg, s, c, choice))
    ensures InvBase(reg, ExecUse(reg, s, c, choice))
  {
    QuietKeeps(reg, s, c, ExecUse(reg, s, c, choice));
  }

  lemma PrepareKeeps(reg: Registry, s: State, c: CallId, choice: Choice)
    requires BaseAt(reg, s, c, choice) && (s.calls[c].PreEnter?)
    requires LockInv(ExecUse(reg, s, c, choice))
    ensures InvBase(reg, ExecUse(reg, s, c, choice))
  {
    QuietKeeps(reg, s, c, ExecUse(reg, s, c, choice));
  }

  lemma CheckKeeps(reg: Registry, s: State, c: CallId, choice: Choice)
    requires BaseAt(reg, s, c, choice) && (s.calls[c].PreAsk? || s.calls[c].PreCheck?)
    requires LockInv(ExecUse(reg, s, c, choice))
    ensures InvBase(reg, ExecUse(reg, s, c, choice))
  {
    QuietKeeps(reg, s, c, ExecUse(reg, s, c, choice));
  }

  /** The stop section when a provider has to be stopped ... */
  lemma HaltMoves(s: State, c: CallId, t: Table, changed: set<EntryRef>, s': State)
    requires c in s.calls && s.calls[c].SelStop? && |t.entries| == |s.table.entries|
    requires s' == Goto(Notify(Unlock(s, {StateMutex}), t, changed), c, SelHalt(s.calls[c].choice, s.table.active))
    ensures Moved(s, c, s', changed) && OwnsItsEntry(s, c, s')
    ensures s'.table == t && c in s'.calls && s'.calls[c] == SelHalt(s.calls[c].choice, s.table.active)
  {
  }

  /** ... and when there is none. */
  lemma IdleMoves(s: State, c: CallId, t: Table, changed: set<EntryRef>, s': State)
    requires c in s.calls && s.calls[c].SelStop? && |t.entries| == |s.table.entries|
    requires s' == AfterStop(Notify(Unlock(s, {StateMutex}), t, changed), c, s.calls[c].choice)
    ensures Moved(s, c, s', changed) && OwnsItsEntry(s, c, s')
    ensures s'.table == t && (c in s'.calls ==> s'.calls[c].SelFind?)
  {
  }

  lemma StopStepKeeps(reg: Registry, s: State, c: CallId, choice: Choice)
    requires BaseAt(reg, s, c, choice) && s.calls[c].SelStop?
    requires LockInv(ExecSelect(reg, s, c, choice))
    ensures InvBase(reg, ExecSelect(reg, s, c, choice))
  {
    var t, s' := s.table, ExecSelect(reg, s, c, choice);
    var changed := Refs(t, RoutesOf(t, t.active));
    StopKeepsBase(reg, t);
    if t.active in reg {
      HaltMoves(s, c, Stop(t), changed, s');
    } else {
      IdleMoves(s, c, Stop(t), changed, s');
    }
    MovedKeeps(reg, s, c, s', changed, {});
  }

  lemma PublishStepKeeps(reg: Registry, s: State, c: CallId, choice: Choice)
    requires BaseAt(reg, s, c, choice) && (s.calls[c].SelPublish?)
    requires LockInv(ExecSelect(reg, s, c, choice))
    ensures InvBase(reg, ExecSelect(reg, s, c, choice))
  {
    PublishKeepsBase(reg, s.table, s.calls[c].id);
    MovedKeeps(reg, s, c, ExecSelect(reg, s, c, choice), {}, {});
  }

  lemma SelectKeeps(reg: Registry, s: State, c: CallId, choice: Choice)
    requires BaseAt(reg, s, c, choice) && (s.calls[c].SelEnter? || s.calls[c].SelHalt?)
    requires LockInv(ExecSelect(reg, s, c, choice))
    ensures InvBase(reg, ExecSelect(reg, s, c, choice))
  {
    QuietKeeps(reg, s, c, ExecSelect(reg, s, c, choice));
  }

  lemma StartKeeps(reg: Registry, s: State, c: CallId, choice: Choice)
    requires BaseAt(reg, s, c, choice) && (s.calls[c].SelFind? || s.calls[c].SelStart?)
    requires LockInv(ExecSelect(reg, s, c, choice))
    ensures InvBase(reg, ExecSelect(reg, s, c, choice))
  {
    QuietKeeps(reg, s, c, ExecSelect(reg, s, c, choice));
  }

  lemma TellKeeps(reg: Registry, s: State, c: CallId, choice: Choice)
    requires BaseAt(reg, s, c, choice) && (s.calls[c].RunEnter? || s.calls[c].RunFind?)
    requires LockInv(ExecOther(reg, s, c, choice))
    ensures InvBase(reg, ExecOther(reg, s, c, choice))
  {
    QuietKeeps(reg, s, c, ExecOther(reg, s, c, choice));
  }

  lemma SurveyKeeps(reg: Registry, s: State, c: CallId, choice: Choice)
    requires BaseAt(reg, s, c, choice) && (s.calls[c].RunTell? || s.calls[c].SurveyEnter?)
    requires LockInv(ExecOther(reg, s, c, choice))
    ensures InvBase(reg, ExecOther(reg, s, c, choice))
  {
    QuietKeeps(reg, s, c, ExecOther(reg, s, c, choice));
  }

  lemma VisitKeeps(reg: Registry, s: State, c: CallId, choice: Choice)
    requires BaseAt(reg, s, c, choice) && (s.calls[c].SurveyVisit? || s.calls[c].SetEnter?)
    requires LockInv(ExecOther(reg, s, c, choice))
    ensures InvBase(reg, ExecOther(reg, s, c, choice))
  {
    QuietKeeps(reg, s, c, ExecOther(reg, s, c, choice));
  }

  lemma OverrideKeeps(reg: Registry, s: State, c: CallId, choice: Choice)
    requires BaseAt(reg, s, c, choice) && s.calls[c].SetPublish?
    requires LockInv(ExecOther(reg, s, c, choice))
    ensures InvBase(reg, ExecOther(reg, s, c, choice))
  {
    PublishKeepsBase(reg, s.table, s.calls[c].id);
    MovedKeeps(reg, s, c, ExecOther(reg, s, c, choice), {}, {});
  }

  lemma RunKeeps(reg: Registry, s: State, c: CallId, choice: Choice)
    requires BaseAt(reg, s, c, choice)
    ensures InvBase(reg, ExecRun(reg, s, c, choice))
  {
    RunShape(reg, s, c, choice);
    ShapeKeepsLocks(s, c, ExecRun(reg, s, c, choice));
    var pc := s.calls[c];
    assert CallBase(reg, s.table, pc);
    if pc.ActEnter? { EnterKeeps(reg, s, c, choice); }
    else if pc.ActCommit? { CommitStepKeeps(reg, s, c, choice); }
    else if pc.ActFind? || pc.Rejoin? { RejoinKeeps(reg, s, c, choice); }
    else if IsActivate(pc) { AskKeeps(reg, s, c, choice); }
    else if pc.DeaEnter? { ReleaseStepKeeps(reg, s, c, choice); }
    else if pc.DeaTell? { DropKeeps(reg, s, c, choice); }
    else if pc.PreEnter? { PrepareKeeps(reg, s, c, choice); }
    else if IsUse(pc) { CheckKeeps(reg, s, c, choice); }
    else if pc.SelStop? { StopStepKeeps(reg, s, c, choice); }
    else if pc.SelPublish? { PublishStepKeeps(reg, s, c, choice); }
    else if pc.SelEnter? || pc.SelHalt? { SelectKeeps(reg, s, c, choice); }
    else if IsSelect(pc) { StartKeeps(reg, s, c, choice); }
    else if pc.RunEnter? || pc.RunFind? { TellKeeps(reg, s, c, choice); }
    else if pc.RunTell? || pc.SurveyEnter? { SurveyKeeps(reg, s, c, choice); }
    else if pc.SetPublish? { OverrideKeeps(reg, s, c, choice); }
    else { VisitKeeps(reg, s, c, choice); }
  }

  lemma BeginKeeps(reg: Registry, s: State, c: CallId, first: Pc, s': State)
    requires InvBase(reg, s) && c !in s.calls && IsFirst(first)
    requires s'.table == s.table && s'.calls == s.calls[c := first] && LockInv(s')
    ensures InvBase(reg, s')
  {
    BeginKeepsOwners(s, c, first, s');
  }

  lemma BeginKeepsOwners(s: State, c: CallId, first: Pc, s': State)
    requires OwnersOk(s) && c !in s.calls && IsFirst(first)
    requires s'.table == s.table && s'.calls == s.calls[c := first]
    ensures OwnersOk(s')
  {
    forall e | 0 <= e < |s.table.entries| && s.table.entries[e].state == Activating
      ensures exists d :: d in s'.calls && IsCreator(s'.calls[d]) && s'.calls[d].entry == e
    {
      var d :| d in s.calls && IsCreator(s.calls[d]) && s.calls[d].entry == e;
      assert d in s'.calls && IsCreator(s'.calls[d]) && s'.calls[d].entry == e;
    }
  }

  /** One step of the protocol, whichever it is. */
  lemma StepKeeps(reg: Registry, s: State, step: Step, s': State)
    requires InvBase(reg, s) && Next(reg, s, step, s')
    ensures InvBase(reg, s')
  {
    LocksKept(reg, s, step, s');
    match step
    case Begin(c, first) => BeginKeeps(reg, s, c, first, s');
    case Acquire(c) =>
    case WakeSpuriously(c) => QuietKeeps(reg, s, c, s');
    case Run(c, choice) => RunKeeps(reg, s, c, choice);
  }
}
