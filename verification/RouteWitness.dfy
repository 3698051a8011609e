/**
 Runs that show where the promises end. Table and provider can part in each of the ways that a
 careful run avoids: a deactivation, a rival activation or a replacement still has to make the
 provider drop the target of a route that is created meanwhile, or the provider is stopped
 under its routes.
 */
module RouteWitness {
  import opened RouteTable
  import opened RouteProtocol
  import opened RouteLocks
  import opened RouteInvariants
  import opened RouteCoverage
  import opened RouteAgreement
  import RouteTheorems
  import opened Wrappers

  function Last(r: Trace): State
    requires r.states != []
  {
    r.states[|r.states| - 1]
  }

  /** A run without `setActiveProviderId`. */
  ghost predicate Regular(reg: Registry, r: Trace) {
    IsRun(reg, r) && NeverOverridden(r)
  }

  /** What a step leads to. */
  ghost function Done(reg: Registry, s: State, step: Step): State
    requires Enabled(reg, s, step) && (step.Run? ==> Sound(reg, s, s.calls[step.c]))
  {
    match step
    case Begin(c, first) => Log(Goto(s, c, first), c, [])
    case Acquire(c) => s.(locks := s.locks[Wants(s.calls[c]).value := c])
    case WakeSpuriously(c) =>
      var pc := s.calls[c];
      Goto(s, c, Rejoin(pc.p, pc.target, pc.entry))
    case Run(c, choice) => ExecRun(reg, s, c, choice)
  }

  /** One step further. */
  lemma Go(reg: Registry, r: Trace, step: Step) returns (r': Trace)
    requires Regular(reg, r) && Enabled(reg, Last(r), step) && !(step.Begin? && step.first.SetEnter?)
    requires step.Run? ==> Sound(reg, Last(r), Last(r).calls[step.c])
    ensures Regular(reg, r') && Last(r') == Done(reg, Last(r), step)
    ensures r'.states == r.states + [Last(r')] && r'.steps == r.steps + [step]
  {
    var s' := Done(reg, Last(r), step);
    r' := Trace(r.states + [s'], r.steps + [step]);
    forall i | 0 <= i < |r'.steps|
      ensures Next(reg, r'.states[i], r'.steps[i], r'.states[i + 1])
    {
      if i < |r.steps| {
        assert Next(reg, r.states[i], r.steps[i], r.states[i + 1]);
      }
    }
  }

  const YES := Choice(true, None, RouteTarget("", "", "", "", Proxy), [])

  /** The lock that the call wants is free: it takes the lock and runs its block. */
  lemma Block(reg: Registry, r: Trace, c: CallId, choice: Choice) returns (r': Trace)
    requires Regular(reg, r) && Takes(reg, Last(r), c, choice)
    ensures Regular(reg, r')
    ensures var s := Owning(Last(r), c);
            Legal(reg, s, s.calls[c], choice) && Sound(reg, s, s.calls[c]) && Last(r') == ExecRun(reg, s, c, choice)
  {
    r' := Go(reg, r, Acquire(c));
    r' := Go(reg, r', Run(c, choice));
  }

  /** The call can take the lock of its block and run it. */
  ghost predicate Takes(reg: Registry, s: State, c: CallId, choice: Choice) {
    && c in s.calls && Wants(s.calls[c]).Some? && Wants(s.calls[c]).value !in s.locks
    && Legal(reg, s, s.calls[c], choice) && Sound(reg, s, s.calls[c])
  }

  lemma ActivateBlock(reg: Registry, r: Trace, c: CallId, choice: Choice) returns (r': Trace)
    requires Regular(reg, r) && Takes(reg, Last(r), c, choice) && IsActivate(Last(r).calls[c])
    ensures Regular(reg, r')
    ensures var s := Owning(Last(r), c);
            Legal(reg, s, s.calls[c], choice) && Sound(reg, s, s.calls[c])
              && Last(r') == ExecActivate(reg, s, c, choice)
  {
    r' := Block(reg, r, c, choice);
  }

  lemma UseBlock(reg: Registry, r: Trace, c: CallId, choice: Choice) returns (r': Trace)
    requires Regular(reg, r) && Takes(reg, Last(r), c, choice) && IsUse(Last(r).calls[c])
    ensures Regular(reg, r')
    ensures var s := Owning(Last(r), c);
            Legal(reg, s, s.calls[c], choice) && Sound(reg, s, s.calls[c]) && Last(r') == ExecUse(reg, s, c, choice)
  {
    r' := Block(reg, r, c, choice);
  }

  lemma SelectBlock(reg: Registry, r: Trace, c: CallId, choice: Choice) returns (r': Trace)
    requires Regular(reg, r) && Takes(reg, Last(r), c, choice) && IsSelect(Last(r).calls[c])
    ensures Regular(reg, r')
    ensures var s := Owning(Last(r), c);
            Legal(reg, s, s.calls[c], choice) && Sound(reg, s, s.calls[c]) && Last(r') == ExecSelect(reg, s, c, choice)
  {
    r' := Block(reg, r, c, choice);
  }

  lemma OtherBlock(reg: Registry, r: Trace, c: CallId, choice: Choice) returns (r': Trace)
    requires Regular(reg, r) && Takes(reg, Last(r), c, choice) && IsOther(Last(r).calls[c])
    ensures Regular(reg, r')
    ensures var s := Owning(Last(r), c);
            Legal(reg, s, s.calls[c], choice) && Sound(reg, s, s.calls[c]) && Last(r') == ExecOther(reg, s, c, choice)
  {
    r' := Block(reg, r, c, choice);
  }

  function Owning(s: State, c: CallId): State
    requires c in s.calls && Wants(s.calls[c]).Some?
  {
    s.(locks := s.locks[Wants(s.calls[c]).value := c])
  }

  /** Nobody is at work: no lock is held, and these calls are waiting to go on. */
  ghost predicate Quiet(s: State, calls: map<CallId, Pc>) {
    s.table.WellFormed() && s.locks == map[] && s.calls == calls && forall d :: d in calls ==> !calls[d].Waiting?
  }

  // ---------------------------------------------------------------- selecting a provider

  /** A selection has begun. */
  lemma Begun(reg: Registry, p: ProviderId) returns (r: Trace)
    ensures Regular(reg, r) && Last(r).table == EmptyTable
    ensures Last(r).calls == map[0 := SelStop(Some(p))] && Last(r).locks == map[Lifecycle := 0]
    ensures Last(r).history.Keys == {0}
  {
    r := Trace([State(EmptyTable, map[], map[], map[], map[])], []);
    r := Go(reg, r, Begin(0, SelEnter(Some(p))));
    r := SelectBlock(reg, r, 0, YES);
  }

  /** It has found nothing to stop. */
  lemma Stopped(reg: Registry, p: ProviderId) returns (r: Trace)
    requires ValidRegistry(reg) && p in reg
    ensures Regular(reg, r) && Last(r).table.WellFormed() && Last(r).table.routes == map[]
    ensures Last(r).calls == map[][0 := SelFind(p)] && Last(r).locks == map[Lifecycle := 0]
    ensures Last(r).history.Keys == {0}
  {
    r := Begun(reg, p);
    r := SelectBlock(reg, r, 0, YES);
    assert Last(r).locks == map[Lifecycle := 0];
  }

  /** The provider is found, started ... */
  lemma Found(reg: Registry, r0: Trace, c: CallId, p: ProviderId, calls: map<CallId, Pc>)
    returns (r: Trace)
    requires Regular(reg, r0) && p in reg && Last(r0).table.WellFormed()
    requires Last(r0).calls == calls[c := SelFind(p)] && Last(r0).locks == map[Lifecycle := c]
    ensures Regular(reg, r) && Last(r).table == Last(r0).table && Last(r).calls == calls[c := SelStart(p)]
    ensures Last(r).locks == map[Lifecycle := c] && Last(r).history == Last(r0).history
  {
    r := SelectBlock(reg, r0, c, YES);
    assert Last(r).locks == map[Lifecycle := c];
  }

  lemma Started(reg: Registry, r0: Trace, c: CallId, p: ProviderId, calls: map<CallId, Pc>)
    returns (r: Trace)
    requires Regular(reg, r0) && p in reg && Last(r0).table.WellFormed() && c in Last(r0).history
    requires Last(r0).calls == calls[c := SelStart(p)] && Last(r0).locks == map[Lifecycle := c]
    ensures Regular(reg, r) && Last(r).table == Last(r0).table && Last(r).calls == calls[c := SelPublish(p)]
    ensures Last(r).locks == map[Lifecycle := c] && Last(r).history.Keys == Last(r0).history.Keys
  {
    r := SelectBlock(reg, r0, c, YES);
    assert Last(r).locks == map[Lifecycle := c];
  }

  /** ... and published. */
  lemma Published(reg: Registry, r0: Trace, c: CallId, p: ProviderId, calls: map<CallId, Pc>)
    returns (r: Trace)
    requires Regular(reg, r0) && Last(r0).table.WellFormed() && c !in calls && c in Last(r0).history
    requires Last(r0).calls == calls[c := SelPublish(p)] && Last(r0).locks == map[Lifecycle := c]
    ensures Regular(reg, r) && Last(r).table == Publish(Last(r0).table, p)
    ensures Last(r).calls == calls && Last(r).locks == map[] && Last(r).history.Keys == Last(r0).history.Keys
  {
    r := SelectBlock(reg, r0, c, YES);
    assert Last(r).calls == calls && Last(r).locks == map[];
  }

  /** A provider is selected. */
  lemma Selected(reg: Registry, p: ProviderId) returns (r: Trace)
    requires ValidRegistry(reg) && p in reg
    ensures Regular(reg, r) && Quiet(Last(r), map[])
    ensures Last(r).table.active == p && Last(r).table.routes == map[] && Last(r).history.Keys == {0}
  {
    r := Stopped(reg, p);
    r := Found(reg, r, 0, p, map[]);
    r := Started(reg, r, 0, p, map[]);
    r := Published(reg, r, 0, p, map[]);
  }

  /** A selection has begun while calls are in flight. */
  lemma Reselecting(reg: Registry, r0: Trace, c: CallId, p: ProviderId, calls: map<CallId, Pc>)
    returns (r: Trace)
    requires Regular(reg, r0) && Quiet(Last(r0), calls) && c !in calls && c !in Last(r0).history
    ensures Regular(reg, r) && Last(r).table == Last(r0).table
    ensures Last(r).calls == calls[c := SelStop(Some(p))] && Last(r).locks == map[Lifecycle := c]
    ensures Last(r).history.Keys == Last(r0).history.Keys + {c}
  {
    r := Go(reg, r0, Begin(c, SelEnter(Some(p))));
    r := SelectBlock(reg, r, c, YES);
    assert Last(r).calls == calls[c := SelStop(Some(p))] && Last(r).locks == map[Lifecycle := c];
  }

  lemma StopReturns(reg: Registry, s: State, c: CallId, p: ProviderId)
    requires c in s.calls && s.calls[c] == SelStop(Some(p)) && Sound(reg, s, s.calls[c])
    requires s.table.active == p && p in reg
    requires forall d :: d in s.calls ==> !s.calls[d].Waiting?
    ensures
      var s' := ExecSelect(reg, s, c, YES);
      && s'.table == Stop(s.table) && s'.calls == s.calls[c := SelHalt(Some(p), p)]
      && s'.locks == s.locks - {StateMutex} && s'.history == s.history
  {
  }

  /** The running provider is stopped, to be selected again. */
  lemma Restarting(reg: Registry, r0: Trace, c: CallId, p: ProviderId, calls: map<CallId, Pc>)
    returns (r: Trace)
    requires Regular(reg, r0) && Quiet(Last(r0), calls) && c !in calls && c !in Last(r0).history
    requires p in reg && p != "" && Last(r0).table.active == p
    ensures Regular(reg, r) && Last(r).table == Stop(Last(r0).table)
    ensures Last(r).calls == calls[c := SelHalt(Some(p), p)] && Last(r).locks == map[Lifecycle := c]
    ensures Last(r).history.Keys == Last(r0).history.Keys + {c}
  {
    r := Reselecting(reg, r0, c, p, calls);
    r := Forgotten(reg, r, c, p);
    assert Last(r).calls == calls[c := SelHalt(Some(p), p)];
  }

  lemma Forgotten(reg: Registry, r0: Trace, c: CallId, p: ProviderId) returns (r: Trace)
    requires Regular(reg, r0) && Last(r0).table.WellFormed() && Last(r0).table.active == p && p in reg
    requires c in Last(r0).calls && Last(r0).calls[c] == SelStop(Some(p)) && Last(r0).locks == map[Lifecycle := c]
    requires forall d :: d in Last(r0).calls ==> !Last(r0).calls[d].Waiting?
    ensures Regular(reg, r) && Last(r).table == Stop(Last(r0).table) && Last(r).history == Last(r0).history
    ensures Last(r).calls == Last(r0).calls[c := SelHalt(Some(p), p)] && Last(r).locks == map[Lifecycle := c]
  {
    StopReturns(reg, Owning(Last(r0), c), c, p);
    r := SelectBlock(reg, r0, c, YES);
    assert Last(r).locks == map[Lifecycle := c];
  }

  lemma Halted(reg: Registry, r0: Trace, c: CallId, p: ProviderId, calls: map<CallId, Pc>)
    returns (r: Trace)
    requires Regular(reg, r0) && Last(r0).table.WellFormed() && p != "" && c in Last(r0).history
    requires Last(r0).calls == calls[c := SelHalt(Some(p), p)] && Last(r0).locks == map[Lifecycle := c]
    ensures Regular(reg, r) && Last(r).table == Last(r0).table
    ensures Last(r).calls == calls[c := SelFind(p)] && Last(r).locks == map[Lifecycle := c]
    ensures Last(r).history.Keys == Last(r0).history.Keys
  {
    HaltReturns(reg, Owning(Last(r0), c), c, p);
    r := SelectBlock(reg, r0, c, YES);
    assert Last(r).locks == map[Lifecycle := c];
  }

  lemma HaltReturns(reg: Registry, s: State, c: CallId, p: ProviderId)
    requires c in s.calls && s.calls[c] == SelHalt(Some(p), p) && Sound(reg, s, s.calls[c]) && p != ""
    ensures
      var s' := ExecSelect(reg, s, c, YES);
      && s'.table == s.table && s'.calls == s.calls[c := SelFind(p)]
      && s'.locks == s.locks - {Operations(p)} && s'.history.Keys == s.history.Keys + {c}
  {
  }

  /** A provider is selected again, while calls are in flight. */
  lemma Reselected(reg: Registry, r0: Trace, c: CallId, p: ProviderId, calls: map<CallId, Pc>)
    returns (r: Trace)
    requires ValidRegistry(reg) && Regular(reg, r0) && Quiet(Last(r0), calls) && c !in calls && c !in Last(r0).history
    requires p in reg && Last(r0).table.active == p
    ensures Regular(reg, r) && Quiet(Last(r), calls) && Last(r).table == Publish(Stop(Last(r0).table), p)
    ensures Last(r).history.Keys == Last(r0).history.Keys + {c}
  {
    r := Restarting(reg, r0, c, p, calls);
    r := Halted(reg, r, c, p, calls);
    r := Found(reg, r, c, p, calls);
    r := Started(reg, r, c, p, calls);
    r := Published(reg, r, c, p, calls);
  }

  // ---------------------------------------------------------------- activating a route

  /** A new call may create this route. */
  ghost predicate MayCreate(reg: Registry, s: State, c: CallId, p: ProviderId, target: RouteTarget) {
    && s.table.WellFormed() && s.table.active == p && KeyOf(p, target) !in s.table.routes
    && p in reg && target.peerId != "" && c !in s.calls && c !in s.history
  }

  /** A call has found its provider. */
  lemma Called(reg: Registry, r0: Trace, c: CallId, p: ProviderId, target: RouteTarget)
    returns (r: Trace)
    requires Regular(reg, r0) && p in reg && target.peerId != "" && c !in Last(r0).calls && c !in Last(r0).history
    requires Last(r0).table.WellFormed() && Last(r0).locks == map[]
    ensures Regular(reg, r) && Last(r).table == Last(r0).table && Last(r).accepted == Last(r0).accepted
    ensures Last(r).calls == Last(r0).calls[c := ActEnter(p, target)] && Last(r).locks == map[]
    ensures Last(r).history.Keys == Last(r0).history.Keys + {c}
  {
    r := Go(reg, r0, Begin(c, ActFind(p, target)));
    r := ActivateBlock(reg, r, c, YES);
    assert Last(r).calls == Last(r0).calls[c := ActEnter(p, target)] && Last(r).locks == map[];
  }

  /** The targets that a new route replaces. */
  function Retirees(reg: Registry, t: Table, p: ProviderId, target: RouteTarget): set<RouteTarget>
    requires t.WellFormed() && p in reg
  {
    ActiveTargets(t, Replaced(t, p, target, reg[p]))
  }

  /** It has created its entry. */
  lemma Entered(reg: Registry, r0: Trace, c: CallId, p: ProviderId, target: RouteTarget, calls: map<CallId, Pc>)
    returns (r: Trace)
    requires Regular(reg, r0) && Quiet(Last(r0), calls) && MayCreate(reg, Last(r0), c, p, target)
    ensures Regular(reg, r) && Last(r).table == Create(Last(r0).table, p, target, reg[p])
    ensures Quiet(Last(r), calls[c := ActRetire(p, target, |Last(r0).table.entries|,
      Retirees(reg, Last(r0).table, p, target))])
    ensures Last(r).accepted == Last(r0).accepted && Last(r).history.Keys == Last(r0).history.Keys + {c}
  {
    var t := Last(r0).table;
    CreatedTable(t, p, target, reg[p]);
    r := Called(reg, r0, c, p, target);
    r := ActivateBlock(reg, r, c, YES);
    assert Last(r).calls == calls[c := ActRetire(p, target, |t.entries|, Retirees(reg, t, p, target))];
    assert Last(r).locks == map[];
  }

  lemma CreatedTable(t: Table, p: ProviderId, target: RouteTarget, exclusive: bool)
    requires t.WellFormed() && t.active == p && KeyOf(p, target) !in t.routes
    ensures
      var created, key, e := Create(t, p, target, exclusive), KeyOf(p, target), |t.entries|;
      && created.WellFormed() && created.active == p && |created.entries| == e + 1
      && created.entries[e] == RouteEntry(target, t.generation, 1, Activating)
      && key in created.routes && Current(created, p, key, e)
      && created.routes.Keys == t.routes.Keys - Replaced(t, p, target, exclusive) + {key}
  {
  }

  /** A call has the provider's answer. */
  lemma Asked(reg: Registry, r0: Trace, c: CallId, answer: bool) returns (r: Trace)
    requires Regular(reg, r0) && Last(r0).table.WellFormed() && Last(r0).locks == map[]
    requires c in Last(r0).calls && c in Last(r0).history
    requires Last(r0).calls[c].ActRetire? && Last(r0).calls[c].retired == {}
    requires Last(r0).calls[c].entry < |Last(r0).table.entries|
    ensures Regular(reg, r) && Last(r).table == Last(r0).table
    ensures
      var pc, s, s' := Last(r0).calls[c], Last(r0), Last(r);
      && s'.calls == s.calls[c := ActCommit(pc.p, pc.target, pc.entry, answer)]
        && s'.locks == map[Operations(pc.p) := c]
      && s'.accepted == (if answer then Accept(s, pc.p, pc.target) else s).accepted
      && s'.history.Keys == s.history.Keys
  {
    var pc := Last(r0).calls[c];
    r := ActivateBlock(reg, r0, c, YES);
    assert Last(r).calls == Last(r0).calls[c := ActAsk(pc.p, pc.target, pc.entry, {})];
    r := Go(reg, r, Run(c, YES.(answer := answer)));
    assert Last(r).calls == Last(r0).calls[c := ActCommit(pc.p, pc.target, pc.entry, answer)];
  }

  /** A call is about to commit its entry and has the provider to itself. */
  ghost predicate Committing(s: State, c: CallId) {
    && s.table.WellFormed() && c in s.calls && c in s.history && s.calls[c].ActCommit?
    && s.calls[c].entry < |s.table.entries| && s.locks == map[Operations(s.calls[c].p) := c]
  }

  ghost predicate Keeping(s: State, c: CallId)
    requires Committing(s, c)
  {
    var pc := s.calls[c];
    pc.activated && Current(s.table, pc.p, KeyOf(pc.p, pc.target), pc.entry)
  }

  function Committed(s: State, c: CallId): Table
    requires c in s.calls && s.calls[c].ActCommit? && s.calls[c].entry < |s.table.entries|
  {
    var pc := s.calls[c];
    Commit(s.table, pc.p, KeyOf(pc.p, pc.target), pc.entry, pc.activated)
  }

  /** The commit block, when the call is through with it: the waiters on its entry wake up. */
  lemma CommitReturns(reg: Registry, s: State, c: CallId, choice: Choice)
    requires c in s.calls && c in s.history && s.calls[c].ActCommit? && Sound(reg, s, s.calls[c])
    requires Legal(reg, s, s.calls[c], choice)
    requires s.calls[c].activated ==> Current(s.table, s.calls[c].p, KeyOf(s.calls[c].p, s.calls[c].target),
      s.calls[c].entry)
    ensures
      var pc, s' := s.calls[c], ExecRun(reg, s, c, choice);
      && s'.table == Committed(s, c) && s'.accepted == s.accepted
      && s'.calls == (map d | d in s.calls && d != c :: Wake(s.calls[d], {pc.entry}))
      && s'.locks == s.locks - {StateMutex} - {Operations(pc.p)} && s'.history.Keys == s.history.Keys
  {
  }

  lemma Finished(reg: Registry, r0: Trace, c: CallId) returns (r: Trace)
    requires Regular(reg, r0) && Committing(Last(r0), c) && (Last(r0).calls[c].activated ==> Keeping(Last(r0), c))
    ensures Regular(reg, r) && Last(r).table == Committed(Last(r0), c) && Last(r).accepted == Last(r0).accepted
    ensures
      var pc, s, s' := Last(r0).calls[c], Last(r0), Last(r);
      && s'.calls == (map d | d in s.calls && d != c :: Wake(s.calls[d], {pc.entry}))
      && s'.locks == map[] && s'.history.Keys == s.history.Keys
  {
    CommitReturns(reg, Owning(Last(r0), c), c, YES);
    r := ActivateBlock(reg, r0, c, YES);
    assert Last(r).locks == map[];
  }

  /** The call finds its entry out of date ... */
  lemma Outdated(reg: Registry, r0: Trace, c: CallId) returns (r: Trace)
    requires Regular(reg, r0) && Committing(Last(r0), c) && Last(r0).calls[c].activated && !Keeping(Last(r0), c)
    requires forall d :: d in Last(r0).calls ==> !Last(r0).calls[d].Waiting?
    ensures Regular(reg, r) && Last(r).table == Committed(Last(r0), c) && c in Last(r).history
    ensures
      var pc, s, s' := Last(r0).calls[c], Last(r0), Last(r);
      s'.calls == s.calls[c := ActUndo(pc.p, pc.target)] && s'.locks == map[Operations(pc.p) := c]
  {
    var pc := Last(r0).calls[c];
    r := ActivateBlock(reg, r0, c, YES);
    assert Last(r).calls == Last(r0).calls[c := ActUndo(pc.p, pc.target)];
    assert Last(r).locks == map[Operations(pc.p) := c];
  }

  /** ... and has the provider drop the target. */
  lemma Undone(reg: Registry, r0: Trace, c: CallId, p: ProviderId, target: RouteTarget) returns (r: Trace)
    requires Regular(reg, r0) && Last(r0).table.WellFormed() && c in Last(r0).history
    requires Last(r0).calls == map[c := ActUndo(p, target)] && Last(r0).locks == map[Operations(p) := c]
    ensures Regular(reg, r) && Last(r).table == Last(r0).table && Last(r).calls == map[] && !Has(Last(r), p, target)
  {
    r := Go(reg, r0, Run(c, YES));
    assert Last(r).calls == map[];
  }

  /** A call has activated a route that replaces no Active one. */
  lemma Activated(reg: Registry, r0: Trace, c: CallId, p: ProviderId, target: RouteTarget, calls: map<CallId, Pc>)
    returns (r: Trace)
    requires Regular(reg, r0) && Quiet(Last(r0), calls) && MayCreate(reg, Last(r0), c, p, target)
    requires Retirees(reg, Last(r0).table, p, target) == {}
    ensures Regular(reg, r) && Quiet(Last(r), calls) && Last(r).history.Keys == Last(r0).history.Keys + {c}
    ensures Last(r).table.active == p && Routed(Last(r).table, p, target)
    ensures Last(r).table.At(KeyOf(p, target)).references == 1
    ensures Last(r).table.routes[KeyOf(p, target)] == |Last(r0).table.entries|
    ensures Last(r).table.routes.Keys ==
            Last(r0).table.routes.Keys - Replaced(Last(r0).table, p, target, reg[p]) + {KeyOf(p, target)}
  {
    CreatedTable(Last(r0).table, p, target, reg[p]);
    CommittedTable(Last(r0).table, p, target, reg[p]);
    r := Accepted(reg, r0, c, p, target, calls);
    r := Finished(reg, r, c);
    assert Last(r).calls == calls;
  }

  /** The provider has accepted the new route. */
  lemma Accepted(reg: Registry, r0: Trace, c: CallId, p: ProviderId, target: RouteTarget, calls: map<CallId, Pc>)
    returns (r: Trace)
    requires Regular(reg, r0) && Quiet(Last(r0), calls) && MayCreate(reg, Last(r0), c, p, target)
    requires Retirees(reg, Last(r0).table, p, target) == {}
    ensures Regular(reg, r) && Last(r).table == Create(Last(r0).table, p, target, reg[p])
    ensures Last(r).calls == calls[c := ActCommit(p, target, |Last(r0).table.entries|, true)]
    ensures Committing(Last(r), c) && Last(r).history.Keys == Last(r0).history.Keys + {c}
  {
    CreatedTable(Last(r0).table, p, target, reg[p]);
    r := Entered(reg, r0, c, p, target, calls);
    r := Asked(reg, r, c, true);
  }

  lemma CommittedTable(t: Table, p: ProviderId, target: RouteTarget, exclusive: bool)
    requires t.WellFormed() && t.active == p && KeyOf(p, target) !in t.routes
    ensures
      var created, key, e := Create(t, p, target, exclusive), KeyOf(p, target), |t.entries|;
      && |created.entries| == e + 1
      && var done := Commit(created, p, key, e, true);
      && done.WellFormed() && done.active == p && Routed(done, p, target)
      && done.At(key).references == 1 && done.routes[key] == e
      && done.routes.Keys == t.routes.Keys - Replaced(t, p, target, exclusive) + {key}
  {
    CreatedTable(t, p, target, exclusive);
  }

  // ---------------------------------------------------------------- table and provider part

  /** A deactivation has left the table and has yet to tell the provider. */
  lemma Left(reg: Registry, r0: Trace, c: CallId, p: ProviderId, target: RouteTarget) returns (r: Trace)
    requires Regular(reg, r0) && Quiet(Last(r0), map[]) && c !in Last(r0).history && p in reg
    requires Last(r0).table.active == p && Last(r0).table.routes.Keys == {KeyOf(p, target)}
    requires Routed(Last(r0).table, p, target) && Last(r0).table.At(KeyOf(p, target)).references == 1
    ensures Regular(reg, r) && Quiet(Last(r), map[c := DeaTell(p, target)])
    ensures Last(r).table.active == p && Last(r).table.routes == map[]
    ensures Last(r).history.Keys == Last(r0).history.Keys + {c}
  {
    var key := KeyOf(p, target);
    r := Go(reg, r0, Begin(c, DeaEnter(p, key.peerId, key.targetAddress)));
    r := UseBlock(reg, r, c, YES.(found := Some(key)));
    assert Last(r).table.routes.Keys == {};
    assert Last(r).calls == map[c := DeaTell(p, target)] && Last(r).locks == map[];
  }

  /** No call is in flight, the table has an Active route, and the provider does not serve it. */
  ghost predicate Parted(s: State, p: ProviderId, target: RouteTarget) {
    s.calls == map[] && s.table.WellFormed() && Routed(s.table, p, target) && !Has(s, p, target)
  }

  /** A deactivation leaves the table, another call brings the route back, and only then does the
      deactivation tell the provider. */
  lemma PartedByDeactivation(reg: Registry, p: ProviderId, target: RouteTarget) returns (r: Trace)
    requires ValidRegistry(reg) && p in reg && target.peerId != ""
    ensures Regular(reg, r) && Parted(Last(r), p, target)
  {
    r := Selected(reg, p);
    NothingToRetire(reg, Last(r).table, p, target);
    r := Activated(reg, r, 1, p, target, map[]);
    r := Left(reg, r, 2, p, target);
    NothingToRetire(reg, Last(r).table, p, target);
    r := Activated(reg, r, 3, p, target, map[2 := DeaTell(p, target)]);
    r := UseBlock(reg, r, 2, YES);
    assert Last(r).calls == map[];
  }

  lemma NothingToRetire(reg: Registry, t: Table, p: ProviderId, target: RouteTarget)
    requires t.WellFormed() && p in reg && t.routes == map[]
    ensures Retirees(reg, t, p, target) == {}
  {
  }

  /** An activation is overtaken by a restart of the provider and by another activation of the same
      target; it is accepted late and takes its target back. */
  lemma PartedByRival(reg: Registry, p: ProviderId, target: RouteTarget) returns (r: Trace)
    requires ValidRegistry(reg) && p in reg && target.peerId != ""
    ensures Regular(reg, r) && Parted(Last(r), p, target)
  {
    r := Selected(reg, p);
    NothingToRetire(reg, Last(r).table, p, target);
    var e := |Last(r).table.entries|;
    r := Entered(reg, r, 1, p, target, map[]);
    r := OvertakenByRival(reg, r, p, target, e);
  }

  lemma OvertakenByRival(reg: Registry, r0: Trace, p: ProviderId, target: RouteTarget, e: EntryRef)
    returns (r: Trace)
    requires ValidRegistry(reg) && p in reg && target.peerId != "" && Regular(reg, r0)
    requires Quiet(Last(r0), map[1 := ActRetire(p, target, e, {})]) && e < |Last(r0).table.entries|
    requires Last(r0).table.active == p && Last(r0).table.routes.Keys == {KeyOf(p, target)}
    requires Last(r0).table.routes[KeyOf(p, target)] == e && Last(r0).history.Keys == {0, 1}
    ensures Regular(reg, r) && Parted(Last(r), p, target)
  {
    var waiting := map[1 := ActRetire(p, target, e, {})];
    r := Reselected(reg, r0, 2, p, waiting);
    assert Last(r).table.routes.Keys == {};
    NothingToRetire(reg, Last(r).table, p, target);
    assert e < |Last(r).table.entries|;
    r := Activated(reg, r, 3, p, target, waiting);
    r := TakenBack(reg, r, p, target, e);
  }

  /** The late activation of an entry that has lost its place. */
  lemma TakenBack(reg: Registry, r0: Trace, p: ProviderId, target: RouteTarget, e: EntryRef)
    returns (r: Trace)
    requires ValidRegistry(reg) && Regular(reg, r0) && Quiet(Last(r0), map[1 := ActRetire(p, target, e, {})])
    requires e < |Last(r0).table.entries| && 1 in Last(r0).history
    requires Routed(Last(r0).table, p, target) && Last(r0).table.routes[KeyOf(p, target)] != e
    ensures Regular(reg, r) && Parted(Last(r), p, target)
  {
    r := Asked(reg, r0, 1, true);
    CommitLeavesRoute(reg, r, 1, p, target);
    r := Outdated(reg, r, 1);
    r := Undone(reg, r, 1, p, target);
  }

  /** Whatever a call commits, the Active routes stay. */
  lemma CommitLeavesRoute(reg: Registry, r: Trace, c: CallId, p: ProviderId, target: RouteTarget)
    requires ValidRegistry(reg) && Regular(reg, r) && c in Last(r).calls && Last(r).calls[c].ActCommit?
    requires Last(r).table.WellFormed() && Routed(Last(r).table, p, target)
    ensures Last(r).calls[c].entry < |Last(r).table.entries|
    ensures Committed(Last(r), c).WellFormed() && Routed(Committed(Last(r), c), p, target)
  {
    var s, pc := Last(r), Last(r).calls[c];
    RouteTheorems.InvariantAlongRun(reg, r, |r.states| - 1);
    assert CallOk(reg, s.table, pc);
    CommitRoutes(reg, s.table, pc.p, pc.target, pc.entry, pc.activated);
  }

  /** An activation replaces a route of an exclusive provider; before the provider is told, another
      call brings the replaced route back. */
  lemma PartedByReplacement(reg: Registry, p: ProviderId, target: RouteTarget, other: RouteTarget)
    returns (r: Trace)
    requires ValidRegistry(reg) && p in reg && reg[p] && target.peerId != "" && other.peerId != ""
    requires KeyOf(p, other) != KeyOf(p, target)
    ensures Regular(reg, r) && Parted(Last(r), p, target)
  {
    r := Selected(reg, p);
    NothingToRetire(reg, Last(r).table, p, target);
    r := Activated(reg, r, 1, p, target, map[]);
    var e := |Last(r).table.entries|;
    OneToRetire(reg, Last(r).table, p, target, other);
    r := Entered(reg, r, 2, p, other, map[]);
    r := OvertakenReplacement(reg, r, p, target, other, e);
  }

  lemma OneToRetire(reg: Registry, t: Table, p: ProviderId, target: RouteTarget, other: RouteTarget)
    requires t.WellFormed() && p in reg && reg[p] && t.active == p && t.routes.Keys == {KeyOf(p, target)}
    requires Routed(t, p, target) && KeyOf(p, other) != KeyOf(p, target)
    ensures Retirees(reg, t, p, other) == {target}
    ensures Create(t, p, other, reg[p]).routes.Keys == {KeyOf(p, other)}
  {
    assert Replaced(t, p, other, true) == {KeyOf(p, target)};
    assert target in ActiveTargets(t, {KeyOf(p, target)});
  }

  lemma OvertakenReplacement(reg: Registry, r0: Trace, p: ProviderId, target: RouteTarget,
                                                other: RouteTarget, e: EntryRef)
    returns (r: Trace)
    requires ValidRegistry(reg) && p in reg && reg[p] && target.peerId != "" && Regular(reg, r0)
    requires KeyOf(p, other) != KeyOf(p, target) && e < |Last(r0).table.entries|
    requires Quiet(Last(r0), map[2 := ActRetire(p, other, e, {target})])
    requires Last(r0).table.entries[e].state == Activating
    requires Last(r0).table.active == p && Last(r0).table.routes == map[KeyOf(p, other) := e]
    requires Last(r0).history.Keys == {0, 1, 2}
    ensures Regular(reg, r) && Parted(Last(r), p, target)
  {
    assert Retirees(reg, Last(r0).table, p, target) == {};
    r := Activated(reg, r0, 3, p, target, map[2 := ActRetire(p, other, e, {target})]);
    assert e < |Last(r).table.entries| by { RouteTheorems.InvariantAlongRun(reg, r, |r.states| - 1); }
    r := Dropped(reg, r, 2);
    r := Refused(reg, r, p, target, other, e);
  }

  /** A call has the provider drop the one target that it retired. */
  lemma Dropped(reg: Registry, r0: Trace, c: CallId) returns (r: Trace)
    requires Regular(reg, r0) && Last(r0).table.WellFormed() && Last(r0).locks == map[]
    requires c in Last(r0).calls && c in Last(r0).history && Last(r0).calls[c].ActRetire?
    requires Last(r0).calls[c].entry < |Last(r0).table.entries|
    requires exists target :: Last(r0).calls[c].retired == {target}
    ensures Regular(reg, r) && Last(r).table == Last(r0).table
    ensures
      var pc, s, s' := Last(r0).calls[c], Last(r0), Last(r);
      && s'.calls == s.calls[c := ActAsk(pc.p, pc.target, pc.entry, {})] && s'.locks == map[Operations(pc.p) := c]
      && (forall target :: target in pc.retired ==> !Has(s', pc.p, target))
      && s'.history.Keys == s.history.Keys
  {
    var pc := Last(r0).calls[c];
    var target :| pc.retired == {target};
    r := ActivateBlock(reg, r0, c, YES);
    assert Last(r).calls == Last(r0).calls[c := ActAsk(pc.p, pc.target, pc.entry, {target})];
    r := Go(reg, r, Run(c, YES.(victim := target)));
    assert pc.retired - {target} == {};
    assert Last(r).calls == Last(r0).calls[c := ActAsk(pc.p, pc.target, pc.entry, {})];
  }

  /** The provider refuses the new route. */
  lemma Refused(reg: Registry, r0: Trace, p: ProviderId, target: RouteTarget, other: RouteTarget, e: EntryRef)
    returns (r: Trace)
    requires ValidRegistry(reg) && Regular(reg, r0) && e < |Last(r0).table.entries| && 2 in Last(r0).history
    requires Last(r0).calls == map[2 := ActAsk(p, other, e, {})] && Last(r0).locks == map[Operations(p) := 2]
    requires Last(r0).table.WellFormed() && Routed(Last(r0).table, p, target) && !Has(Last(r0), p, target)
    ensures Regular(reg, r) && Parted(Last(r), p, target)
  {
    r := Go(reg, r0, Run(2, YES.(answer := false)));
    assert Last(r).calls == map[2 := ActCommit(p, other, e, false)];
    CommitLeavesRoute(reg, r, 2, p, target);
    r := Finished(reg, r, 2);
    assert Last(r).calls == map[];
  }

  /** `stopProvider` stops a provider without clearing its routes. */
  lemma PartedByStopping(reg: Registry, p: ProviderId, target: RouteTarget) returns (r: Trace)
    requires ValidRegistry(reg) && p in reg && target.peerId != ""
    ensures Regular(reg, r) && Parted(Last(r), p, target)
  {
    r := Selected(reg, p);
    NothingToRetire(reg, Last(r).table, p, target);
    r := Activated(reg, r, 1, p, target, map[]);
    r := Stopping(reg, r, p);
    r := Telling(reg, r, p);
    r := OtherBlock(reg, r, 2, YES);
    assert Last(r).calls == map[];
  }

  lemma Stopping(reg: Registry, r0: Trace, p: ProviderId) returns (r: Trace)
    requires Regular(reg, r0) && Quiet(Last(r0), map[]) && p in reg && 2 !in Last(r0).history
    ensures Regular(reg, r) && Last(r).table == Last(r0).table
    ensures Last(r).calls == map[2 := RunFind(p, false)] && Last(r).locks == map[Lifecycle := 2] && 2 in Last(r).history
  {
    r := Go(reg, r0, Begin(2, RunEnter(p, false)));
    r := OtherBlock(reg, r, 2, YES);
    assert Last(r).locks == map[Lifecycle := 2];
  }

  lemma Telling(reg: Registry, r0: Trace, p: ProviderId) returns (r: Trace)
    requires Regular(reg, r0) && Last(r0).table.WellFormed() && p in reg && 2 in Last(r0).history
    requires Last(r0).calls == map[2 := RunFind(p, false)] && Last(r0).locks == map[Lifecycle := 2]
    ensures Regular(reg, r) && Last(r).table == Last(r0).table
    ensures Last(r).calls == map[2 := RunTell(p, false)] && Last(r).locks == map[Lifecycle := 2] && 2 in Last(r).history
  {
    r := OtherBlock(reg, r0, 2, YES);
    assert Last(r).locks == map[Lifecycle := 2];
  }

  // ---------------------------------------------------------------- a late joiner

  /** A call waits for the entry that call 1 is activating. */
  lemma Waited(reg: Registry, r0: Trace, p: ProviderId, target: RouteTarget, e: EntryRef) returns (r: Trace)
    requires Regular(reg, r0) && p in reg && target.peerId != "" && 2 !in Last(r0).history
    requires Quiet(Last(r0), map[1 := ActRetire(p, target, e, {})]) && e < |Last(r0).table.entries|
    requires Last(r0).table.active == p && Last(r0).table.entries[e].state == Activating
    requires KeyOf(p, target) in Last(r0).table.routes && Last(r0).table.routes[KeyOf(p, target)] == e
    ensures Regular(reg, r) && Last(r).table == Last(r0).table && Last(r).locks == map[]
    ensures Last(r).calls == map[1 := ActRetire(p, target, e, {}), 2 := Waiting(p, target, e)]
    ensures Last(r).history.Keys == Last(r0).history.Keys + {2}
  {
    r := Called(reg, r0, 2, p, target);
    r := ActivateBlock(reg, r, 2, YES);
    assert Last(r).locks == map[];
  }

  /** The entry is committed, and a release erases its route before the waiter gets the mutex. */
  lemma Erased(reg: Registry, r0: Trace, p: ProviderId, target: RouteTarget, e: EntryRef) returns (r: Trace)
    requires Regular(reg, r0) && p in reg && e < |Last(r0).table.entries| && 3 !in Last(r0).history
    requires Last(r0).calls == map[2 := Rejoin(p, target, e)] && Last(r0).locks == map[] && Last(r0).table.WellFormed()
    requires Last(r0).table.active == p && Last(r0).table.routes == map[KeyOf(p, target) := e]
    requires Last(r0).table.entries[e] == RouteEntry(target, Last(r0).table.generation, 1, Active)
    ensures Regular(reg, r) && Last(r).table == Last(r0).table.(routes := map[]) && Last(r).locks == map[]
    ensures Last(r).calls == map[2 := Rejoin(p, target, e), 3 := DeaTell(p, target)]
  {
    var key := KeyOf(p, target);
    r := Go(reg, r0, Begin(3, DeaEnter(p, key.peerId, key.targetAddress)));
    r := UseBlock(reg, r, 3, YES.(found := Some(key)));
    assert Last(r).table.routes == map[];
    assert Last(r).locks == map[];
  }

  /** A joiner is about to return true although its route is gone. */
  lemma JoinerMayBeLate(reg: Registry, p: ProviderId, target: RouteTarget)
    returns (r: Trace, e: EntryRef)
    requires ValidRegistry(reg) && p in reg && target.peerId != ""
    ensures Regular(reg, r) && 2 in Last(r).calls && Last(r).calls[2] == Rejoin(p, target, e) && Ready(Last(r), 2)
    ensures e < |Last(r).table.entries| && Last(r).table.routes == map[]
    ensures Last(r).table.entries[e].state == Active
    ensures Last(r).table.entries[e].generation == Last(r).table.generation
  {
    r := Selected(reg, p);
    var t := Last(r).table;
    NothingToRetire(reg, t, p, target);
    CreatedTable(t, p, target, reg[p]);
    r := Entered(reg, r, 1, p, target, map[]);
    e := |t.entries|;
    assert Last(r).table.routes == map[KeyOf(p, target) := e];
    r := Woken(reg, r, p, target, e);
    r := Erased(reg, r, p, target, e);
    r := Go(reg, r, Acquire(2));
  }

  /** The waiter is woken when the entry is committed. */
  lemma Woken(reg: Registry, r0: Trace, p: ProviderId, target: RouteTarget, e: EntryRef) returns (r: Trace)
    requires Regular(reg, r0) && p in reg && target.peerId != "" && Last(r0).history.Keys == {0, 1}
    requires Quiet(Last(r0), map[1 := ActRetire(p, target, e, {})]) && e < |Last(r0).table.entries|
    requires Last(r0).table.active == p && Last(r0).table.routes == map[KeyOf(p, target) := e]
    requires Last(r0).table.entries[e] == RouteEntry(target, Last(r0).table.generation, 1, Activating)
    ensures Regular(reg, r) && Last(r).locks == map[] && 3 !in Last(r).history
    ensures
      var t := Last(r0).table;
      Last(r).table == t.(entries := t.entries[e := t.entries[e].(state := Active)])
    ensures Last(r).calls == map[2 := Rejoin(p, target, e)]
  {
    r := Waited(reg, r0, p, target, e);
    r := Asked(reg, r, 1, true);
    r := Finished(reg, r, 1);
    assert Last(r).calls == map[2 := Rejoin(p, target, e)];
  }
}
