/**
 The care that agreement needs, exactly: whenever a step is not careful, calls already in flight can
 go on so that an Active route is left unserved.
 */
module RoutePartings {
  import opened RouteTable
  import opened RouteProtocol
  import opened RouteLocks
  import opened RouteInvariants
  import opened RouteCoverage
  import opened RouteHistory
  import opened RouteAgreement
  import opened RouteWitness
  import opened Wrappers
  import RouteSteps
  import RouteTheorems

  // ---------------------------------------------------------------- one step

  /** The condition is exact for the invariant: a step from a state that agrees leads to one that
      agrees exactly if it is careful. */
  lemma CarefulExactly(reg: Registry, s: State, step: Step, s': State)
    requires ValidRegistry(reg) && Inv(reg, s) && Agreed(s) && Next(reg, s, step, s')
    ensures Agreed(s') <==> Careful(s, step)
  {
    if Careful(s, step) {
      StepAgrees(reg, s, step, s');
    } else if s.calls[step.c].RunTell? {
      var p, target := StoppedUnderRoute(reg, s, step.c, step.choice);
    } else {
      var d := CreatedInDanger(reg, s, step.c, step.choice);
      assert KeyOf(s.calls[step.c].p, s.calls[step.c].target) in s'.table.routes;
    }
  }

  /** `stopProvider` under an Active route leaves it unserved. */
  lemma StoppedUnderRoute(reg: Registry, s: State, c: CallId, choice: Choice)
    returns (p: ProviderId, target: RouteTarget)
    requires At(reg, s, c, choice) && s.calls[c].RunTell? && !Careful(s, Run(c, choice))
    ensures
      var s' := ExecRun(reg, s, c, choice);
      && s'.table.WellFormed() && Routed(s'.table, p, target) && !Has(s', p, target)
      && KeyOf(p, target) in s'.table.routes && s'.table.At(KeyOf(p, target)).state == Active
      && s'.calls == s.calls - {c}
  {
    var k :| k in s.table.routes && k.providerId == s.calls[c].id && s.table.At(k).state == Active;
    assert RouteOk(reg, s.table, k);
    p, target := k.providerId, s.table.At(k).target;
  }

  /** A new route at entry `n`, whose creator has yet to commit. */
  ghost predicate Fresh(t: Table, p: ProviderId, target: RouteTarget, n: EntryRef) {
    && t.active == p && n < |t.entries| && KeyOf(p, target) in t.routes && t.routes[KeyOf(p, target)] == n
    && t.entries[n].target == target && t.entries[n].generation == t.generation && t.entries[n].state == Activating
  }

  /** Another call is on its way to the provider with that target, and has yet to get its mutex. */
  ghost predicate InDanger(s: State, d: CallId, p: ProviderId, target: RouteTarget, n: EntryRef) {
    && d in s.calls && Threatens(s.calls[d], p, target, n)
    && (s.calls[d].DeaTell? || s.calls[d].ActRetire?) && !Owns(s, d, p)
  }

  /** What a careless creation leaves behind. */
  lemma CreatedInDanger(reg: Registry, s: State, c: CallId, choice: Choice) returns (d: CallId)
    requires At(reg, s, c, choice) && !s.calls[c].RunTell? && !Careful(s, Run(c, choice))
    ensures s.calls[c].ActEnter? && s.calls[c].p in reg
    ensures
      var p, target, n, s' := s.calls[c].p, s.calls[c].target, |s.table.entries|, ExecRun(reg, s, c, choice);
      && s'.table.WellFormed() && Fresh(s'.table, p, target, n)
      && c in s'.calls && s'.calls[c].ActRetire? && s'.calls[c].p == p && s'.calls[c].target == target
      && s'.calls[c].entry == n && c != d && InDanger(s', d, p, target, n)
      && StateMutex !in s'.locks && !Owns(s', c, p) && s'.calls.Keys == s.calls.Keys
  {
    var p, target, n, s' := s.calls[c].p, s.calls[c].target, |s.table.entries|, ExecRun(reg, s, c, choice);
    d :| d in s.calls && d != c && Threatens(s.calls[d], p, target, n) && !Owns(s, d, p);
    assert CallOk(reg, s.table, s.calls[c]) && CallOk(reg, s.table, s.calls[d]);
    RunShape(reg, s, c, choice);
    RouteSteps.CreateMoves(reg, s, c, choice);
    CreateKeeps(reg, s.table, p, target);
    DangerStays(s, c, s', d, p, target, n);
  }

  lemma DangerStays(s: State, c: CallId, s': State, d: CallId, p: ProviderId, target: RouteTarget, n: EntryRef)
    requires LockInv(s) && c in s.calls && Ready(s, c) && Shaped(s, c, s')
    requires s.calls[c].ActEnter? && c in s'.calls && s'.calls[c].ActRetire?
    requires d != c && d in s.calls && Threatens(s.calls[d], p, target, n) && !Owns(s, d, p)
    ensures InDanger(s', d, p, target, n) && StateMutex !in s'.locks && !Owns(s', c, p)
    ensures s'.calls.Keys == s.calls.Keys
  {
    assert !Uses(s.calls[c], Operations(p));
    assert Keeps(s.calls[d]) != Some(Operations(p));
  }

  // ---------------------------------------------------------------- going on

  /** Run `r'` goes on from `r` with steps of calls that are among `movers`, and no other. */
  ghost predicate GoesOn(r: Trace, r': Trace, movers: set<CallId>) {
    && |r.steps| <= |r'.steps| && |r.states| <= |r'.states|
    && r'.steps[..|r.steps|] == r.steps && r'.states[..|r.states|] == r.states
    && forall i :: |r.steps| <= i < |r'.steps| ==>
         (r'.steps[i].Acquire? || r'.steps[i].Run?) && r'.steps[i].c in movers
  }

  /** A run on its way. */
  ghost predicate Under(reg: Registry, r0: Trace, r: Trace, movers: set<CallId>) {
    ValidRegistry(reg) && Regular(reg, r) && GoesOn(r0, r, movers)
  }

  lemma LastHolds(reg: Registry, r: Trace)
    requires ValidRegistry(reg) && Regular(reg, r)
    ensures Inv(reg, Last(r)) && HistoryInv(Last(r))
  {
    RouteTheorems.InvariantAlongRun(reg, r, |r.states| - 1);
    RouteTheorems.LocksAlongRun(reg, r, |r.states| - 1);
  }

  /** What its last state says about one call. */
  lemma LastCall(reg: Registry, r: Trace, c: CallId)
    requires ValidRegistry(reg) && Regular(reg, r) && c in Last(r).calls
    ensures CallOk(reg, Last(r).table, Last(r).calls[c]) && Sound(reg, Last(r), Last(r).calls[c])
  {
    LastHolds(reg, r);
  }

  lemma Move(reg: Registry, r0: Trace, r: Trace, step: Step, movers: set<CallId>) returns (r': Trace)
    requires Under(reg, r0, r, movers) && Enabled(reg, Last(r), step)
    requires (step.Acquire? || step.Run?) && step.c in movers
    requires step.Run? ==> Sound(reg, Last(r), Last(r).calls[step.c])
    ensures Under(reg, r0, r', movers) && Last(r') == Done(reg, Last(r), step)
  {
    r' := Go(reg, r, step);
  }

  /** The call takes the lock it wants. */
  lemma Lock(reg: Registry, r0: Trace, r: Trace, c: CallId, movers: set<CallId>) returns (r': Trace)
    requires Under(reg, r0, r, movers) && c in movers && c in Last(r).calls
    requires Wants(Last(r).calls[c]).Some? && Wants(Last(r).calls[c]).value !in Last(r).locks
    ensures Under(reg, r0, r', movers) && Last(r') == Owning(Last(r), c)
  {
    r' := Move(reg, r0, r, Acquire(c), movers);
  }

  /** It runs its block. */
  lemma Step(reg: Registry, r0: Trace, r: Trace, c: CallId, choice: Choice, movers: set<CallId>) returns (r': Trace)
    requires Under(reg, r0, r, movers) && c in movers && Fires(reg, Last(r), c, choice)
    ensures Under(reg, r0, r', movers) && Last(r') == ExecRun(reg, Last(r), c, choice)
    ensures Shaped(Last(r), c, Last(r'))
  {
    RunShape(reg, Last(r), c, choice);
    r' := Move(reg, r0, r, Run(c, choice), movers);
  }

  // ---------------------------------------------------------------- the owner of the provider

  /** How many blocks a call that has the provider may still run before it gives it up. */
  function Ahead(pc: Pc): nat {
    match pc
    case ActRetire(_, _, _, retired) => |retired| + 4
    case ActAsk(_, _, _, retired) => |retired| + 3
    case ActCommit(_, _, _, _) => 2
    case PreAsk(_, _, _) => 2
    case _ => 1
  }

  /** It owns the provider and, if it wants the state mutex, that too. */
  ghost predicate Holding(s: State, x: CallId, p: ProviderId) {
    Owns(s, x, p) && (StateMutex in s.locks ==> x in s.calls && Wants(s.calls[x]) == Some(StateMutex))
  }

  lemma HolderRuns(reg: Registry, s: State, x: CallId, p: ProviderId, choice: Choice)
    requires At(reg, s, x, choice) && Holding(s, x, p) && s.table.active == p && p in reg
    ensures
      var s' := ExecRun(reg, s, x, choice);
      && StateMutex !in s'.locks
      && (Operations(p) in s'.locks ==> Owns(s', x, p) && x in s'.calls && Ahead(s'.calls[x]) < Ahead(s.calls[x]))
  {
    assert Uses(s.calls[x], Operations(p));
    RunShape(reg, s, x, choice);
    HolderGetsOn(reg, s, x, p, choice);
    HolderReleases(s, x, ExecRun(reg, s, x, choice), p);
  }

  lemma HolderReleases(s: State, x: CallId, s': State, p: ProviderId)
    requires LockInv(s) && x in s.calls && Shaped(s, x, s') && Holding(s, x, p)
    ensures StateMutex !in s'.locks
    ensures Operations(p) in s'.locks ==> Owns(s', x, p) && x in s'.calls && Keeps(s'.calls[x]) == Some(Operations(p))
  {
    assert Uses(s.calls[x], Operations(p));
  }

  lemma HolderGetsOn(reg: Registry, s: State, x: CallId, p: ProviderId, choice: Choice)
    requires At(reg, s, x, choice) && Uses(s.calls[x], Operations(p)) && s.table.active == p && p in reg
    ensures
      var s' := ExecRun(reg, s, x, choice);
      x in s'.calls && Keeps(s'.calls[x]) == Some(Operations(p)) ==> Ahead(s'.calls[x]) < Ahead(s.calls[x])
  {
    assert CallOk(reg, s.table, s.calls[x]);
    if IsActivate(s.calls[x]) {
      ActivationGetsOn(reg, s, x, choice);
    }
  }

  lemma ActivationGetsOn(reg: Registry, s: State, x: CallId, choice: Choice)
    requires Fires(reg, s, x, choice) && IsActivate(s.calls[x]) && !s.calls[x].ActFind?
    requires !s.calls[x].ActEnter? && !s.calls[x].Rejoin?
    ensures
      var s' := ExecActivate(reg, s, x, choice);
      x in s'.calls ==> Ahead(s'.calls[x]) < Ahead(s.calls[x])
  {
  }

  /** The only thing that it may do to the table is to commit its own entry. */
  lemma HolderAndTable(reg: Registry, s: State, x: CallId, p: ProviderId, choice: Choice)
    requires At(reg, s, x, choice) && Uses(s.calls[x], Operations(p)) && s.table.active == p && p in reg
    requires !s.calls[x].ActCommit?
    ensures ExecRun(reg, s, x, choice).table == s.table
  {
    assert CallOk(reg, s.table, s.calls[x]);
  }

  lemma FreshStays(t: Table, p: ProviderId, target: RouteTarget, n: EntryRef, key: RouteKey, q: ProviderId,
                   e: EntryRef, activated: bool)
    requires Fresh(t, p, target, n) && e < |t.entries| && e != n
    ensures Fresh(Commit(t, q, key, e, activated), p, target, n)
  {
  }

  lemma HolderKeepsFresh(reg: Registry, s: State, x: CallId, p: ProviderId, choice: Choice, c: CallId,
                         target: RouteTarget, n: EntryRef)
    requires At(reg, s, x, choice) && Uses(s.calls[x], Operations(p)) && p in reg && Fresh(s.table, p, target, n)
    requires c in s.calls && c != x && IsCreator(s.calls[c]) && s.calls[c].entry == n
    ensures Fresh(ExecRun(reg, s, x, choice).table, p, target, n)
  {
    var pc := s.calls[x];
    if pc.ActCommit? {
      CommittedState(reg, s, x, choice);
      FreshStays(s.table, p, target, n, KeyOf(pc.p, pc.target), pc.p, pc.entry, pc.activated);
    } else {
      HolderAndTable(reg, s, x, p, choice);
    }
  }

  /** One block of the owner. */
  lemma Advance(reg: Registry, r0: Trace, r: Trace, x: CallId, p: ProviderId, movers: set<CallId>)
    returns (r': Trace, s: State, choice: Choice)
    requires Under(reg, r0, r, movers) && x in movers && Owns(Last(r), x, p) && StateMutex !in Last(r).locks
    ensures Under(reg, r0, r', movers) && Fires(reg, s, x, choice) && Inv(reg, s) && Holding(s, x, p)
    ensures s.table == Last(r).table && s.calls == Last(r).calls && Last(r') == ExecRun(reg, s, x, choice)
    ensures Shaped(s, x, Last(r'))
  {
    var r1 := r;
    LastHolds(reg, r);
    assert Uses(Last(r).calls[x], Operations(p));
    if Wants(Last(r).calls[x]) == Some(StateMutex) {
      r1 := Lock(reg, r0, r, x, movers);
    }
    s := Last(r1);
    LastHolds(reg, r1);
    assert CallOk(reg, s.table, s.calls[x]);
    choice := RouteTheorems.SomeChoice(reg, s, s.calls[x]);
    r' := Step(reg, r0, r1, x, choice, movers);
  }

  /** A new route, its creator and the call that endangers it, both still waiting for the provider. */
  ghost predicate Poised(s: State, c: CallId, d: CallId, p: ProviderId, target: RouteTarget, n: EntryRef) {
    && Fresh(s.table, p, target, n) && StateMutex !in s.locks && c != d
    && c in s.calls && s.calls[c].ActRetire? && s.calls[c].p == p && s.calls[c].target == target
    && s.calls[c].entry == n && !Owns(s, c, p) && InDanger(s, d, p, target, n)
  }

  /** The owner goes on until it gives the provider up. */
  lemma {:induction false} Leave(reg: Registry, r0: Trace, r: Trace, x: CallId, c: CallId, d: CallId, p: ProviderId,
                                 target: RouteTarget, n: EntryRef, movers: set<CallId>)
    returns (r': Trace)
    requires Under(reg, r0, r, movers) && x in movers && Poised(Last(r), c, d, p, target, n) && p in reg
    requires Owns(Last(r), x, p)
    ensures Under(reg, r0, r', movers) && Poised(Last(r'), c, d, p, target, n) && Operations(p) !in Last(r').locks
    ensures Last(r').calls.Keys <= Last(r).calls.Keys
    decreases if x in Last(r).calls then Ahead(Last(r).calls[x]) else 0
  {
    var s, choice;
    r', s, choice := Advance(reg, r0, r, x, p, movers);
    assert Uses(s.calls[x], Operations(p));
    HolderRuns(reg, s, x, p, choice);
    HolderKeepsFresh(reg, s, x, p, choice, c, target, n);
    assert Last(r').calls[c] == s.calls[c] && Last(r').calls[d] == s.calls[d];
    if Operations(p) in Last(r').locks {
      r' := Leave(reg, r0, r', x, c, d, p, target, n, movers);
    }
  }

  // ---------------------------------------------------------------- activating

  /** Of table and calls, only call `c` has moved. */
  ghost predicate OnlyMoves(s: State, c: CallId, s': State) {
    s'.table == s.table && c in s.calls && c in s'.calls && s'.calls == s.calls[c := s'.calls[c]]
  }

  /** A creator that has the provider has it drop all that it retired. */
  lemma {:induction false} DropAll(reg: Registry, r0: Trace, r: Trace, c: CallId, movers: set<CallId>)
    returns (r': Trace)
    requires Under(reg, r0, r, movers) && c in movers && c in Last(r).calls && Last(r).calls[c].ActAsk?
    requires StateMutex !in Last(r).locks
    ensures Under(reg, r0, r', movers) && OnlyMoves(Last(r), c, Last(r')) && StateMutex !in Last(r').locks
    ensures
      var pc := Last(r).calls[c];
      && Last(r').calls[c] == ActAsk(pc.p, pc.target, pc.entry, {})
      && forall target :: target in pc.retired || !Has(Last(r), pc.p, target) ==> !Has(Last(r'), pc.p, target)
    decreases if c in Last(r).calls && Last(r).calls[c].ActAsk? then |Last(r).calls[c].retired| else 0
  {
    if Last(r).calls[c].retired == {} {
      r' := r;
    } else {
      r' := DropOne(reg, r0, r, c, movers);
      r' := DropAll(reg, r0, r', c, movers);
    }
  }

  lemma DropOne(reg: Registry, r0: Trace, r: Trace, c: CallId, movers: set<CallId>) returns (r': Trace)
    requires Under(reg, r0, r, movers) && c in movers && c in Last(r).calls && Last(r).calls[c].ActAsk?
    requires StateMutex !in Last(r).locks && Last(r).calls[c].retired != {}
    ensures Under(reg, r0, r', movers) && OnlyMoves(Last(r), c, Last(r')) && StateMutex !in Last(r').locks
    ensures
      var pc, s' := Last(r).calls[c], Last(r');
      && s'.calls[c].ActAsk? && s'.calls[c] == ActAsk(pc.p, pc.target, pc.entry, s'.calls[c].retired)
      && |s'.calls[c].retired| < |pc.retired|
      && forall target :: target !in s'.calls[c].retired && (target in pc.retired || !Has(Last(r), pc.p, target)) ==>
           !Has(s', pc.p, target)
  {
    var pc := Last(r).calls[c];
    var victim :| victim in pc.retired;
    LastCall(reg, r, c);
    r' := Step(reg, r0, r, c, YES.(victim := victim), movers);
    assert Last(r').calls[c] == ActAsk(pc.p, pc.target, pc.entry, pc.retired - {victim});
  }

  /** It gets the provider and its answer. */
  lemma GetAnswer(reg: Registry, r0: Trace, r: Trace, c: CallId, answer: bool, movers: set<CallId>)
    returns (r': Trace)
    requires Under(reg, r0, r, movers) && c in movers && c in Last(r).calls && Last(r).calls[c].ActRetire?
    requires StateMutex !in Last(r).locks && Operations(Last(r).calls[c].p) !in Last(r).locks
    ensures Under(reg, r0, r', movers) && OnlyMoves(Last(r), c, Last(r')) && StateMutex !in Last(r').locks
    ensures
      var pc, s' := Last(r).calls[c], Last(r');
      && s'.calls[c] == ActCommit(pc.p, pc.target, pc.entry, answer)
      && (answer ==> Has(s', pc.p, pc.target))
      && (!answer ==> forall target :: target in pc.retired ==> !Has(s', pc.p, target))
  {
    r' := GetProvider(reg, r0, r, c, movers);
    r' := DropAll(reg, r0, r', c, movers);
    r' := Answer(reg, r0, r', c, answer, movers);
  }

  lemma GetProvider(reg: Registry, r0: Trace, r: Trace, c: CallId, movers: set<CallId>) returns (r': Trace)
    requires Under(reg, r0, r, movers) && c in movers && c in Last(r).calls && Last(r).calls[c].ActRetire?
    requires StateMutex !in Last(r).locks && Operations(Last(r).calls[c].p) !in Last(r).locks
    ensures Under(reg, r0, r', movers) && OnlyMoves(Last(r), c, Last(r')) && StateMutex !in Last(r').locks
    ensures
      var pc := Last(r).calls[c];
      Last(r').calls[c] == ActAsk(pc.p, pc.target, pc.entry, pc.retired)
  {
    LastCall(reg, r, c);
    r' := Lock(reg, r0, r, c, movers);
    r' := Step(reg, r0, r', c, YES, movers);
  }

  lemma Answer(reg: Registry, r0: Trace, r: Trace, c: CallId, answer: bool, movers: set<CallId>) returns (r': Trace)
    requires Under(reg, r0, r, movers) && c in movers && c in Last(r).calls && StateMutex !in Last(r).locks
    requires Last(r).calls[c].ActAsk? && Last(r).calls[c].retired == {}
    ensures Under(reg, r0, r', movers) && OnlyMoves(Last(r), c, Last(r')) && StateMutex !in Last(r').locks
    ensures
      var pc, s' := Last(r).calls[c], Last(r');
      && s'.calls[c] == ActCommit(pc.p, pc.target, pc.entry, answer)
      && (answer ==> Has(s', pc.p, pc.target)) && (!answer ==> s'.accepted == Last(r).accepted)
  {
    LastCall(reg, r, c);
    r' := Step(reg, r0, r, c, YES.(answer := answer), movers);
  }

  /** An Active route at entry `n`. */
  ghost predicate Settled(t: Table, p: ProviderId, target: RouteTarget, n: EntryRef) {
    t.WellFormed() && Routed(t, p, target) && t.routes[KeyOf(p, target)] == n
  }

  /** The creator of a new route commits it. */
  lemma Keep(reg: Registry, r0: Trace, r: Trace, c: CallId, p: ProviderId, target: RouteTarget, n: EntryRef,
             movers: set<CallId>)
    returns (r': Trace)
    requires Under(reg, r0, r, movers) && c in movers && c in Last(r).calls && StateMutex !in Last(r).locks
    requires Last(r).calls[c] == ActCommit(p, target, n, true) && Fresh(Last(r).table, p, target, n)
    ensures Under(reg, r0, r', movers) && OthersStay(Last(r), c, Last(r')) && c !in Last(r').calls
    ensures Settled(Last(r').table, p, target, n)
    ensures StateMutex !in Last(r').locks && Operations(p) !in Last(r').locks
  {
    r' := Lock(reg, r0, r, c, movers);
    var s := Last(r');
    LastHolds(reg, r');
    assert CallOk(reg, s.table, s.calls[c]);
    RouteTheorems.CommitVerdict(reg, s, c, YES);
    r' := Step(reg, r0, r', c, YES, movers);
  }

  /** Another creator commits or loses its entry; the Active route stays. */
  lemma Decide(reg: Registry, r0: Trace, r: Trace, d: CallId, p: ProviderId, target: RouteTarget, n: EntryRef,
               movers: set<CallId>)
    returns (r': Trace)
    requires Under(reg, r0, r, movers) && d in movers && d in Last(r).calls && StateMutex !in Last(r).locks
    requires Last(r).calls[d].ActCommit? && Settled(Last(r).table, p, target, n)
    ensures Under(reg, r0, r', movers) && OthersStay(Last(r), d, Last(r')) && Settled(Last(r').table, p, target, n)
    ensures Last(r').accepted == Last(r).accepted
    ensures
      var pc := Last(r).calls[d];
      if pc.activated && KeyOf(pc.p, pc.target) == KeyOf(p, target)
      then d in Last(r').calls && Last(r').calls[d] == ActUndo(pc.p, pc.target)
      else !pc.activated ==> d !in Last(r').calls
  {
    r' := Lock(reg, r0, r, d, movers);
    var s, pc := Last(r'), Last(r').calls[d];
    LastHolds(reg, r');
    assert CallOk(reg, s.table, pc);
    CommittedState(reg, s, d, YES);
    CommitRoutes(reg, s.table, pc.p, pc.target, pc.entry, pc.activated);
    r' := Step(reg, r0, r', d, YES, movers);
    DecidedCall(reg, s, d);
  }

  lemma DecidedCall(reg: Registry, s: State, d: CallId)
    requires Fires(reg, s, d, YES) && s.calls[d].ActCommit?
    ensures
      var pc, s' := s.calls[d], ExecRun(reg, s, d, YES);
      d in s'.calls <==> pc.activated && !Current(s.table, pc.p, KeyOf(pc.p, pc.target), pc.entry)
  {
  }

  /** An Active route that its provider does not serve. */
  ghost predicate Unserved(s: State, p: ProviderId, target: RouteTarget) {
    s.table.WellFormed() && Routed(s.table, p, target) && !Has(s, p, target)
  }

  /** The late call gets to the provider: a deactivation ... */
  lemma StrikeByRelease(reg: Registry, r0: Trace, r: Trace, d: CallId, p: ProviderId, target: RouteTarget,
                        movers: set<CallId>)
    returns (r': Trace)
    requires Under(reg, r0, r, movers) && d in movers && d in Last(r).calls
    requires Last(r).calls[d] == DeaTell(p, target) && Operations(p) !in Last(r).locks
    ensures Under(reg, r0, r', movers) && Last(r').table == Last(r).table && !Has(Last(r'), p, target)
    ensures Last(r').calls.Keys == Last(r).calls.Keys - {d}
  {
    LastCall(reg, r, d);
    r' := Lock(reg, r0, r, d, movers);
    r' := Step(reg, r0, r', d, YES, movers);
  }

  /** ... a rival activation, which takes its target back ... */
  lemma StrikeByRival(reg: Registry, r0: Trace, r: Trace, d: CallId, p: ProviderId, target: RouteTarget, n: EntryRef,
                      movers: set<CallId>)
    returns (r': Trace)
    requires Under(reg, r0, r, movers) && d in movers && d in Last(r).calls && StateMutex !in Last(r).locks
    requires Operations(p) !in Last(r).locks && Settled(Last(r).table, p, target, n)
    requires Last(r).calls[d].ActRetire? && Last(r).calls[d].p == p && Last(r).calls[d].target == target
    ensures Under(reg, r0, r', movers) && Settled(Last(r').table, p, target, n) && !Has(Last(r'), p, target)
    ensures Last(r').calls.Keys == Last(r).calls.Keys - {d}
  {
    r' := GetAnswer(reg, r0, r, d, true, movers);
    r' := Decide(reg, r0, r', d, p, target, n, movers);
    r' := TakeBack(reg, r0, r', d, p, target, movers);
  }

  lemma TakeBack(reg: Registry, r0: Trace, r: Trace, d: CallId, p: ProviderId, target: RouteTarget,
                 movers: set<CallId>)
    returns (r': Trace)
    requires Under(reg, r0, r, movers) && d in movers && d in Last(r).calls && Last(r).calls[d] == ActUndo(p, target)
    ensures Under(reg, r0, r', movers) && Last(r').table == Last(r).table && !Has(Last(r'), p, target)
    ensures Last(r').calls.Keys == Last(r).calls.Keys - {d}
  {
    LastCall(reg, r, d);
    r' := Step(reg, r0, r, d, YES, movers);
  }

  /** ... or a replacement, which the provider then refuses. */
  lemma StrikeByReplacement(reg: Registry, r0: Trace, r: Trace, d: CallId, p: ProviderId, target: RouteTarget,
                            n: EntryRef, movers: set<CallId>)
    returns (r': Trace)
    requires Under(reg, r0, r, movers) && d in movers && d in Last(r).calls && StateMutex !in Last(r).locks
    requires Operations(p) !in Last(r).locks && Settled(Last(r).table, p, target, n)
    requires Last(r).calls[d].ActRetire? && Last(r).calls[d].p == p && target in Last(r).calls[d].retired
    ensures Under(reg, r0, r', movers) && Settled(Last(r').table, p, target, n) && !Has(Last(r'), p, target)
    ensures Last(r').calls.Keys == Last(r).calls.Keys - {d}
  {
    r' := GetAnswer(reg, r0, r, d, false, movers);
    r' := Decide(reg, r0, r', d, p, target, n, movers);
  }

  lemma Strike(reg: Registry, r0: Trace, r: Trace, d: CallId, p: ProviderId, target: RouteTarget, n: EntryRef,
               movers: set<CallId>)
    returns (r': Trace)
    requires Under(reg, r0, r, movers) && d in movers && Settled(Last(r).table, p, target, n)
    requires StateMutex !in Last(r).locks && Operations(p) !in Last(r).locks
    requires InDanger(Last(r), d, p, target, n)
    ensures Under(reg, r0, r', movers) && Unserved(Last(r'), p, target)
    ensures Last(r').calls.Keys == Last(r).calls.Keys - {d}
  {
    if Last(r).calls[d].DeaTell? {
      r' := StrikeByRelease(reg, r0, r, d, p, target, movers);
    } else if Last(r).calls[d].target == target {
      r' := StrikeByRival(reg, r0, r, d, p, target, n, movers);
    } else {
      r' := StrikeByReplacement(reg, r0, r, d, p, target, n, movers);
    }
  }

  // ---------------------------------------------------------------- the result

  /** From where a careless creation leaves it, a run can go on until the new route is unserved. */
  lemma PoisedParts(reg: Registry, r0: Trace, r: Trace, c: CallId, d: CallId, p: ProviderId, target: RouteTarget,
                    n: EntryRef, movers: set<CallId>)
    returns (r': Trace)
    requires Under(reg, r0, r, movers) && Poised(Last(r), c, d, p, target, n) && p in reg
    requires movers == Last(r).calls.Keys
    ensures Under(reg, r0, r', movers) && Unserved(Last(r'), p, target)
    ensures Last(r').calls.Keys <= Last(r).calls.Keys - {c, d}
  {
    r' := FreeProvider(reg, r0, r, c, d, p, target, n, movers);
    r' := Establish(reg, r0, r', c, d, p, target, n, movers);
    r' := Strike(reg, r0, r', d, p, target, n, movers);
  }

  lemma FreeProvider(reg: Registry, r0: Trace, r: Trace, c: CallId, d: CallId, p: ProviderId, target: RouteTarget,
                     n: EntryRef, movers: set<CallId>)
    returns (r': Trace)
    requires Under(reg, r0, r, movers) && Poised(Last(r), c, d, p, target, n) && p in reg
    requires movers == Last(r).calls.Keys
    ensures Under(reg, r0, r', movers) && Poised(Last(r'), c, d, p, target, n) && Operations(p) !in Last(r').locks
    ensures Last(r').calls.Keys <= Last(r).calls.Keys
  {
    r' := r;
    if Operations(p) in Last(r).locks {
      LastHolds(reg, r);
      r' := Leave(reg, r0, r, Last(r).locks[Operations(p)], c, d, p, target, n, movers);
    }
  }

  /** The new route is accepted and committed, the other call still waiting. */
  lemma Establish(reg: Registry, r0: Trace, r: Trace, c: CallId, d: CallId, p: ProviderId, target: RouteTarget,
                  n: EntryRef, movers: set<CallId>)
    returns (r': Trace)
    requires Under(reg, r0, r, movers) && Poised(Last(r), c, d, p, target, n) && Operations(p) !in Last(r).locks
    requires {c, d} <= movers
    ensures Under(reg, r0, r', movers) && Settled(Last(r').table, p, target, n)
    ensures StateMutex !in Last(r').locks && Operations(p) !in Last(r').locks
    ensures InDanger(Last(r'), d, p, target, n) && Last(r').calls.Keys == Last(r).calls.Keys - {c}
  {
    r' := GetAnswer(reg, r0, r, c, true, movers);
    r' := Keep(reg, r0, r', c, p, target, n, movers);
  }

  /** A run whose last step is not careful. */
  ghost predicate EndsCareless(reg: Registry, r: Trace) {
    && Regular(reg, r) && r.steps != []
    && !Careful(r.states[|r.states| - 2], r.steps[|r.steps| - 1])
  }

  /** After a careless step of call `c`, calls in flight alone can bring about an Active route that
      its provider does not serve: a late call `d` has had it dropped. Both are done by then, so
      with no further call in flight table and provider have parted. */
  lemma CarelessStepParts(reg: Registry, r: Trace)
    returns (r': Trace, d: CallId, p: ProviderId, target: RouteTarget)
    requires ValidRegistry(reg) && EndsCareless(reg, r)
    ensures Regular(reg, r') && GoesOn(r, r', Last(r).calls.Keys) && Unserved(Last(r'), p, target)
    ensures
      var others := Last(r).calls.Keys - {r.steps[|r.steps| - 1].c, d};
      Last(r').calls.Keys <= others && (others == {} ==> Parted(Last(r'), p, target))
  {
    var s, step := r.states[|r.states| - 2], r.steps[|r.steps| - 1];
    LastStep(reg, r);
    r', d, p, target := CarelessBlockParts(reg, r, s, step.c, step.choice);
    assert Last(r').calls.Keys == {} ==> Last(r').calls == map[];
  }

  lemma StepAt(reg: Registry, r: Trace, n: nat)
    requires ValidRegistry(reg) && Regular(reg, r) && n < |r.steps|
    ensures Inv(reg, r.states[n]) && Next(reg, r.states[n], r.steps[n], r.states[n + 1])
  {
    RouteTheorems.InvariantAlongRun(reg, r, n);
  }

  lemma LastStep(reg: Registry, r: Trace)
    requires ValidRegistry(reg) && Regular(reg, r) && r.steps != []
    ensures Inv(reg, r.states[|r.states| - 2])
    ensures Next(reg, r.states[|r.states| - 2], r.steps[|r.steps| - 1], Last(r))
  {
    StepAt(reg, r, |r.steps| - 1);
  }

  lemma CarelessBlockParts(reg: Registry, r: Trace, s: State, c: CallId, choice: Choice)
    returns (r': Trace, d: CallId, p: ProviderId, target: RouteTarget)
    requires r.states != [] && Under(reg, r, r, Last(r).calls.Keys)
    requires At(reg, s, c, choice) && !Careful(s, Run(c, choice)) && Last(r) == ExecRun(reg, s, c, choice)
    ensures Under(reg, r, r', Last(r).calls.Keys) && Unserved(Last(r'), p, target)
    ensures Last(r').calls.Keys <= Last(r).calls.Keys - {c, d}
  {
    if s.calls[c].RunTell? {
      p, target := StoppedUnderRoute(reg, s, c, choice);
      r', d := r, c;
    } else {
      d := CreatedInDanger(reg, s, c, choice);
      p, target := s.calls[c].p, s.calls[c].target;
      r' := PoisedParts(reg, r, r, c, d, p, target, |s.table.entries|, Last(r).calls.Keys);
    }
  }
}
