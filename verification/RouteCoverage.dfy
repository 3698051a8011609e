/**
 No route is leaked: whatever a provider has accepted and not dropped is the target of an
 Active route, or some call in flight is about to make the provider drop it.
 */
module RouteCoverage {
  import opened RouteTable
  import opened RouteProtocol
  import opened RouteLocks
  import opened RouteInvariants
  import opened Wrappers

  /** The table has an Active route of `p` with this target. */
  ghost predicate Routed(t: Table, p: ProviderId, target: RouteTarget)
    requires t.WellFormed()
  {
    var k := KeyOf(p, target);
    k in t.routes && t.At(k).state == Active && t.At(k).target == target
  }

  /** A call at `pc` will have `p` drop this target, or put it into the table, or stop `p`. */
  predicate Owes(pc: Pc, p: ProviderId, target: RouteTarget) {
    || ((pc.ActRetire? || pc.ActAsk?) && pc.p == p && target in pc.retired)
    || (pc.ActCommit? && pc.activated && pc.p == p && pc.target == target)
    || ((pc.ActUndo? || pc.DeaTell?) && pc.p == p && pc.target == target)
    || (pc.SelHalt? && pc.halted == p)
  }

  ghost predicate Has(s: State, p: ProviderId, target: RouteTarget) {
    p in s.accepted && target in s.accepted[p]
  }

  ghost predicate Covered(s: State)
    requires s.table.WellFormed()
  {
    forall p, target :: Has(s, p, target) ==>
      Routed(s.table, p, target) || exists c :: c in s.calls && Owes(s.calls[c], p, target)
  }

  /** The part of coverage that a step of call `c` has to account for. */
  ghost predicate AccountsFor(s: State, c: CallId, s': State)
    requires s.table.WellFormed() && s'.table.WellFormed() && c in s.calls
  {
    forall p, target :: Has(s', p, target) ==>
      || Routed(s'.table, p, target)
      || (c in s'.calls && Owes(s'.calls[c], p, target))
      || (Has(s, p, target) && !Routed(s.table, p, target) && !Owes(s.calls[c], p, target))
  }

  lemma AccountKeepsCoverage(s: State, c: CallId, s': State)
    requires s.table.WellFormed() && s'.table.WellFormed() && c in s.calls
    requires Covered(s) && OthersStay(s, c, s') && AccountsFor(s, c, s')
    ensures Covered(s')
  {
    forall p, target | Has(s', p, target)
      ensures Routed(s'.table, p, target) || exists d :: d in s'.calls && Owes(s'.calls[d], p, target)
    {
      if !Routed(s'.table, p, target) && !(c in s'.calls && Owes(s'.calls[c], p, target)) {
        var d :| d in s.calls && Owes(s.calls[d], p, target);
        assert d in s'.calls && Owes(s'.calls[d], p, target);
      }
    }
  }

  /** Creating a route keeps the Active ones, except those it replaces. */
  lemma CreateRoutes(reg: Registry, t: Table, p: ProviderId, target: RouteTarget, q: ProviderId, r: RouteTarget)
    requires TableInv(reg, t) && p in reg && t.active == p && KeyOf(p, target) !in t.routes && Routed(t, q, r)
    requires Create(t, p, target, reg[p]).WellFormed()
    ensures q == p
    ensures Routed(Create(t, p, target, reg[p]), q, r) || r in ActiveTargets(t, Replaced(t, p, target, reg[p]))
  {
    var k := KeyOf(q, r);
    var doomed := Replaced(t, p, target, reg[p]);
    CreateEntries(t, p, target, reg[p]);
    assert RouteOk(reg, t, k);
    if k !in doomed {
      assert doomed == {};
      assert t.routes[k] !in Refs(t, doomed);
    }
  }

  /** A new exclusive route owes what it replaces. */
  lemma CreateAccounts(reg: Registry, s: State, c: CallId, choice: Choice)
    requires At(reg, s, c, choice) && s.calls[c].ActEnter?
    requires s.table.active == s.calls[c].p && KeyOf(s.calls[c].p, s.calls[c].target) !in s.table.routes
    ensures ExecActivate(reg, s, c, choice).table.WellFormed()
    ensures AccountsFor(s, c, ExecActivate(reg, s, c, choice))
  {
    var p, target, t := s.calls[c].p, s.calls[c].target, s.table;
    var s' := ExecActivate(reg, s, c, choice);
    CreateKeeps(reg, t, p, target);
    forall q, r | Routed(t, q, r)
      ensures Routed(s'.table, q, r) || Owes(s'.calls[c], q, r)
    {
      CreateRoutes(reg, t, p, target, q, r);
    }
  }

  /** Committing an entry keeps the Active routes, and adds its own when it is kept. */
  lemma CommitRoutes(reg: Registry, t: Table, p: ProviderId, target: RouteTarget, e: EntryRef, activated: bool)
    requires TableInv(reg, t) && e < |t.entries|
    requires t.entries[e].target == target && t.entries[e].state != Active
    requires t.entries[e].state == Activating ==> KeyOf(p, target) in t.routes && t.routes[KeyOf(p, target)] == e
    ensures Commit(t, p, KeyOf(p, target), e, activated).WellFormed()
    ensures forall q, r :: Routed(t, q, r) ==> Routed(Commit(t, p, KeyOf(p, target), e, activated), q, r)
    ensures activated && Current(t, p, KeyOf(p, target), e) ==>
      Routed(Commit(t, p, KeyOf(p, target), e, activated), p, target)
  {
    CommitKeeps(reg, t, p, target, e, activated);
    CurrentIsActivating(reg, t, p, target, e);
    forall q, r | Routed(t, q, r)
      ensures Routed(Commit(t, p, KeyOf(p, target), e, activated), q, r)
    {
      assert t.routes[KeyOf(q, r)] != e;
    }
  }

  lemma CommitAccounts(reg: Registry, s: State, c: CallId, choice: Choice)
    requires At(reg, s, c, choice) && s.calls[c].ActCommit?
    ensures ExecActivate(reg, s, c, choice).table.WellFormed()
    ensures AccountsFor(s, c, ExecActivate(reg, s, c, choice))
  {
    var pc := s.calls[c];
    CommitRoutes(reg, s.table, pc.p, pc.target, pc.entry, pc.activated);
  }

  lemma ReleasedState(reg: Registry, s: State, c: CallId, choice: Choice)
    requires Fires(reg, s, c, choice) && s.calls[c].DeaEnter?
    ensures
      var found, s' := choice.found, ExecUse(reg, s, c, choice);
      && s'.table == Release(s.table, found) && s'.accepted == s.accepted
      && (c in s'.calls ==>
            && found.Some? && found.value !in s'.table.routes
            && s'.calls[c] == DeaTell(s.calls[c].p, s.table.At(found.value).target))
      && (found.Some? ==> found.value.providerId == s.calls[c].p)
      && (ReleaseVerdict(s.table, found).Erased? && s.table.active == s.calls[c].p && s.calls[c].p in reg ==>
            c in s'.calls)
  {
  }

  lemma ReleaseAccounts(reg: Registry, s: State, c: CallId, choice: Choice)
    requires At(reg, s, c, choice) && s.calls[c].DeaEnter?
    ensures ExecUse(reg, s, c, choice).table.WellFormed()
    ensures AccountsFor(s, c, ExecUse(reg, s, c, choice))
  {
    var s' := ExecUse(reg, s, c, choice);
    ReleasedState(reg, s, c, choice);
    ReleaseKeeps(reg, s.table, choice.found);
    forall q, r | Routed(s.table, q, r)
      ensures Routed(s'.table, q, r) || (c in s'.calls && Owes(s'.calls[c], q, r))
    {
      ReleaseRoutes(reg, s.table, choice.found, q, r);
    }
  }

  /** A release loses at most the route it found, of the active provider. */
  lemma ReleaseRoutes(reg: Registry, t: Table, found: Option<RouteKey>, q: ProviderId, r: RouteTarget)
    requires TableInv(reg, t) && (found.Some? ==> found.value in t.routes) && Routed(t, q, r)
    requires Release(t, found).WellFormed()
    ensures
      || Routed(Release(t, found), q, r)
      || (ReleaseVerdict(t, found) == Erased(r) && found == Some(KeyOf(q, r)) && q == t.active && q in reg)
  {
    assert RouteOk(reg, t, KeyOf(q, r));
    if found.Some? && found.value != KeyOf(q, r) {
      RoutesDiffer(reg, t, found.value, KeyOf(q, r));
    }
  }

  lemma StopAccounts(reg: Registry, s: State, c: CallId, choice: Choice)
    requires At(reg, s, c, choice) && s.calls[c].SelStop?
    ensures ExecSelect(reg, s, c, choice).table.WellFormed()
    ensures AccountsFor(s, c, ExecSelect(reg, s, c, choice))
  {
    StopKeeps(reg, s.table);
    forall q, r | Routed(s.table, q, r)
      ensures q == s.table.active && q in reg
    {
      assert RouteOk(reg, s.table, KeyOf(q, r));
    }
  }

  lemma EnterAccounts(reg: Registry, s: State, c: CallId, choice: Choice)
    requires At(reg, s, c, choice) && s.calls[c].ActEnter?
    ensures ExecActivate(reg, s, c, choice).table.WellFormed()
    ensures AccountsFor(s, c, ExecActivate(reg, s, c, choice))
  {
    var pc := s.calls[c];
    if s.table.active == pc.p && KeyOf(pc.p, pc.target) !in s.table.routes {
      CreateAccounts(reg, s, c, choice);
    }
  }

  /** A block that leaves the table alone, or only counts a reference. */
  lemma JoinAccounts(reg: Registry, s: State, c: CallId, choice: Choice)
    requires At(reg, s, c, choice) && s.calls[c].Rejoin?
    ensures ExecActivate(reg, s, c, choice).table.WellFormed()
    ensures AccountsFor(s, c, ExecActivate(reg, s, c, choice))
  {
  }

  lemma FindAccounts(reg: Registry, s: State, c: CallId, choice: Choice)
    requires s.table.WellFormed() && Fires(reg, s, c, choice) && s.calls[c].ActFind?
    ensures ExecActivate(reg, s, c, choice).table.WellFormed()
    ensures AccountsFor(s, c, ExecActivate(reg, s, c, choice))
  {
  }

  lemma AskAccounts(reg: Registry, s: State, c: CallId, choice: Choice)
    requires At(reg, s, c, choice) && (s.calls[c].ActRetire? || s.calls[c].ActAsk? || s.calls[c].ActUndo?)
    ensures ExecActivate(reg, s, c, choice).table.WellFormed()
    ensures AccountsFor(s, c, ExecActivate(reg, s, c, choice))
  {
  }

  lemma UseAccounts(reg: Registry, s: State, c: CallId, choice: Choice)
    requires At(reg, s, c, choice) && IsUse(s.calls[c]) && !s.calls[c].DeaEnter?
    ensures ExecUse(reg, s, c, choice).table.WellFormed()
    ensures AccountsFor(s, c, ExecUse(reg, s, c, choice))
  {
  }

  lemma SelectAccounts(reg: Registry, s: State, c: CallId, choice: Choice)
    requires At(reg, s, c, choice) && IsSelect(s.calls[c]) && !s.calls[c].SelStop? && !s.calls[c].SelHalt?
    ensures ExecSelect(reg, s, c, choice).table.WellFormed()
    ensures AccountsFor(s, c, ExecSelect(reg, s, c, choice))
  {
  }

  lemma HaltAccounts(reg: Registry, s: State, c: CallId, choice: Choice)
    requires At(reg, s, c, choice) && s.calls[c].SelHalt?
    ensures ExecSelect(reg, s, c, choice).table.WellFormed()
    ensures AccountsFor(s, c, ExecSelect(reg, s, c, choice))
  {
  }

  lemma StartAccounts(reg: Registry, s: State, c: CallId, choice: Choice)
    requires At(reg, s, c, choice) && (s.calls[c].RunEnter? || s.calls[c].RunFind? || s.calls[c].RunTell?)
    ensures ExecOther(reg, s, c, choice).table.WellFormed()
    ensures AccountsFor(s, c, ExecOther(reg, s, c, choice))
  {
  }

  lemma SurveyAccounts(reg: Registry, s: State, c: CallId, choice: Choice)
    requires At(reg, s, c, choice) && (s.calls[c].SurveyEnter? || s.calls[c].SurveyVisit?)
    ensures ExecOther(reg, s, c, choice).table.WellFormed()
    ensures AccountsFor(s, c, ExecOther(reg, s, c, choice))
  {
  }

  lemma RunAccounts(reg: Registry, s: State, c: CallId, choice: Choice)
    requires At(reg, s, c, choice)
    ensures ExecRun(reg, s, c, choice).table.WellFormed()
    ensures AccountsFor(s, c, ExecRun(reg, s, c, choice))
  {
    var pc := s.calls[c];
    if pc.ActCommit? { CommitAccounts(reg, s, c, choice); }
    else if pc.ActRetire? || pc.ActAsk? || pc.ActUndo? { AskAccounts(reg, s, c, choice); }
    else if pc.ActEnter? { EnterAccounts(reg, s, c, choice); }
    else if pc.ActFind? { FindAccounts(reg, s, c, choice); }
    else if IsActivate(pc) { JoinAccounts(reg, s, c, choice); }
    else if pc.DeaEnter? { ReleaseAccounts(reg, s, c, choice); }
    else if IsUse(pc) { UseAccounts(reg, s, c, choice); }
    else if pc.SelStop? { StopAccounts(reg, s, c, choice); }
    else if pc.SelHalt? { HaltAccounts(reg, s, c, choice); }
    else if IsSelect(pc) { SelectAccounts(reg, s, c, choice); }
    else if pc.RunEnter? || pc.RunFind? || pc.RunTell? { StartAccounts(reg, s, c, choice); }
    else { SurveyAccounts(reg, s, c, choice); }
  }

  lemma StepKeepsCoverage(reg: Registry, s: State, step: Step, s': State)
    requires ValidRegistry(reg) && Inv(reg, s) && Covered(s) && Next(reg, s, step, s')
    requires s'.table.WellFormed()
    ensures Covered(s')
  {
    match step
    case Run(c, choice) =>
      RunShape(reg, s, c, choice);
      RunAccounts(reg, s, c, choice);
      AccountKeepsCoverage(s, c, s');
    case Begin(c, first) =>
      BeginKeepsCoverage(s, c, first, s');
    case Acquire(c) =>
    case WakeSpuriously(c) =>
      AccountKeepsCoverage(s, c, s');
  }

  lemma BeginKeepsCoverage(s: State, c: CallId, first: Pc, s': State)
    requires s.table.WellFormed() && Covered(s) && c !in s.calls
    requires s'.table == s.table && s'.accepted == s.accepted && s'.calls == s.calls[c := first]
    ensures Covered(s')
  {
    forall p, target | Has(s', p, target) && !Routed(s.table, p, target)
      ensures exists d :: d in s'.calls && Owes(s'.calls[d], p, target)
    {
      assert Has(s, p, target);
      var d :| d in s.calls && Owes(s.calls[d], p, target);
      assert d in s'.calls && Owes(s'.calls[d], p, target);
    }
  }
}
