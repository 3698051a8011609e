/**
 Generations, told by what has happened: two states have the same generation exactly if no
 provider was stopped or published between them.
 */
module RouteGenerations {
  import opened RouteTable
  import opened RouteProtocol
  import opened RouteLocks
  import opened RouteInvariants
  import opened Wrappers
  import RouteCoverage
  import RouteSteps
  import RouteOwnership
  import RouteTheorems

  /** This step stops the active provider or publishes one. */
  predicate Switches(s: State, step: Step) {
    && step.Run? && step.c in s.calls
    && (s.calls[step.c].SelStop? || s.calls[step.c].SelPublish? || s.calls[step.c].SetPublish?)
  }

  /** No provider is stopped or published from state `i` to state `j`. */
  ghost predicate NoSwitch(r: Trace, i: nat, j: nat) {
    forall m :: i <= m < j && m < |r.steps| && m < |r.states| ==> !Switches(r.states[m], r.steps[m])
  }

  // ---------------------------------------------------------------- one step

  lemma SelectCounts(reg: Registry, s: State, c: CallId, choice: Choice)
    requires Fires(reg, s, c, choice) && (s.calls[c].SelStop? || s.calls[c].SelPublish? || s.calls[c].SetPublish?)
    ensures
      var t := ExecRun(reg, s, c, choice).table;
      t.generation == s.table.generation + 1 && |t.entries| == |s.table.entries|
  {
  }

  lemma SelectWaits(reg: Registry, s: State, c: CallId, choice: Choice)
    requires Fires(reg, s, c, choice) && IsSelect(s.calls[c]) && !s.calls[c].SelStop? && !s.calls[c].SelPublish?
    ensures ExecSelect(reg, s, c, choice).table == s.table
  {
  }

  lemma ActivateStays(reg: Registry, s: State, c: CallId, choice: Choice)
    requires Fires(reg, s, c, choice) && IsActivate(s.calls[c])
    ensures
      var t := ExecActivate(reg, s, c, choice).table;
      t.generation == s.table.generation && t.active == s.table.active
  {
    if s.calls[c].ActCommit? {
      RouteSteps.CommitMoves(reg, s, c, choice);
    } else if !s.calls[c].ActEnter? && !s.calls[c].Rejoin? {
      RouteOwnership.AskLeavesTable(reg, s, c, choice);
    }
  }

  lemma UseStays(reg: Registry, s: State, c: CallId, choice: Choice)
    requires Fires(reg, s, c, choice) && IsUse(s.calls[c])
    ensures
      var t := ExecUse(reg, s, c, choice).table;
      t.generation == s.table.generation && t.active == s.table.active && |t.entries| == |s.table.entries|
  {
    if s.calls[c].DeaEnter? {
      RouteCoverage.ReleasedState(reg, s, c, choice);
    } else {
      RouteTheorems.OtherUseEvolves(reg, s, c, choice);
    }
  }

  /** Only those steps change the generation or the active provider. */
  lemma StepCounts(reg: Registry, s: State, step: Step, s': State)
    requires Next(reg, s, step, s')
    ensures s'.table.generation == s.table.generation + if Switches(s, step) then 1 else 0
    ensures !Switches(s, step) ==> s'.table.active == s.table.active
  {
    if step.Run? {
      var pc := s.calls[step.c];
      if Switches(s, step) { SelectCounts(reg, s, step.c, step.choice); }
      else if IsActivate(pc) { ActivateStays(reg, s, step.c, step.choice); }
      else if IsUse(pc) { UseStays(reg, s, step.c, step.choice); }
      else if IsSelect(pc) { SelectWaits(reg, s, step.c, step.choice); }
      else { RouteTheorems.OtherLeavesTable(reg, s, step.c, step.choice); }
    }
  }

  // ---------------------------------------------------------------- entries and their providers

  /** Entries are not from the future; those of the current generation are the active provider's. */
  ghost predicate Dated(s: State) {
    && s.table.WellFormed()
    && (forall e :: 0 <= e < |s.table.entries| ==> s.table.entries[e].generation <= s.table.generation)
    && (forall k :: k in s.table.routes && s.table.At(k).generation == s.table.generation ==>
          k.providerId == s.table.active)
    && (forall c :: c in s.calls ==> DatedCall(s.table, s.calls[c]))
  }

  ghost predicate DatedCall(t: Table, pc: Pc) {
    (pc.Waiting? || pc.Rejoin?) && pc.entry < |t.entries| && t.entries[pc.entry].generation == t.generation ==>
      pc.p == t.active
  }

  /** How a step may treat the entries: all that there were keep their generation, routes stay with
      their entries or are new ones of the active provider. */
  ghost predicate KeepsDates(t: Table, t': Table) {
    && t'.WellFormed() && |t.entries| <= |t'.entries|
    && t.generation <= t'.generation && (t.generation == t'.generation ==> t.active == t'.active)
    && (forall e :: 0 <= e < |t.entries| ==> t'.entries[e].generation == t.entries[e].generation)
    && (forall e :: |t.entries| <= e < |t'.entries| ==> t'.entries[e].generation <= t'.generation)
    && (forall k :: k in t'.routes ==>
          (k in t.routes && t'.routes[k] == t.routes[k]) || k.providerId == t'.active)
  }

  lemma DatesKept(s: State, s': State)
    requires Dated(s) && KeepsDates(s.table, s'.table)
    requires forall c :: c in s'.calls ==> DatedCall(s'.table, s'.calls[c])
    ensures Dated(s')
  {
  }

  lemma BystanderDated(t: Table, t': Table, pc: Pc)
    requires KeepsDates(t, t') && DatedCall(t, pc)
    requires forall e :: 0 <= e < |t.entries| ==> t.entries[e].generation <= t.generation
    requires pc.Waiting? || pc.Rejoin? ==> pc.entry < |t.entries|
    ensures DatedCall(t', pc)
    ensures pc.Waiting? ==> DatedCall(t', Rejoin(pc.p, pc.target, pc.entry))
  {
  }

  lemma CreateKeepsDates(reg: Registry, t: Table, p: ProviderId, target: RouteTarget)
    requires t.WellFormed() && p in reg && t.active == p && KeyOf(p, target) !in t.routes
    ensures KeepsDates(t, Create(t, p, target, reg[p]))
  {
    CreateEntries(t, p, target, reg[p]);
  }

  lemma ActivateKeepsDates(reg: Registry, s: State, c: CallId, choice: Choice)
    requires InvBase(reg, s) && Fires(reg, s, c, choice) && IsActivate(s.calls[c])
    ensures KeepsDates(s.table, ExecActivate(reg, s, c, choice).table)
  {
    var pc, t := s.calls[c], s.table;
    if pc.ActEnter? && t.active == pc.p && KeyOf(pc.p, pc.target) !in t.routes {
      CreateKeepsDates(reg, t, pc.p, pc.target);
      RouteSteps.CreateMoves(reg, s, c, choice);
    } else if pc.ActCommit? {
      assert CallBase(reg, t, pc);
      RouteSteps.CommitMoves(reg, s, c, choice);
    } else if pc.ActEnter? || pc.Rejoin? {
      AwaitKeepsDates(reg, s, c, choice);
    } else {
      RouteOwnership.AskLeavesTable(reg, s, c, choice);
    }
  }

  lemma AwaitKeepsDates(reg: Registry, s: State, c: CallId, choice: Choice)
    requires Fires(reg, s, c, choice) && (s.calls[c].ActEnter? || s.calls[c].Rejoin?)
    requires s.calls[c].ActEnter? ==>
      s.table.active != s.calls[c].p || KeyOf(s.calls[c].p, s.calls[c].target) in s.table.routes
    ensures KeepsDates(s.table, ExecActivate(reg, s, c, choice).table)
  {
  }

  lemma UseKeepsDates(reg: Registry, s: State, c: CallId, choice: Choice)
    requires Fires(reg, s, c, choice) && IsUse(s.calls[c])
    ensures KeepsDates(s.table, ExecUse(reg, s, c, choice).table)
  {
    if s.calls[c].DeaEnter? {
      RouteCoverage.ReleasedState(reg, s, c, choice);
    } else {
      RouteTheorems.OtherUseEvolves(reg, s, c, choice);
    }
  }

  lemma SwitchKeepsDates(reg: Registry, s: State, c: CallId, choice: Choice)
    requires Fires(reg, s, c, choice) && (s.calls[c].SelStop? || s.calls[c].SelPublish? || s.calls[c].SetPublish?)
    ensures KeepsDates(s.table, ExecRun(reg, s, c, choice).table)
  {
    if s.calls[c].SelStop? {
      assert ExecRun(reg, s, c, choice).table == Stop(s.table);
    } else {
      assert ExecRun(reg, s, c, choice).table == Publish(s.table, s.calls[c].id);
    }
  }

  lemma RunKeepsDates(reg: Registry, s: State, c: CallId, choice: Choice)
    requires InvBase(reg, s) && Fires(reg, s, c, choice)
    ensures KeepsDates(s.table, ExecRun(reg, s, c, choice).table)
  {
    var pc := s.calls[c];
    if IsActivate(pc) { ActivateKeepsDates(reg, s, c, choice); }
    else if IsUse(pc) { UseKeepsDates(reg, s, c, choice); }
    else if Switches(s, Run(c, choice)) { SwitchKeepsDates(reg, s, c, choice); }
    else if IsSelect(pc) { SelectWaits(reg, s, c, choice); }
    else { RouteTheorems.OtherLeavesTable(reg, s, c, choice); }
  }

  /** A call that comes to wait does so for an entry of its own provider. */
  lemma ActorDated(reg: Registry, s: State, c: CallId, choice: Choice)
    requires Dated(s) && Fires(reg, s, c, choice)
    ensures
      var s' := ExecRun(reg, s, c, choice);
      c in s'.calls ==> DatedCall(s'.table, s'.calls[c])
  {
    var pc := s.calls[c];
    assert DatedCall(s.table, pc);
    if pc.ActEnter? { EntererDated(reg, s, c, choice); }
    else if pc.Rejoin? { RejoinerDated(reg, s, c, choice); }
    else if IsActivate(pc) { ActivatorDoesNotWait(reg, s, c, choice); }
    else if IsUse(pc) { RouteOwnership.StaysInKind(reg, s, c, choice); UserDoesNotWait(reg, s, c, choice); }
    else if IsSelect(pc) { SelectorDoesNotWait(reg, s, c, choice); }
    else { OtherDoesNotWait(reg, s, c, choice); }
  }

  lemma EntererDated(reg: Registry, s: State, c: CallId, choice: Choice)
    requires Dated(s) && Fires(reg, s, c, choice) && s.calls[c].ActEnter?
    ensures
      var s' := ExecActivate(reg, s, c, choice);
      c in s'.calls ==> DatedCall(s'.table, s'.calls[c])
  {
  }

  lemma RejoinerDated(reg: Registry, s: State, c: CallId, choice: Choice)
    requires Fires(reg, s, c, choice) && s.calls[c].Rejoin? && DatedCall(s.table, s.calls[c])
    ensures
      var s' := ExecActivate(reg, s, c, choice);
      c in s'.calls ==> DatedCall(s'.table, s'.calls[c])
  {
  }

  lemma ActivatorDoesNotWait(reg: Registry, s: State, c: CallId, choice: Choice)
    requires Fires(reg, s, c, choice) && IsActivate(s.calls[c]) && !s.calls[c].ActEnter? && !s.calls[c].Rejoin?
    ensures
      var s' := ExecActivate(reg, s, c, choice);
      c in s'.calls ==> !s'.calls[c].Waiting? && !s'.calls[c].Rejoin?
  {
  }

  lemma UserDoesNotWait(reg: Registry, s: State, c: CallId, choice: Choice)
    requires Fires(reg, s, c, choice) && IsUse(s.calls[c])
    ensures
      var s' := ExecUse(reg, s, c, choice);
      c in s'.calls ==> !s'.calls[c].Waiting? && !s'.calls[c].Rejoin?
  {
  }

  lemma SelectorDoesNotWait(reg: Registry, s: State, c: CallId, choice: Choice)
    requires Fires(reg, s, c, choice) && IsSelect(s.calls[c])
    ensures
      var s' := ExecSelect(reg, s, c, choice);
      c in s'.calls ==> !s'.calls[c].Waiting? && !s'.calls[c].Rejoin?
  {
  }

  lemma OtherDoesNotWait(reg: Registry, s: State, c: CallId, choice: Choice)
    requires Fires(reg, s, c, choice) && IsOther(s.calls[c])
    ensures
      var s' := ExecOther(reg, s, c, choice);
      c in s'.calls ==> !s'.calls[c].Waiting? && !s'.calls[c].Rejoin?
  {
  }

  lemma StepKeepsDated(reg: Registry, s: State, step: Step, s': State)
    requires InvBase(reg, s) && Dated(s) && Next(reg, s, step, s')
    ensures Dated(s')
  {
    if step.Run? {
      RunKeepsDates(reg, s, step.c, step.choice);
      RunShape(reg, s, step.c, step.choice);
      ActorDated(reg, s, step.c, step.choice);
      forall d | d in s'.calls
        ensures DatedCall(s'.table, s'.calls[d])
      {
        if d != step.c {
          assert CallBase(reg, s.table, s.calls[d]);
          BystanderDated(s.table, s'.table, s.calls[d]);
        }
      }
      DatesKept(s, s');
    } else if step.WakeSpuriously? {
      assert DatedCall(s.table, s.calls[step.c]);
    }
  }

  lemma {:induction false} DatedAlongRun(reg: Registry, r: Trace, i: nat)
    requires IsRun(reg, r) && i < |r.states|
    ensures Dated(r.states[i])
  {
    if i > 0 {
      DatedAlongRun(reg, r, i - 1);
      RouteTheorems.EntriesAlongRun(reg, r, i - 1);
      assert Next(reg, r.states[i - 1], r.steps[i - 1], r.states[i - 1 + 1]);
      StepKeepsDated(reg, r.states[i - 1], r.steps[i - 1], r.states[i]);
    }
  }

  // ---------------------------------------------------------------- when an entry was created

  ghost predicate CreatesOne(t: Table, t': Table) {
    || |t'.entries| == |t.entries|
    || (|t'.entries| == |t.entries| + 1 && t'.entries[|t.entries|].generation == t'.generation)
  }

  lemma ActivateCreates(reg: Registry, s: State, c: CallId, choice: Choice)
    requires Fires(reg, s, c, choice) && IsActivate(s.calls[c])
    ensures CreatesOne(s.table, ExecActivate(reg, s, c, choice).table)
  {
    var pc := s.calls[c];
    if pc.ActEnter? && s.table.active == pc.p && KeyOf(pc.p, pc.target) !in s.table.routes {
      RouteSteps.CreateMoves(reg, s, c, choice);
      CreateEntries(s.table, pc.p, pc.target, reg[pc.p]);
    }
  }

  /** A step creates one entry at most, and of the current generation. */
  lemma StepCreates(reg: Registry, s: State, step: Step, s': State)
    requires Next(reg, s, step, s')
    ensures CreatesOne(s.table, s'.table)
  {
    if step.Run? {
      var pc := s.calls[step.c];
      if IsActivate(pc) { ActivateCreates(reg, s, step.c, step.choice); }
      else if IsUse(pc) { UseStays(reg, s, step.c, step.choice); }
      else if Switches(s, step) { SelectCounts(reg, s, step.c, step.choice); }
      else if IsSelect(pc) { SelectWaits(reg, s, step.c, step.choice); }
      else { RouteTheorems.OtherLeavesTable(reg, s, step.c, step.choice); }
    }
  }

  // ---------------------------------------------------------------- whole runs

  /** How generations and the entries' generations go from one state to the next. */
  ghost predicate Ages(t: Table, t': Table, switched: bool) {
    && t'.generation == t.generation + (if switched then 1 else 0)
    && (!switched ==> t'.active == t.active)
    && |t.entries| <= |t'.entries|
    && (forall e :: 0 <= e < |t.entries| ==>
          t'.entries[e].generation == t.entries[e].generation <= t.generation)
    && (forall e :: |t.entries| <= e < |t'.entries| ==> t'.entries[e].generation == t'.generation)
  }

  ghost predicate AgesAlong(r: Trace) {
    && |r.states| == |r.steps| + 1
    && forall m :: 0 <= m < |r.steps| ==> AgesAt(r, m)
  }

  ghost predicate AgesAt(r: Trace, m: nat)
    requires m < |r.steps| && m + 1 < |r.states|
  {
    Ages(r.states[m].table, r.states[m + 1].table, Switches(r.states[m], r.steps[m]))
  }

  lemma StepAges(reg: Registry, r: Trace, m: nat)
    requires IsRun(reg, r) && m < |r.steps|
    ensures AgesAt(r, m)
  {
    DatedAlongRun(reg, r, m);
    RouteTheorems.EntriesAlongRun(reg, r, m);
    TableAges(reg, r.states[m], r.steps[m], r.states[m + 1]);
  }

  lemma TableAges(reg: Registry, s: State, step: Step, s': State)
    requires InvBase(reg, s) && Dated(s) && Next(reg, s, step, s')
    ensures Ages(s.table, s'.table, Switches(s, step))
  {
    RouteTheorems.StepEvolves(reg, s, step, s');
    StepCreates(reg, s, step, s');
    StepCounts(reg, s, step, s');
    AgesFrom(s.table, s'.table, Switches(s, step));
  }

  lemma AgesFrom(t: Table, t': Table, switched: bool)
    requires RouteTheorems.Evolves(t, t') && CreatesOne(t, t')
    requires t'.generation == t.generation + if switched then 1 else 0
    requires !switched ==> t'.active == t.active
    requires forall e :: 0 <= e < |t.entries| ==> t.entries[e].generation <= t.generation
    ensures Ages(t, t', switched)
  {
  }

  lemma RunsAge(reg: Registry, r: Trace)
    requires IsRun(reg, r)
    ensures AgesAlong(r)
  {
    forall m | 0 <= m < |r.steps|
      ensures AgesAt(r, m)
    {
      StepAges(reg, r, m);
    }
  }

  lemma {:induction false} Counted(r: Trace, i: nat, j: nat)
    requires AgesAlong(r) && i <= j < |r.states|
    ensures r.states[i].table.generation <= r.states[j].table.generation
    ensures r.states[i].table.generation == r.states[j].table.generation <==> NoSwitch(r, i, j)
    ensures NoSwitch(r, i, j) ==> r.states[i].table.active == r.states[j].table.active
    decreases j - i
  {
    if i < j {
      Counted(r, i, j - 1);
      assert AgesAt(r, j - 1);
      assert NoSwitch(r, i, j) <==> NoSwitch(r, i, j - 1) && !Switches(r.states[j - 1], r.steps[j - 1]);
    }
  }

  /** The generation counts the switches. */
  lemma GenerationCounts(reg: Registry, r: Trace, i: nat, j: nat)
    requires IsRun(reg, r) && i <= j < |r.states|
    ensures r.states[i].table.generation == r.states[j].table.generation <==> NoSwitch(r, i, j)
    ensures NoSwitch(r, i, j) ==> r.states[i].table.active == r.states[j].table.active
  {
    RunsAge(reg, r);
    Counted(r, i, j);
  }

  /** No provider has been stopped or published since entry `e` came into being. */
  ghost predicate SameRun(r: Trace, i: nat, e: EntryRef) {
    forall m :: 0 <= m < i && m < |r.steps| && m < |r.states| && e < |r.states[m].table.entries| ==>
      !Switches(r.states[m], r.steps[m])
  }

  lemma {:induction false} NotThereBefore(r: Trace, i: nat, e: EntryRef)
    requires AgesAlong(r) && i < |r.states| && |r.states[i].table.entries| <= e
    ensures SameRun(r, i, e)
  {
    if i > 0 {
      assert AgesAt(r, i - 1);
      NotThereBefore(r, i - 1, e);
    }
  }

  lemma {:induction false} SameAge(r: Trace, i: nat, e: EntryRef)
    requires AgesAlong(r) && i < |r.states| && r.states[0].table.entries == []
    requires e < |r.states[i].table.entries|
    ensures r.states[i].table.entries[e].generation == r.states[i].table.generation <==> SameRun(r, i, e)
  {
    if i > 0 {
      assert AgesAt(r, i - 1);
      if e < |r.states[i - 1].table.entries| {
        SameAge(r, i - 1, e);
        assert SameRun(r, i, e) <==> SameRun(r, i - 1, e) && !Switches(r.states[i - 1], r.steps[i - 1]);
      } else {
        NotThereBefore(r, i - 1, e);
      }
    }
  }

  /** That is what comparing an entry's generation with the current one finds out. */
  lemma SameGeneration(reg: Registry, r: Trace, i: nat, e: EntryRef)
    requires IsRun(reg, r) && i < |r.states| && e < |r.states[i].table.entries|
    ensures r.states[i].table.entries[e].generation == r.states[i].table.generation <==> SameRun(r, i, e)
  {
    RunsAge(reg, r);
    SameAge(r, i, e);
  }
}
