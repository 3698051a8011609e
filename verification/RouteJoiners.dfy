/**
 What success means for a call that joins a route which another call has activated.
 */
module RouteJoiners {
  import opened RouteTable
  import opened RouteProtocol
  import opened RouteLocks
  import opened RouteInvariants
  import opened RouteTheorems
  import opened RouteGenerations
  import RouteOwnership
  import opened Wrappers

  ghost predicate InTable(t: Table, e: EntryRef) {
    exists k :: k in t.routes && t.routes[k] == e
  }

  /** This step is a release that gives back the last reference on entry `e`. */
  ghost predicate Erases(s: State, step: Step, e: EntryRef) {
    && step.Run? && step.c in s.calls && s.calls[step.c].DeaEnter? && s.table.WellFormed()
    && step.choice.found.Some? && step.choice.found.value in s.table.routes
    && s.table.routes[step.choice.found.value] == e && ReleaseVerdict(s.table, step.choice.found).Erased?
  }

  ghost predicate ErasedBefore(r: Trace, i: nat, e: EntryRef) {
    exists j :: 0 <= j < i && j < |r.steps| && j < |r.states| && Erases(r.states[j], r.steps[j], e)
  }

  /** How an entry that is Active after a block got there. */
  ghost predicate EntryMoves(t: Table, t': Table, e: EntryRef, erased: bool) {
    e < |t'.entries| && t'.entries[e].state == Active ==>
      && e < |t.entries|
      && (t.entries[e].state == Active ==> (InTable(t', e) <==> InTable(t, e) && !erased))
      && (t.entries[e].state != Active ==> t.entries[e].state == Activating && InTable(t', e) && !erased)
  }

  // ---------------------------------------------------------------- the sections

  lemma CreateMoves(reg: Registry, t: Table, p: ProviderId, target: RouteTarget, e: EntryRef)
    requires TableInv(reg, t) && p in reg && t.active == p && KeyOf(p, target) !in t.routes
    ensures EntryMoves(t, Create(t, p, target, reg[p]), e, false)
  {
    var t' := Create(t, p, target, reg[p]);
    CreateEntries(t, p, target, reg[p]);
    if e < |t.entries| && t'.entries[e].state == Active {
      assert forall k :: k in t.routes && t.routes[k] == e ==> k in t'.routes && t'.routes[k] == e;
    }
  }

  lemma CommitMoves(reg: Registry, t: Table, p: ProviderId, target: RouteTarget, own: EntryRef,
                    activated: bool, e: EntryRef)
    requires TableInv(reg, t) && own < |t.entries|
    requires t.entries[own].target == target && t.entries[own].state != Active
    requires t.entries[own].state == Activating ==> KeyOf(p, target) in t.routes && t.routes[KeyOf(p, target)] == own
    ensures EntryMoves(t, Commit(t, p, KeyOf(p, target), own, activated), e, false)
  {
    var key := KeyOf(p, target);
    var t' := Commit(t, p, key, own, activated);
    CurrentIsActivating(reg, t, p, target, own);
    CommitKeeps(reg, t, p, target, own, activated);
    if e < |t.entries| && t'.entries[e].state == Active {
      if e == own {
        assert key in t'.routes;
      } else {
        assert forall k :: k in t.routes && t.routes[k] == e ==> k in t'.routes && t'.routes[k] == e;
      }
    }
  }

  lemma ReleaseMoves(reg: Registry, t: Table, found: Option<RouteKey>, e: EntryRef)
    requires TableInv(reg, t) && (found.Some? ==> found.value in t.routes)
    ensures
      EntryMoves(t, Release(t, found), e, found.Some? && t.routes[found.value] == e && ReleaseVerdict(t, found).Erased?)
  {
    var t' := Release(t, found);
    if found.Some? && ReleaseVerdict(t, found).Erased? {
      forall k | k in t.routes && k != found.value
        ensures k in t'.routes && t.routes[k] != t.routes[found.value]
      {
        RoutesDiffer(reg, t, k, found.value);
      }
    }
  }

  lemma StopMoves(reg: Registry, t: Table, e: EntryRef)
    requires TableInv(reg, t)
    ensures EntryMoves(t, Stop(t), e, false)
  {
    var t' := Stop(t);
    if e < |t.entries| && t'.entries[e].state == Active {
      forall k | k in t.routes
        ensures t.routes[k] in Refs(t, RoutesOf(t, t.active))
      {
        assert RouteOk(reg, t, k);
      }
    }
  }

  lemma ActivateMoves(reg: Registry, s: State, c: CallId, choice: Choice, e: EntryRef)
    requires At(reg, s, c, choice) && IsActivate(s.calls[c])
    ensures EntryMoves(s.table, ExecActivate(reg, s, c, choice).table, e, false)
  {
    var pc, t := s.calls[c], s.table;
    if pc.ActEnter? && t.active == pc.p && KeyOf(pc.p, pc.target) !in t.routes {
      CreateMoves(reg, t, pc.p, pc.target, e);
      assert ExecActivate(reg, s, c, choice).table == Create(t, pc.p, pc.target, reg[pc.p]);
    } else if pc.ActCommit? {
      assert CallOk(reg, t, pc);
      CommitMoves(reg, t, pc.p, pc.target, pc.entry, pc.activated, e);
    } else if pc.ActEnter? || pc.Rejoin? {
      AwaitMoves(reg, s, c, choice, e);
    } else {
      RouteOwnership.AskLeavesTable(reg, s, c, choice);
    }
  }

  lemma AwaitMoves(reg: Registry, s: State, c: CallId, choice: Choice, e: EntryRef)
    requires TableInv(reg, s.table) && Fires(reg, s, c, choice) && (s.calls[c].ActEnter? || s.calls[c].Rejoin?)
    requires s.calls[c].ActEnter? ==>
      s.table.active != s.calls[c].p || KeyOf(s.calls[c].p, s.calls[c].target) in s.table.routes
    ensures EntryMoves(s.table, ExecActivate(reg, s, c, choice).table, e, false)
  {
  }

  lemma UseMoves(reg: Registry, s: State, c: CallId, choice: Choice, e: EntryRef)
    requires At(reg, s, c, choice) && IsUse(s.calls[c])
    ensures EntryMoves(s.table, ExecUse(reg, s, c, choice).table, e, Erases(s, Run(c, choice), e))
  {
    if s.calls[c].DeaEnter? {
      ReleaseMoves(reg, s.table, choice.found, e);
    }
  }

  lemma SelectMoves(reg: Registry, s: State, c: CallId, choice: Choice, e: EntryRef)
    requires At(reg, s, c, choice) && IsSelect(s.calls[c])
    ensures EntryMoves(s.table, ExecSelect(reg, s, c, choice).table, e, false)
  {
    if s.calls[c].SelStop? {
      StopMoves(reg, s.table, e);
    }
  }

  lemma StepMoves(reg: Registry, s: State, step: Step, s': State, e: EntryRef)
    requires ValidRegistry(reg) && Inv(reg, s) && Next(reg, s, step, s')
    ensures EntryMoves(s.table, s'.table, e, Erases(s, step, e))
  {
    if step.Run? {
      assert CallOk(reg, s.table, s.calls[step.c]);
      RunMoves(reg, s, step.c, step.choice, e);
    }
  }

  lemma RunMoves(reg: Registry, s: State, c: CallId, choice: Choice, e: EntryRef)
    requires At(reg, s, c, choice) && !s.calls[c].SetPublish?
    ensures EntryMoves(s.table, ExecRun(reg, s, c, choice).table, e, Erases(s, Run(c, choice), e))
  {
    var pc := s.calls[c];
    if IsActivate(pc) { ActivateMoves(reg, s, c, choice, e); }
    else if IsUse(pc) { UseMoves(reg, s, c, choice, e); }
    else if IsSelect(pc) { SelectMoves(reg, s, c, choice, e); }
    else { OtherMoves(reg, s, c, choice); }
  }

  lemma OtherMoves(reg: Registry, s: State, c: CallId, choice: Choice)
    requires Fires(reg, s, c, choice) && IsOther(s.calls[c]) && !s.calls[c].SetPublish?
    ensures ExecOther(reg, s, c, choice).table == s.table
  {
  }

  // ---------------------------------------------------------------- whole runs

  /** An Active entry is in the table if and only if no release has erased it. */
  lemma {:induction false} ActiveEntryStays(reg: Registry, r: Trace, i: nat, e: EntryRef)
    requires ValidRegistry(reg) && IsRun(reg, r) && NeverOverridden(r) && i < |r.states|
    requires e < |r.states[i].table.entries| && r.states[i].table.entries[e].state == Active
    ensures InTable(r.states[i].table, e) <==> !ErasedBefore(r, i, e)
  {
    if i > 0 {
      var s, step, s' := r.states[i - 1], r.steps[i - 1], r.states[i];
      InvariantAlongRun(reg, r, i - 1);
      assert Next(reg, s, step, r.states[i - 1 + 1]);
      StepMoves(reg, s, step, s', e);
      assert ErasedBefore(r, i, e) <==> ErasedBefore(r, i - 1, e) || Erases(s, step, e);
      if s.table.entries[e].state == Active {
        ActiveEntryStays(reg, r, i - 1, e);
      } else {
        NotErasedYet(reg, r, i - 1, e);
      }
    }
  }

  lemma NotErasedYet(reg: Registry, r: Trace, i: nat, e: EntryRef)
    requires ValidRegistry(reg) && IsRun(reg, r) && NeverOverridden(r) && i < |r.states|
    requires e < |r.states[i].table.entries| && r.states[i].table.entries[e].state == Activating
    ensures !ErasedBefore(r, i, e)
  {
    forall j | 0 <= j < i && j < |r.steps|
      ensures !Erases(r.states[j], r.steps[j], e)
    {
      EntriesOnlyAge(reg, r, j, i);
    }
  }

  /** Call `c` is about to join entry `e`: it has waited for it, or finds it under its key. */
  ghost predicate Joins(s: State, c: CallId, e: EntryRef) {
    && c in s.calls && e < |s.table.entries|
    && ((s.calls[c].Rejoin? && s.calls[c].entry == e)
        || (s.calls[c].ActEnter? && s.table.active == s.calls[c].p
            && KeyOf(s.calls[c].p, s.calls[c].target) in s.table.routes
            && s.table.routes[KeyOf(s.calls[c].p, s.calls[c].target)] == e))
  }

  /** What a joining block does with an entry that is no longer Activating. */
  lemma JoinBlock(reg: Registry, s: State, c: CallId, choice: Choice, e: EntryRef)
    requires Fires(reg, s, c, choice) && Joins(s, c, e) && s.table.entries[e].state != Activating
    requires c in s.history
    ensures
      var entry, s' := s.table.entries[e], ExecRun(reg, s, c, choice);
      var succeeds := entry.state == Active && entry.generation == s.table.generation;
      && c !in s'.calls && s'.history[c] == s.history[c] + [Returned(succeeds)]
      && s'.table == if succeeds
           then s.table.(entries := s.table.entries[e := entry.(references := entry.references + 1)])
           else s.table
  {
  }

  /** The provider of a joining call is the active one if the entry is of the current generation. */
  lemma JoinedProvider(s: State, c: CallId, e: EntryRef)
    requires Dated(s) && Joins(s, c, e) && s.table.entries[e].generation == s.table.generation
    ensures s.calls[c].p == s.table.active
  {
    assert DatedCall(s.table, s.calls[c]);
  }

  /** The verdict of a joining call, in every run: it succeeds exactly if the entry is Active and no
      provider has been stopped or published since the entry was created; then its provider is the
      active one and the entry gains a reference. Otherwise nothing changes. */
  lemma JoinerVerdict(reg: Registry, r: Trace, i: nat, e: EntryRef)
    requires IsRun(reg, r) && i < |r.steps| && r.steps[i].Run? && Joins(r.states[i], r.steps[i].c, e)
    requires r.states[i].table.entries[e].state != Activating
    ensures
      var s, s', c := r.states[i], r.states[i + 1], r.steps[i].c;
      var succeeds := s.table.entries[e].state == Active && SameRun(r, i, e);
      && c in s.history && c in s'.history
      && c !in s'.calls && s'.history[c] == s.history[c] + [Returned(succeeds)]
      && (succeeds <==> s.table.entries[e].state == Active && s.table.entries[e].generation == s.table.generation)
      && (succeeds ==> s.table.active == s.calls[c].p
                       && s'.table == s.table.(entries := s.table.entries[e :=
                            s.table.entries[e].(references := s.table.entries[e].references + 1)]))
      && (!succeeds ==> s'.table == s.table)
  {
    var s, c := r.states[i], r.steps[i].c;
    assert Next(reg, s, r.steps[i], r.states[i + 1]);
    LocksAlongRun(reg, r, i);
    SameGeneration(reg, r, i, e);
    DatedAlongRun(reg, r, i);
    JoinBlock(reg, s, c, r.steps[i].choice, e);
    if s.table.entries[e].generation == s.table.generation {
      JoinedProvider(s, c, e);
    }
  }

  /** And then its route is in the table if and only if no release has erased it since. */
  lemma JoinedRoute(reg: Registry, r: Trace, i: nat, e: EntryRef)
    requires ValidRegistry(reg) && IsRun(reg, r) && NeverOverridden(r)
    requires i < |r.steps| && r.steps[i].Run? && Joins(r.states[i], r.steps[i].c, e)
    requires r.states[i].table.entries[e].state == Active && SameRun(r, i, e)
    ensures InTable(r.states[i + 1].table, e) <==> !ErasedBefore(r, i, e)
  {
    JoinerVerdict(reg, r, i, e);
    ActiveEntryStays(reg, r, i, e);
  }
}
