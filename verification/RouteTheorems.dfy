/**
 The protocol's properties over whole runs: any number of calls, any interleaving, any
 answers of the providers.
 */
module RouteTheorems {
  import opened RouteTable
  import opened RouteProtocol
  import opened RouteLocks
  import opened RouteInvariants
  import opened RouteCoverage
  import opened RouteHistory
  import RouteSteps
  import RouteOwnership
  import opened Wrappers

  /** Locks and histories are in order in every run, with or without `setActiveProviderId`. */
  lemma {:induction false} LocksAlongRun(reg: Registry, r: Trace, i: nat)
    requires IsRun(reg, r) && i < |r.states|
    ensures LockInv(r.states[i]) && HistoryInv(r.states[i])
  {
    if i > 0 {
      LocksAlongRun(reg, r, i - 1);
      assert Next(reg, r.states[i - 1], r.steps[i - 1], r.states[i - 1 + 1]);
      LocksKept(reg, r.states[i - 1], r.steps[i - 1], r.states[i]);
      StepKeepsHistory(reg, r.states[i - 1], r.steps[i - 1], r.states[i]);
    }
  }

  /** So is what concerns entries and their creators. */
  lemma {:induction false} EntriesAlongRun(reg: Registry, r: Trace, i: nat)
    requires IsRun(reg, r) && i < |r.states|
    ensures InvBase(reg, r.states[i])
  {
    if i > 0 {
      EntriesAlongRun(reg, r, i - 1);
      assert Next(reg, r.states[i - 1], r.steps[i - 1], r.states[i - 1 + 1]);
      RouteSteps.StepKeeps(reg, r.states[i - 1], r.steps[i - 1], r.states[i]);
    }
  }

  lemma {:induction false} InvariantAlongRun(reg: Registry, r: Trace, i: nat)
    requires ValidRegistry(reg) && IsRun(reg, r) && NeverOverridden(r) && i < |r.states|
    ensures Inv(reg, r.states[i]) && Covered(r.states[i])
  {
    if i > 0 {
      InvariantAlongRun(reg, r, i - 1);
      assert Next(reg, r.states[i - 1], r.steps[i - 1], r.states[i - 1 + 1]);
      RouteOwnership.StepKeeps(reg, r.states[i - 1], r.steps[i - 1], r.states[i]);
      StepKeepsCoverage(reg, r.states[i - 1], r.steps[i - 1], r.states[i]);
    }
  }

  // ---------------------------------------------------------------- the route table

  /** In every interleaving every route belongs to the active provider and to its current
      run, is kept under the key of its target, and an exclusive provider has one at most. */
  lemma RoutesBelongToActiveProvider(reg: Registry, r: Trace, i: nat)
    requires ValidRegistry(reg) && IsRun(reg, r) && NeverOverridden(r) && i < |r.states|
    ensures
      var t := r.states[i].table;
      && t.WellFormed()
      && (forall k :: k in t.routes ==>
          && k.providerId == t.active && k == KeyOf(t.active, t.At(k).target)
          && t.At(k).generation == t.generation && t.At(k).state != Failed && t.At(k).references >= 1)
      && (t.active in reg && reg[t.active] ==> |t.routes| <= 1)
      && (t.active == "" ==> t.routes == map[])
  {
    InvariantAlongRun(reg, r, i);
    var t := r.states[i].table;
    forall k | k in t.routes
      ensures RouteOk(reg, t, k)
    {
    }
    if t.active in reg && reg[t.active] && t.routes != map[] {
      var k :| k in t.routes;
      assert t.routes.Keys == {k};
      assert |t.routes| == |t.routes.Keys|;
    }
    if t.active == "" {
      assert t.routes.Keys == {};
    }
  }

  /** How the bookkeeping may evolve. */
  ghost predicate Evolves(t: Table, t': Table) {
    && t.generation <= t'.generation
    && |t.entries| <= |t'.entries|
    && forall e :: 0 <= e < |t.entries| ==>
        && t'.entries[e].target == t.entries[e].target
        && t'.entries[e].generation == t.entries[e].generation
        && (t.entries[e].state == Failed ==> t'.entries[e].state == Failed)
        && (t'.entries[e].state == Activating ==> t.entries[e].state == Activating)
  }

  lemma EnterEvolves(reg: Registry, s: State, c: CallId, choice: Choice)
    requires InvBase(reg, s) && Fires(reg, s, c, choice) && (s.calls[c].ActEnter?)
    ensures Evolves(s.table, ExecActivate(reg, s, c, choice).table)
  {
    var p, target, t := s.calls[c].p, s.calls[c].target, s.table;
    if t.active == p && KeyOf(p, target) !in t.routes {
      CreateEvolves(reg, t, p, target);
    }
  }

  lemma CreateEvolves(reg: Registry, t: Table, p: ProviderId, target: RouteTarget)
    requires t.WellFormed() && p in reg && KeyOf(p, target) !in t.routes
    ensures Evolves(t, Create(t, p, target, reg[p]))
  {
    CreateEntries(t, p, target, reg[p]);
  }

  lemma RejoinEvolves(reg: Registry, s: State, c: CallId, choice: Choice)
    requires InvBase(reg, s) && Fires(reg, s, c, choice) && (s.calls[c].Rejoin?)
    ensures Evolves(s.table, ExecActivate(reg, s, c, choice).table)
  {
  }

  lemma CommitEvolves(reg: Registry, s: State, c: CallId, choice: Choice)
    requires InvBase(reg, s) && Fires(reg, s, c, choice) && (s.calls[c].ActCommit?)
    ensures Evolves(s.table, ExecActivate(reg, s, c, choice).table)
  {
    var pc := s.calls[c];
    assert CallBase(reg, s.table, pc);
    CommitKeepsBase(reg, s.table, pc.p, pc.target, pc.entry, pc.activated);
    CommittedEvolves(s.table, pc.p, KeyOf(pc.p, pc.target), pc.entry, pc.activated);
  }

  lemma CommittedEvolves(t: Table, p: ProviderId, key: RouteKey, e: EntryRef, activated: bool)
    requires e < |t.entries| && (Current(t, p, key, e) ==> t.entries[e].state == Activating)
    ensures Evolves(t, Commit(t, p, key, e, activated))
  {
  }

  lemma UseEvolves(reg: Registry, s: State, c: CallId, choice: Choice)
    requires InvBase(reg, s) && Fires(reg, s, c, choice) && IsUse(s.calls[c])
    ensures Evolves(s.table, ExecUse(reg, s, c, choice).table)
  {
    if s.calls[c].DeaEnter? {
      ReleasedState(reg, s, c, choice);
      ReleaseKeepsBase(reg, s.table, choice.found);
    } else {
      OtherUseEvolves(reg, s, c, choice);
    }
  }

  lemma OtherUseEvolves(reg: Registry, s: State, c: CallId, choice: Choice)
    requires Fires(reg, s, c, choice) && IsUse(s.calls[c]) && !s.calls[c].DeaEnter?
    ensures ExecUse(reg, s, c, choice).table == s.table
  {
  }

  lemma SelectEvolves(reg: Registry, s: State, c: CallId, choice: Choice)
    requires InvBase(reg, s) && Fires(reg, s, c, choice) && IsSelect(s.calls[c])
    ensures Evolves(s.table, ExecSelect(reg, s, c, choice).table)
  {
    if s.calls[c].SelStop? {
      assert ExecSelect(reg, s, c, choice).table == Stop(s.table);
      assert Evolves(s.table, Stop(s.table));
    }
  }

  lemma OtherEvolves(reg: Registry, s: State, c: CallId, choice: Choice)
    requires InvBase(reg, s) && Fires(reg, s, c, choice) && IsOther(s.calls[c])
    ensures Evolves(s.table, ExecOther(reg, s, c, choice).table)
  {
    if s.calls[c].SetPublish? {
      assert ExecOther(reg, s, c, choice).table == Publish(s.table, s.calls[c].id);
    } else {
      OtherLeavesTable(reg, s, c, choice);
    }
  }

  lemma OtherLeavesTable(reg: Registry, s: State, c: CallId, choice: Choice)
    requires Fires(reg, s, c, choice) && IsOther(s.calls[c]) && !s.calls[c].SetPublish?
    ensures ExecOther(reg, s, c, choice).table == s.table
  {
  }

  lemma StepEvolves(reg: Registry, s: State, step: Step, s': State)
    requires InvBase(reg, s) && Next(reg, s, step, s')
    ensures Evolves(s.table, s'.table)
  {
    if step.Run? {
      var c, choice := step.c, step.choice;
      var pc := s.calls[c];
      if pc.ActCommit? { CommitEvolves(reg, s, c, choice); }
      else if pc.ActEnter? { EnterEvolves(reg, s, c, choice); }
      else if pc.Rejoin? { RejoinEvolves(reg, s, c, choice); }
      else if IsActivate(pc) { RouteOwnership.AskLeavesTable(reg, s, c, choice); }
      else if IsUse(pc) { UseEvolves(reg, s, c, choice); }
      else if IsSelect(pc) { SelectEvolves(reg, s, c, choice); }
      else { OtherEvolves(reg, s, c, choice); }
    }
  }

  lemma EvolvesIsTransitive(t: Table, u: Table, v: Table)
    requires Evolves(t, u) && Evolves(u, v)
    ensures Evolves(t, v)
  {
  }

  lemma StepAlongRunEvolves(reg: Registry, r: Trace, i: nat)
    requires IsRun(reg, r) && i < |r.steps|
    ensures Evolves(r.states[i].table, r.states[i + 1].table)
  {
    EntriesAlongRun(reg, r, i);
    StepEvolves(reg, r.states[i], r.steps[i], r.states[i + 1]);
  }

  lemma {:induction false} TablesEvolve(tables: seq<Table>, i: nat, j: nat)
    requires i <= j < |tables|
    requires forall k :: 0 <= k < |tables| - 1 ==> Evolves(tables[k], tables[k + 1])
    ensures Evolves(tables[i], tables[j])
    decreases j - i
  {
    if i < j {
      TablesEvolve(tables, i, j - 1);
      assert Evolves(tables[j - 1], tables[j - 1 + 1]);
      EvolvesIsTransitive(tables[i], tables[j - 1], tables[j]);
    }
  }

  /** Generations never decrease, entries keep their target and generation, a Failed entry
      stays Failed and no entry returns to Activating, however far apart two states are. */
  lemma EntriesOnlyAge(reg: Registry, r: Trace, i: nat, j: nat)
    requires IsRun(reg, r) && i <= j < |r.states|
    ensures Evolves(r.states[i].table, r.states[j].table)
  {
    forall k | 0 <= k < |r.states| - 1
      ensures Evolves(r.states[k].table, r.states[k + 1].table)
    {
      StepAlongRunEvolves(reg, r, k);
    }
    TablesEvolve(seq(|r.states|, k requires 0 <= k < |r.states| => r.states[k].table), i, j);
  }

  /** A call blocked on the condition variable waits on an entry that is still Activating and
      whose one creator is in flight and has yet to commit: no wake-up is ever lost. */
  lemma NoStrandedWaiter(reg: Registry, r: Trace, i: nat, c: CallId)
    requires IsRun(reg, r) && i < |r.states|
    requires c in r.states[i].calls && r.states[i].calls[c].Waiting?
    ensures
      var s, e := r.states[i], r.states[i].calls[c].entry;
      && e < |s.table.entries| && s.table.entries[e].state == Activating
      && exists d ::
          && d in s.calls && IsCreator(s.calls[d]) && s.calls[d].entry == e
          && forall x :: x in s.calls && IsCreator(s.calls[x]) && s.calls[x].entry == e ==> x == d
  {
    EntriesAlongRun(reg, r, i);
    var s := r.states[i];
    assert CallBase(reg, s.table, s.calls[c]);
    var d :| d in s.calls && IsCreator(s.calls[d]) && s.calls[d].entry == s.calls[c].entry;
  }

  // ---------------------------------------------------------------- locks

  /** Call `c` is blocked on a lock that call `d` owns. */
  ghost predicate Blocks(s: State, d: CallId, c: CallId) {
    && c in s.calls && d in s.calls && c != d
    && Wants(s.calls[c]).Some?
    && Wants(s.calls[c]).value in s.locks && s.locks[Wants(s.calls[c]).value] == d
  }

  /** Each call of the sequence is blocked by the next one. */
  ghost predicate BlockedChain(s: State, chain: seq<CallId>) {
    forall i :: 0 <= i < |chain| - 1 ==> Blocks(s, chain[i + 1], chain[i])
  }

  /** A call that is itself blocked on a lock blocks others only on a lower one. */
  lemma BlockerWantsMore(s: State, c: CallId, d: CallId, e: CallId)
    requires LockInv(s) && Blocks(s, d, c) && Blocks(s, e, d)
    ensures Rank(Wants(s.calls[c]).value) < Rank(Wants(s.calls[d]).value)
  {
    var l := Wants(s.calls[c]).value;
    assert Uses(s.calls[d], l);
    if Keeps(s.calls[d]) == Some(l) {
      LockOrder(s.calls[d], l);
    }
  }

  lemma {:induction false} RanksRise(s: State, chain: seq<CallId>, i: nat, j: nat)
    requires LockInv(s) && BlockedChain(s, chain) && i < j < |chain| - 1
    ensures Blocks(s, chain[i + 1], chain[i]) && Blocks(s, chain[j + 1], chain[j])
    ensures Rank(Wants(s.calls[chain[i]]).value) < Rank(Wants(s.calls[chain[j]]).value)
    decreases j - i
  {
    assert Blocks(s, chain[i + 1], chain[i]) && Blocks(s, chain[j - 1 + 1], chain[j - 1])
      && Blocks(s, chain[j + 1], chain[j]);
    BlockerWantsMore(s, chain[j - 1], chain[j], chain[j + 1]);
    if i < j - 1 {
      RanksRise(s, chain, i, j - 1);
    }
  }

  /** In no run, not even with `setActiveProviderId`, do calls block each other in a circle:
      the blocked calls of a chain are distinct, and there are three of them at most. */
  lemma NoLockCycle(reg: Registry, r: Trace, n: nat, chain: seq<CallId>)
    requires IsRun(reg, r) && n < |r.states| && BlockedChain(r.states[n], chain)
    ensures |chain| <= 4
    ensures forall i, j :: 0 <= i < j < |chain| ==> chain[i] != chain[j]
  {
    var s := r.states[n];
    LocksAlongRun(reg, r, n);
    forall i, j | 0 <= i < j < |chain| - 1
      ensures chain[i] != chain[j]
    {
      RanksRise(s, chain, i, j);
    }
    if |chain| > 0 {
      var last := |chain| - 1;
      forall i | 0 <= i < last
        ensures chain[i] != chain[last]
      {
        if chain[i] == chain[last] {
          assert Blocks(s, chain[last - 1 + 1], chain[last - 1]) && Blocks(s, chain[i + 1], chain[i]);
          BlockerWantsMore(s, chain[last - 1], chain[last], chain[i + 1]);
          if i < last - 1 { RanksRise(s, chain, i, last - 1); }
        }
      }
    }
    if |chain| > 4 {
      RanksRise(s, chain, 0, 1);
      RanksRise(s, chain, 1, 2);
      RanksRise(s, chain, 2, 3);
    }
  }

  // ---------------------------------------------------------------- progress

  /** The call `c` can take its lock or run its block, in a way the protocol defines. */
  ghost predicate CanMove(reg: Registry, s: State, c: CallId) {
    c in s.calls &&
    (Enabled(reg, s, Acquire(c)) ||
     exists choice :: Enabled(reg, s, Run(c, choice)) && Sound(reg, s, s.calls[c]))
  }

  /** Every block has a choice it can run with. */
  lemma SomeChoice(reg: Registry, s: State, pc: Pc) returns (choice: Choice)
    ensures Legal(reg, s, pc, choice)
  {
    var nobody := RouteTarget("", "", "", "", Proxy);
    choice := Choice(true, None, nobody, []);
    if pc.DeaEnter? || pc.PreEnter? {
      var t := s.table;
      var exact := RouteKey(pc.p, pc.peer, pc.address);
      if exact in t.routes {
        choice := choice.(found := Some(exact));
      } else if pc.address == "" && exists k :: k in t.routes && k.providerId == pc.p && k.peerId == pc.peer {
        var k :| k in t.routes && k.providerId == pc.p && k.peerId == pc.peer;
        choice := choice.(found := Some(k));
      }
    } else if pc.ActAsk? && pc.retired != {} {
      var r :| r in pc.retired;
      choice := choice.(victim := r);
    }
  }

  /** From a call that is not on the condition variable, follow the owners of the locks. */
  lemma {:induction false} FindMover(reg: Registry, s: State, c: CallId) returns (d: CallId)
    requires InvBase(reg, s) && c in s.calls && !s.calls[c].Waiting?
    ensures CanMove(reg, s, d)
    decreases if Wants(s.calls[c]).Some? then 2 - Rank(Wants(s.calls[c]).value) else -1
  {
    if Wants(s.calls[c]).Some? && Wants(s.calls[c]).value !in s.locks {
      d := c;
    } else if Ready(s, c) {
      d := c;
      assert CallBase(reg, s.table, s.calls[c]);
      var choice := SomeChoice(reg, s, s.calls[c]);
      assert Enabled(reg, s, Run(c, choice));
    } else {
      var owner := s.locks[Wants(s.calls[c]).value];
      var l := Wants(s.calls[c]).value;
      assert Uses(s.calls[owner], l);
      if Wants(s.calls[owner]) == Some(l) {
        assert CallBase(reg, s.table, s.calls[owner]);
        var choice := SomeChoice(reg, s, s.calls[owner]);
        assert Enabled(reg, s, Run(owner, choice));
        d := owner;
      } else {
        LockOrder(s.calls[owner], l);
        d := FindMover(reg, s, owner);
      }
    }
  }

  /** Deadlock freedom: in every reachable state with calls in flight some call can go on,
      without counting spurious wake-ups. Waiters on a condition variable, the order of the
      locks and the state mutex are all part of this. */
  lemma SomeCallCanMove(reg: Registry, r: Trace, i: nat)
    requires IsRun(reg, r) && i < |r.states|
    requires r.states[i].calls != map[]
    ensures exists c :: CanMove(reg, r.states[i], c)
  {
    var s := r.states[i];
    EntriesAlongRun(reg, r, i);
    var c :| c in s.calls;
    if s.calls[c].Waiting? {
      assert CallBase(reg, s.table, s.calls[c]);
      c :| c in s.calls && IsCreator(s.calls[c]);
    }
    var d := FindMover(reg, s, c);
  }

  // ---------------------------------------------------------------- results of activateRoute

  /** While the table belongs to the active provider: at the commit of the call that created an entry it
      succeeds exactly if the provider accepted and nobody has failed the entry. */
  lemma CommitVerdict(reg: Registry, s: State, c: CallId, choice: Choice)
    requires ValidRegistry(reg) && Inv(reg, s) && HistoryInv(s) && Fires(reg, s, c, choice)
    requires s.calls[c].ActCommit?
    ensures
      var pc, s' := s.calls[c], ExecRun(reg, s, c, choice);
      && s'.table.WellFormed() && pc.entry < |s.table.entries| && pc.entry < |s'.table.entries|
      && c in s.history && c in s'.history
      && var kept := pc.activated && s.table.entries[pc.entry].state == Activating;
      && (kept <==> c !in s'.calls && s'.history[c] == s.history[c] + [Unlocked(pc.p), Returned(true)])
      && (kept ==> Routed(s'.table, pc.p, pc.target)
                   && s'.table.routes[KeyOf(pc.p, pc.target)] == pc.entry
                   && s'.table.active == pc.p
                   && s'.table.entries[pc.entry].generation == s'.table.generation)
      && (!kept ==> s'.table.entries[pc.entry].state == Failed
                    && forall k :: k in s'.table.routes ==> s'.table.routes[k] != pc.entry)
  {
    var pc, s' := s.calls[c], ExecRun(reg, s, c, choice);
    assert CallOk(reg, s.table, pc);
    CurrentIsActivating(reg, s.table, pc.p, pc.target, pc.entry);
    CommitKeeps(reg, s.table, pc.p, pc.target, pc.entry, pc.activated);
    CommitRoutes(reg, s.table, pc.p, pc.target, pc.entry, pc.activated);
    CommitHistory(reg, s, c, choice);
    forall k | k in s'.table.routes
      ensures RouteOk(reg, s'.table, k)
    {
    }
  }

  lemma CommitHistory(reg: Registry, s: State, c: CallId, choice: Choice)
    requires HistoryInv(s) && Fires(reg, s, c, choice) && s.calls[c].ActCommit?
    ensures
      var pc, s' := s.calls[c], ExecRun(reg, s, c, choice);
      var kept := pc.activated && Current(s.table, pc.p, KeyOf(pc.p, pc.target), pc.entry);
      && s'.table == Commit(s.table, pc.p, KeyOf(pc.p, pc.target), pc.entry, pc.activated)
      && c in s'.history
      && (kept <==> c !in s'.calls && s'.history[c] == s.history[c] + [Unlocked(pc.p), Returned(true)])
  {
    var pc, s', h := s.calls[c], ExecRun(reg, s, c, choice), s.history[c];
    var kept := pc.activated && Current(s.table, pc.p, KeyOf(pc.p, pc.target), pc.entry);
    if kept || !pc.activated {
      assert s'.history[c] == h + [Unlocked(pc.p), Returned(kept)];
      assert s'.history[c][|h| + 1] == Returned(kept);
    }
  }

  /** Compensation: in every run, a finished call whose target the provider accepted either
      succeeded, or had the provider drop that target before it gave up the provider's mutex. */
  lemma StaleActivationIsUndone(reg: Registry, r: Trace, n: nat, c: CallId, i: nat)
    requires IsRun(reg, r) && n < |r.states|
    requires c in r.states[n].history && c !in r.states[n].calls
    requires i < |r.states[n].history[c]| && r.states[n].history[c][i].Accepted?
    ensures
      var h := r.states[n].history[c];
      var e := h[i];
      && |h| > 0 && h[|h| - 1].Returned?
      && (h[|h| - 1] == Returned(true) ==> h[i + 1..] == [Unlocked(e.p), Returned(true)])
      && (h[|h| - 1] == Returned(false) ==>
          h[i + 1..] == [Dropped(e.p, e.target), Unlocked(e.p), Returned(false)])
  {
    LocksAlongRun(reg, r, n);
    var h := r.states[n].history[c];
    assert Finished(h);
    assert h[i + 1..] == h[i..][1..];
  }

  // ---------------------------------------------------------------- nothing is leaked

  /** Whatever a provider has accepted and not dropped is an Active route of the table, or a
      call in flight owes it; so when no call is in flight, providers serve Active routes only,
      and inactive providers serve none. */
  lemma NoRouteIsLeaked(reg: Registry, r: Trace, i: nat)
    requires ValidRegistry(reg) && IsRun(reg, r) && NeverOverridden(r) && i < |r.states|
    ensures r.states[i].table.WellFormed()
    ensures forall p, target :: Has(r.states[i], p, target) ==>
      || Routed(r.states[i].table, p, target)
      || exists c :: c in r.states[i].calls && Owes(r.states[i].calls[c], p, target)
    ensures r.states[i].calls == map[] ==>
      forall p, target :: Has(r.states[i], p, target) ==>
        p == r.states[i].table.active && Routed(r.states[i].table, p, target)
  {
    InvariantAlongRun(reg, r, i);
    var s := r.states[i];
    forall p, target | Has(s, p, target) && Routed(s.table, p, target)
      ensures p == s.table.active
    {
      assert RouteOk(reg, s.table, KeyOf(p, target));
    }
  }

  // ---------------------------------------------------------------- where the promises end

  /** Why runs with `setActiveProviderId` are left out above: it does not clear the routes, so
      exactly if there are none it leaves a table that belongs to the active provider. */
  lemma OverrideKeepsOwnership(reg: Registry, s: State, c: CallId, choice: Choice)
    requires TableInv(reg, s.table) && Fires(reg, s, c, choice) && s.calls[c].SetPublish?
    ensures
      var t := ExecRun(reg, s, c, choice).table;
      && t.WellFormed() && t.active == s.calls[c].id
      && ((forall k :: k in t.routes ==> k.providerId == t.active && t.At(k).generation == t.generation)
          <==> s.table.routes == map[])
  {
    var t := ExecRun(reg, s, c, choice).table;
    assert forall k :: k in s.table.routes ==> RouteOk(reg, s.table, k) && t.At(k).generation != t.generation;
    if s.table.routes != map[] {
      var k :| k in s.table.routes;
      assert k in t.routes && t.At(k).generation != t.generation;
    }
  }
}
