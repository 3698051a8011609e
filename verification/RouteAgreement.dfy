/**
 When table and provider agree although calls overlap: every Active route is served by its
 provider, provided that no route is created while some call is still on its way to make the
 provider drop that very target, and no provider with Active routes is stopped behind the
 manager's back.
 */
module RouteAgreement {
  import opened RouteTable
  import opened RouteProtocol
  import opened RouteLocks
  import opened RouteInvariants
  import opened RouteCoverage
  import opened Wrappers
  import RouteSteps
  import RouteTheorems

  ghost predicate Owns(s: State, c: CallId, p: ProviderId) {
    Operations(p) in s.locks && s.locks[Operations(p)] == c
  }

  /** A call at `pc` will have `p` drop this target. */
  predicate Strikes(pc: Pc, p: ProviderId, target: RouteTarget) {
    || ((pc.DeaTell? || pc.ActUndo?) && pc.p == p && pc.target == target)
    || ((pc.ActRetire? || pc.ActAsk?) && pc.p == p && target in pc.retired)
  }

  /** A call at `pc` endangers the target of entry `e`: it will have the target dropped, or it is
      activating that target for another entry and may have to take it back. */
  predicate Threatens(pc: Pc, p: ProviderId, target: RouteTarget, e: EntryRef) {
    Strikes(pc, p, target) || (IsCreator(pc) && pc.p == p && pc.target == target && pc.entry != e)
  }

  // ---------------------------------------------------------------- the invariant

  /** Only new routes are in danger, and only from calls that will be done with the provider
      before the creator of the route gets to it. */
  ghost predicate Guarded(s: State)
    requires s.table.WellFormed()
  {
    forall k, d ::
      k in s.table.routes && d in s.calls
      && Threatens(s.calls[d], k.providerId, s.table.At(k).target, s.table.routes[k]) ==>
        s.table.At(k).state == Activating && Owns(s, d, k.providerId)
  }

  /** The provider serves every Active route. */
  ghost predicate Served(s: State)
    requires s.table.WellFormed()
  {
    forall k :: k in s.table.routes && s.table.At(k).state == Active ==> Has(s, k.providerId, s.table.At(k).target)
  }

  /** A call that may still commit its entry has a target to show for it. */
  ghost predicate Promised(s: State, pc: Pc) {
    pc.ActCommit? && pc.activated && pc.entry < |s.table.entries| && s.table.entries[pc.entry].state == Activating ==>
      Has(s, pc.p, pc.target)
  }

  ghost predicate Agreed(s: State) {
    && s.table.WellFormed() && Guarded(s) && Served(s)
    && forall d :: d in s.calls ==> Promised(s, s.calls[d])
  }

  // ---------------------------------------------------------------- one block of a call

  /** The commit of call `c` makes the route at `k` Active. */
  ghost predicate Settles(s: State, c: CallId, s': State, k: RouteKey)
    requires s.table.WellFormed() && k in s.table.routes && c in s.calls
  {
    && s.calls[c].ActCommit? && s.calls[c].activated && c !in s'.calls
    && s.calls[c].entry == s.table.routes[k] && s.table.At(k).state == Activating
    && s.calls[c].p == k.providerId && s.calls[c].target == s.table.At(k).target
  }

  /** A route that was there before, up to being settled. */
  ghost predicate Stays(s: State, c: CallId, s': State, k: RouteKey)
    requires s.table.WellFormed() && s'.table.WellFormed() && k in s'.table.routes && c in s.calls
  {
    && k in s.table.routes && s'.table.routes[k] == s.table.routes[k]
    && s'.table.At(k).target == s.table.At(k).target
    && (s'.table.At(k).state == s.table.At(k).state || Settles(s, c, s', k))
    && (c in s'.calls && Threatens(s'.calls[c], k.providerId, s.table.At(k).target, s.table.routes[k]) ==>
        && Threatens(s.calls[c], k.providerId, s.table.At(k).target, s.table.routes[k])
        && Keeps(s'.calls[c]) == Some(Operations(k.providerId)))
  }

  /** A route that the block has created, in danger at most from calls that own the provider. */
  ghost predicate Starts(s': State, k: RouteKey)
    requires s'.table.WellFormed() && k in s'.table.routes
  {
    && s'.table.At(k).state == Activating
    && forall d :: d in s'.calls
                   && Threatens(s'.calls[d], k.providerId, s'.table.At(k).target, s'.table.routes[k]) ==>
         Owns(s', d, k.providerId)
  }

  ghost predicate RoutesStay(s: State, c: CallId, s': State)
    requires c in s.calls
  {
    && s.table.WellFormed() && s'.table.WellFormed()
    && forall k :: k in s'.table.routes ==> Stays(s, c, s', k) || Starts(s', k)
  }

  /** No entry returns to Activating. */
  ghost predicate EntriesAge(t: Table, t': Table) {
    forall e :: 0 <= e < |t.entries| && e < |t'.entries| && t'.entries[e].state == Activating ==>
      t.entries[e].state == Activating
  }

  /** The provider drops only what call `c` strikes, or all when it has no Active route; either
      way the call owns the provider. */
  ghost predicate Justified(s: State, c: CallId, s': State)
    requires s.table.WellFormed() && c in s.calls
  {
    forall p, target :: Has(s, p, target) && !Has(s', p, target) ==>
      && Owns(s, c, p)
      && (Strikes(s.calls[c], p, target) || (!s.calls[c].ActCommit? && Idle(s.table, p)))
  }

  /** None of the routes of `p` is Active. */
  ghost predicate Idle(t: Table, p: ProviderId)
    requires t.WellFormed()
  {
    forall k :: k in t.routes && k.providerId == p ==> t.At(k).state != Active
  }

  ghost predicate Behaves(s: State, c: CallId, s': State)
    requires c in s.calls
  {
    && RoutesStay(s, c, s') && EntriesAge(s.table, s'.table) && |s.table.entries| <= |s'.table.entries|
    && Justified(s, c, s')
    && (c in s'.calls ==> Promised(s', s'.calls[c]))
  }

  /** A call other than the acting one keeps the locks it owns. */
  lemma OwnersStay(s: State, c: CallId, s': State, d: CallId, p: ProviderId)
    requires LockInv(s) && c in s.calls && Ready(s, c) && Shaped(s, c, s')
    requires Owns(s, d, p) && (d == c ==> c in s'.calls && Keeps(s'.calls[c]) == Some(Operations(p)))
    ensures Owns(s', d, p)
  {
    var l := Operations(p);
    if d != c {
      assert !Uses(s.calls[c], l);
    }
  }

  lemma GuardStays(s: State, c: CallId, s': State)
    requires LockInv(s) && c in s.calls && Ready(s, c) && Shaped(s, c, s')
    requires RoutesStay(s, c, s') && Guarded(s)
    ensures Guarded(s')
  {
    forall k, d | k in s'.table.routes && d in s'.calls
                  && Threatens(s'.calls[d], k.providerId, s'.table.At(k).target, s'.table.routes[k])
      ensures s'.table.At(k).state == Activating && Owns(s', d, k.providerId)
    {
      if Stays(s, c, s', k) {
        assert d in s.calls && Threatens(s.calls[d], k.providerId, s.table.At(k).target, s.table.routes[k]);
        OwnersStay(s, c, s', d, k.providerId);
      }
    }
  }

  lemma ServiceStays(s: State, c: CallId, s': State)
    requires c in s.calls && RoutesStay(s, c, s') && Justified(s, c, s')
    requires Guarded(s) && Served(s) && Promised(s, s.calls[c])
    ensures Served(s')
  {
    forall k | k in s'.table.routes && s'.table.At(k).state == Active
      ensures Has(s', k.providerId, s'.table.At(k).target)
    {
      assert Stays(s, c, s', k);
      var target := s.table.At(k).target;
      assert Has(s, k.providerId, target);
      if !Settles(s, c, s', k) {
        assert !Threatens(s.calls[c], k.providerId, target, s.table.routes[k]);
      }
    }
  }

  lemma PromiseStays(s: State, c: CallId, s': State, d: CallId)
    requires LockInv(s) && c in s.calls && d in s.calls && d != c
    requires s.table.WellFormed() && EntriesAge(s.table, s'.table) && |s.table.entries| <= |s'.table.entries|
    requires s.calls[d].ActCommit? ==> s.calls[d].entry < |s.table.entries|
    requires Justified(s, c, s') && Promised(s, s.calls[d])
    ensures Promised(s', s.calls[d])
  {
    var pc := s.calls[d];
    if pc.ActCommit? {
      assert Keeps(pc) == Some(Operations(pc.p));
      assert !Owns(s, c, pc.p);
    }
  }

  lemma BehavesKeeps(reg: Registry, s: State, c: CallId, s': State)
    requires Inv(reg, s) && c in s.calls && Ready(s, c) && Shaped(s, c, s')
    requires Agreed(s) && Behaves(s, c, s')
    ensures Agreed(s')
  {
    GuardStays(s, c, s');
    ServiceStays(s, c, s');
    forall d | d in s'.calls
      ensures Promised(s', s'.calls[d])
    {
      if d != c {
        assert CallOk(reg, s.table, s.calls[d]);
        PromiseStays(s, c, s', d);
      }
    }
  }

  // ---------------------------------------------------------------- the blocks

  /** The block leaves table and providers alone and the call does not become a danger. */
  ghost predicate Calm(s: State, c: CallId, s': State)
    requires c in s.calls
  {
    && s'.table == s.table && s'.accepted == s.accepted
    && (c in s'.calls ==>
          && !s'.calls[c].ActCommit?
          && (forall p, target, e :: Threatens(s'.calls[c], p, target, e) ==>
                Threatens(s.calls[c], p, target, e) && Keeps(s'.calls[c]) == Some(Operations(p))))
  }

  lemma CalmBehaves(s: State, c: CallId, s': State)
    requires c in s.calls && s.table.WellFormed() && Calm(s, c, s')
    ensures Behaves(s, c, s')
  {
  }

  /** What a step must not do: create a route whose target is about to be dropped by a call that
      still waits for the provider, or stop a provider that has Active routes with `stopProvider`. */
  ghost predicate Careful(s: State, step: Step) {
    step.Run? && step.c in s.calls ==>
      var pc := s.calls[step.c];
      && (pc.ActEnter? && s.table.active == pc.p && KeyOf(pc.p, pc.target) !in s.table.routes ==>
            forall d :: d in s.calls && d != step.c && Threatens(s.calls[d], pc.p, pc.target, |s.table.entries|) ==>
              Owns(s, d, pc.p))
      && (pc.RunTell? && !pc.starting && s.table.WellFormed() ==> Idle(s.table, pc.id))
  }

  lemma FindBehaves(reg: Registry, s: State, c: CallId, choice: Choice)
    requires At(reg, s, c, choice) && (s.calls[c].ActFind? || s.calls[c].ActRetire?)
    ensures Behaves(s, c, ExecActivate(reg, s, c, choice))
  {
    CalmBehaves(s, c, ExecActivate(reg, s, c, choice));
  }

  lemma AwaitBehaves(reg: Registry, s: State, c: CallId, p: ProviderId, target: RouteTarget, e: EntryRef)
    requires TableInv(reg, s.table) && c in s.calls && e < |s.table.entries|
    ensures Behaves(s, c, Await(s, c, p, target, e))
  {
    var s' := Await(s, c, p, target, e);
    if s.table.entries[e].state == Activating {
      CalmBehaves(s, c, s');
    } else {
      assert s'.table == Join(s.table, e) && c !in s'.calls;
    }
  }

  /** The call that created the route at `key` strikes only routes that are gone. */
  lemma RetiredAreGone(reg: Registry, t: Table, p: ProviderId, target: RouteTarget, k: RouteKey)
    requires TableInv(reg, t) && p in reg && t.active == p && KeyOf(p, target) !in t.routes
    requires k in Create(t, p, target, reg[p]).routes && k != KeyOf(p, target)
    ensures k in t.routes && t.At(k).target !in ActiveTargets(t, Replaced(t, p, target, reg[p]))
    ensures t.At(k).target != target
  {
    assert RouteOk(reg, t, k);
    assert Replaced(t, p, target, reg[p]) == {};
  }

  lemma NewTargetIsNotRetired(reg: Registry, t: Table, p: ProviderId, target: RouteTarget)
    requires TableInv(reg, t) && p in reg && t.active == p && KeyOf(p, target) !in t.routes
    ensures target !in ActiveTargets(t, Replaced(t, p, target, reg[p]))
  {
    assert forall j :: j in t.routes ==> RouteOk(reg, t, j);
  }

  lemma CreatedRoutesStay(reg: Registry, s: State, c: CallId, s': State)
    requires TableInv(reg, s.table) && c in s.calls && s.calls[c].ActEnter? && s.calls[c].p in reg
    requires s.table.active == s.calls[c].p && KeyOf(s.calls[c].p, s.calls[c].target) !in s.table.routes
    requires s'.table == Create(s.table, s.calls[c].p, s.calls[c].target, reg[s.calls[c].p]) && c in s'.calls
    requires
      var p, target, t := s.calls[c].p, s.calls[c].target, s.table;
      s'.calls[c] == ActRetire(p, target, |t.entries|, ActiveTargets(t, Replaced(t, p, target, reg[p])))
    ensures s'.table.WellFormed() && EntriesAge(s.table, s'.table) && |s.table.entries| <= |s'.table.entries|
    ensures forall k :: k in s'.table.routes && k != KeyOf(s.calls[c].p, s.calls[c].target) ==> Stays(s, c, s', k)
  {
    var p, target, t := s.calls[c].p, s.calls[c].target, s.table;
    CreateKeeps(reg, t, p, target);
    forall k | k in s'.table.routes && k != KeyOf(p, target)
      ensures Stays(s, c, s', k)
    {
      RetiredAreGone(reg, t, p, target, k);
      CreatedEntryStays(reg, t, p, target, k);
    }
  }

  lemma CreatedEntryStays(reg: Registry, t: Table, p: ProviderId, target: RouteTarget, k: RouteKey)
    requires TableInv(reg, t) && p in reg && t.active == p && KeyOf(p, target) !in t.routes
    requires k in Create(t, p, target, reg[p]).routes && k in t.routes && k != KeyOf(p, target)
    ensures
      var t' := Create(t, p, target, reg[p]);
      t'.WellFormed() && t'.routes[k] == t.routes[k] && t'.At(k) == t.At(k)
  {
    CreateKeeps(reg, t, p, target);
    CreateEntries(t, p, target, reg[p]);
    assert RouteOk(reg, t, k);
    assert Replaced(t, p, target, reg[p]) == {};
    assert Refs(t, {}) == {};
  }

  /** The new route is in danger at most from calls that own the provider. */
  lemma CreatedRouteStarts(reg: Registry, t: Table, p: ProviderId, target: RouteTarget, c: CallId, s': State)
    requires TableInv(reg, t) && p in reg && t.active == p && KeyOf(p, target) !in t.routes
    requires s'.table == Create(t, p, target, reg[p]) && c in s'.calls
    requires s'.calls[c] == ActRetire(p, target, |t.entries|, ActiveTargets(t, Replaced(t, p, target, reg[p])))
    requires forall d :: d in s'.calls && d != c && Threatens(s'.calls[d], p, target, |t.entries|) ==> Owns(s', d, p)
    ensures s'.table.WellFormed() && KeyOf(p, target) in s'.table.routes && Starts(s', KeyOf(p, target))
  {
    CreateKeeps(reg, t, p, target);
    NewTargetIsNotRetired(reg, t, p, target);
  }

  lemma CreateBehaves(reg: Registry, s: State, c: CallId, choice: Choice)
    requires At(reg, s, c, choice) && s.calls[c].ActEnter? && Careful(s, Run(c, choice))
    requires s.table.active == s.calls[c].p && KeyOf(s.calls[c].p, s.calls[c].target) !in s.table.routes
    ensures Behaves(s, c, ExecActivate(reg, s, c, choice))
  {
    var s' := ExecActivate(reg, s, c, choice);
    var p, target := s.calls[c].p, s.calls[c].target;
    RouteSteps.CreateMoves(reg, s, c, choice);
    RunShape(reg, s, c, choice);
    OwnersStayOwners(s, c, s', p, target, |s.table.entries|);
    CreatedRouteStarts(reg, s.table, p, target, c, s');
    CreatedRoutesStay(reg, s, c, s');
  }

  lemma OwnersStayOwners(s: State, c: CallId, s': State, p: ProviderId, target: RouteTarget, e: EntryRef)
    requires LockInv(s) && c in s.calls && Ready(s, c) && Shaped(s, c, s')
    requires forall d :: d in s.calls && d != c && Threatens(s.calls[d], p, target, e) ==> Owns(s, d, p)
    ensures forall d :: d in s'.calls && d != c && Threatens(s'.calls[d], p, target, e) ==> Owns(s', d, p)
  {
    forall d | d in s'.calls && d != c && Threatens(s'.calls[d], p, target, e)
      ensures Owns(s', d, p)
    {
      assert s'.calls[d] == s.calls[d];
      OwnersStay(s, c, s', d, p);
    }
  }

  lemma EnterBehaves(reg: Registry, s: State, c: CallId, choice: Choice)
    requires At(reg, s, c, choice) && (s.calls[c].ActEnter? || s.calls[c].Rejoin?) && Careful(s, Run(c, choice))
    ensures Behaves(s, c, ExecActivate(reg, s, c, choice))
  {
    var pc := s.calls[c];
    var key := KeyOf(pc.p, pc.target);
    if pc.Rejoin? {
      AwaitBehaves(reg, s, c, pc.p, pc.target, pc.entry);
    } else if s.table.active != pc.p {
      CalmBehaves(s, c, ExecActivate(reg, s, c, choice));
    } else if key in s.table.routes {
      AwaitBehaves(reg, s, c, pc.p, pc.target, s.table.routes[key]);
    } else {
      CreateBehaves(reg, s, c, choice);
    }
  }

  lemma AskBehaves(reg: Registry, s: State, c: CallId, choice: Choice)
    requires At(reg, s, c, choice) && s.calls[c].ActAsk?
    ensures Behaves(s, c, ExecActivate(reg, s, c, choice))
  {
    if s.calls[c].retired != {} {
      RetireBehaves(reg, s, c, choice);
    } else {
      AnswerBehaves(reg, s, c, choice);
    }
  }

  lemma RetireBehaves(reg: Registry, s: State, c: CallId, choice: Choice)
    requires TableInv(reg, s.table) && LockInv(s) && Fires(reg, s, c, choice)
    requires s.calls[c].ActAsk? && s.calls[c].retired != {}
    ensures Behaves(s, c, ExecActivate(reg, s, c, choice))
  {
    assert Keeps(s.calls[c]) == Some(Operations(s.calls[c].p));
  }

  lemma AnswerBehaves(reg: Registry, s: State, c: CallId, choice: Choice)
    requires TableInv(reg, s.table) && Fires(reg, s, c, choice)
    requires s.calls[c].ActAsk? && s.calls[c].retired == {}
    ensures Behaves(s, c, ExecActivate(reg, s, c, choice))
  {
  }

  /** Commit settles the route of the call or removes it; the others stay. */
  lemma CommittedRoutesStay(reg: Registry, s: State, c: CallId, s': State)
    requires TableInv(reg, s.table) && c in s.calls && s.calls[c].ActCommit?
    requires CallOk(reg, s.table, s.calls[c])
    requires
      var pc := s.calls[c];
      var key := KeyOf(pc.p, pc.target);
      && s'.table == Commit(s.table, pc.p, key, pc.entry, pc.activated)
      && (c in s'.calls ==>
            s'.calls[c] == ActUndo(pc.p, pc.target) && pc.activated && !Current(s.table, pc.p, key, pc.entry))
    ensures RoutesStay(s, c, s') && EntriesAge(s.table, s'.table) && |s.table.entries| == |s'.table.entries|
  {
    var pc := s.calls[c];
    CurrentIsActivating(reg, s.table, pc.p, pc.target, pc.entry);
    CommitKeeps(reg, s.table, pc.p, pc.target, pc.entry, pc.activated);
    forall k | k in s'.table.routes
      ensures Stays(s, c, s', k)
    {
      assert RouteOk(reg, s.table, k);
    }
  }

  lemma CommitBehaves(reg: Registry, s: State, c: CallId, choice: Choice)
    requires At(reg, s, c, choice) && s.calls[c].ActCommit?
    ensures Behaves(s, c, ExecActivate(reg, s, c, choice))
  {
    var s' := ExecActivate(reg, s, c, choice);
    CommittedState(reg, s, c, choice);
    CommittedRoutesStay(reg, s, c, s');
  }

  lemma CommittedState(reg: Registry, s: State, c: CallId, choice: Choice)
    requires Fires(reg, s, c, choice) && s.calls[c].ActCommit?
    ensures
      var pc, s' := s.calls[c], ExecActivate(reg, s, c, choice);
      var key := KeyOf(pc.p, pc.target);
      && s'.table == Commit(s.table, pc.p, key, pc.entry, pc.activated) && s'.accepted == s.accepted
      && (c in s'.calls ==>
            s'.calls[c] == ActUndo(pc.p, pc.target) && pc.activated && !Current(s.table, pc.p, key, pc.entry))
  {
  }

  lemma UndoBehaves(reg: Registry, s: State, c: CallId, choice: Choice)
    requires At(reg, s, c, choice) && s.calls[c].ActUndo?
    ensures Behaves(s, c, ExecActivate(reg, s, c, choice))
  {
    assert Keeps(s.calls[c]) == Some(Operations(s.calls[c].p));
  }

  /** A release removes the route whose target it will have dropped. */
  lemma ReleasedRoutesStay(reg: Registry, s: State, c: CallId, found: Option<RouteKey>, s': State)
    requires TableInv(reg, s.table) && c in s.calls && s.calls[c].DeaEnter?
      && (found.Some? ==> found.value in s.table.routes)
    requires s'.table == Release(s.table, found)
    requires c in s'.calls ==>
      found.Some? && found.value !in s'.table.routes && s'.calls[c] ==
        DeaTell(s.calls[c].p, s.table.At(found.value).target)
    ensures RoutesStay(s, c, s') && EntriesAge(s.table, s'.table) && |s.table.entries| == |s'.table.entries|
  {
    ReleaseKeeps(reg, s.table, found);
    if found.Some? {
      assert RouteOk(reg, s.table, found.value);
    }
    forall k | k in s'.table.routes
      ensures Stays(s, c, s', k)
    {
      assert RouteOk(reg, s.table, k);
    }
  }

  lemma ReleaseBehaves(reg: Registry, s: State, c: CallId, choice: Choice)
    requires At(reg, s, c, choice) && s.calls[c].DeaEnter?
    ensures Behaves(s, c, ExecUse(reg, s, c, choice))
  {
    ReleasedState(reg, s, c, choice);
    ReleasedRoutesStay(reg, s, c, choice.found, ExecUse(reg, s, c, choice));
  }

  lemma DropBehaves(reg: Registry, s: State, c: CallId, choice: Choice)
    requires At(reg, s, c, choice) && s.calls[c].DeaTell?
    ensures Behaves(s, c, ExecUse(reg, s, c, choice))
  {
  }

  lemma PrepareBehaves(reg: Registry, s: State, c: CallId, choice: Choice)
    requires At(reg, s, c, choice) && (s.calls[c].PreEnter? || s.calls[c].PreAsk? || s.calls[c].PreCheck?)
    ensures Behaves(s, c, ExecUse(reg, s, c, choice))
  {
    CalmBehaves(s, c, ExecUse(reg, s, c, choice));
  }

  lemma StopBehaves(reg: Registry, s: State, c: CallId, choice: Choice)
    requires At(reg, s, c, choice) && s.calls[c].SelStop?
    ensures Behaves(s, c, ExecSelect(reg, s, c, choice))
  {
    StoppedState(reg, s, c, choice);
    StopKeeps(reg, s.table);
    NoRoutes(reg, Stop(s.table));
  }

  lemma StoppedState(reg: Registry, s: State, c: CallId, choice: Choice)
    requires Fires(reg, s, c, choice) && s.calls[c].SelStop?
    ensures
      var s' := ExecSelect(reg, s, c, choice);
      && s'.table == Stop(s.table) && s'.accepted == s.accepted && (c in s'.calls ==> !s'.calls[c].ActCommit?)
  {
  }

  /** Between stopping and publishing there are no routes. */
  lemma NoRoutes(reg: Registry, t: Table)
    requires ValidRegistry(reg) && TableInv(reg, t) && t.active == ""
    ensures t.routes == map[]
  {
    assert forall k :: k in t.routes ==> RouteOk(reg, t, k);
    assert t.routes.Keys == {};
  }

  lemma HaltBehaves(reg: Registry, s: State, c: CallId, choice: Choice)
    requires At(reg, s, c, choice) && s.calls[c].SelHalt?
    ensures Behaves(s, c, ExecSelect(reg, s, c, choice))
  {
    assert CallOk(reg, s.table, s.calls[c]);
    NoRoutes(reg, s.table);
  }

  lemma SelectBehaves(reg: Registry, s: State, c: CallId, choice: Choice)
    requires At(reg, s, c, choice)
    requires s.calls[c].SelEnter? || s.calls[c].SelFind? || s.calls[c].SelStart?
    ensures Behaves(s, c, ExecSelect(reg, s, c, choice))
  {
    CalmBehaves(s, c, ExecSelect(reg, s, c, choice));
  }

  lemma PublishBehaves(reg: Registry, s: State, c: CallId, choice: Choice)
    requires At(reg, s, c, choice) && s.calls[c].SelPublish?
    ensures Behaves(s, c, ExecSelect(reg, s, c, choice))
  {
    assert CallOk(reg, s.table, s.calls[c]);
    NoRoutes(reg, s.table);
  }

  lemma TellBehaves(reg: Registry, s: State, c: CallId, choice: Choice)
    requires At(reg, s, c, choice) && s.calls[c].RunTell? && Careful(s, Run(c, choice))
    ensures Behaves(s, c, ExecOther(reg, s, c, choice))
  {
  }

  lemma OtherBehaves(reg: Registry, s: State, c: CallId, choice: Choice)
    requires At(reg, s, c, choice) && IsOther(s.calls[c]) && !s.calls[c].RunTell?
    ensures Behaves(s, c, ExecOther(reg, s, c, choice))
  {
    assert CallOk(reg, s.table, s.calls[c]);
    CalmBehaves(s, c, ExecOther(reg, s, c, choice));
  }

  lemma RunBehaves(reg: Registry, s: State, c: CallId, choice: Choice)
    requires At(reg, s, c, choice) && Careful(s, Run(c, choice))
    ensures Behaves(s, c, ExecRun(reg, s, c, choice))
  {
    var pc := s.calls[c];
    if pc.ActFind? || pc.ActRetire? { FindBehaves(reg, s, c, choice); }
    else if pc.ActEnter? || pc.Rejoin? { EnterBehaves(reg, s, c, choice); }
    else if pc.ActAsk? { AskBehaves(reg, s, c, choice); }
    else if pc.ActCommit? { CommitBehaves(reg, s, c, choice); }
    else if pc.ActUndo? { UndoBehaves(reg, s, c, choice); }
    else if pc.DeaEnter? { ReleaseBehaves(reg, s, c, choice); }
    else if pc.DeaTell? { DropBehaves(reg, s, c, choice); }
    else if IsUse(pc) { PrepareBehaves(reg, s, c, choice); }
    else if pc.SelStop? { StopBehaves(reg, s, c, choice); }
    else if pc.SelHalt? { HaltBehaves(reg, s, c, choice); }
    else if pc.SelPublish? { PublishBehaves(reg, s, c, choice); }
    else if IsSelect(pc) { SelectBehaves(reg, s, c, choice); }
    else if pc.RunTell? { TellBehaves(reg, s, c, choice); }
    else { OtherBehaves(reg, s, c, choice); }
  }

  // ---------------------------------------------------------------- whole runs

  /** A new call, a lock taken or a spurious wake-up is no danger to any route. */
  lemma QuietStepAgrees(s: State, s': State)
    requires Agreed(s) && s'.table == s.table && s'.accepted == s.accepted
    requires forall d :: d in s'.calls ==>
      (d in s.calls && s'.calls[d] == s.calls[d]) || s'.calls[d].Rejoin? || IsFirst(s'.calls[d])
    requires forall d, p :: Owns(s, d, p) ==> Owns(s', d, p)
    ensures Agreed(s')
  {
  }

  lemma StepAgrees(reg: Registry, s: State, step: Step, s': State)
    requires ValidRegistry(reg) && Inv(reg, s) && Agreed(s) && Next(reg, s, step, s') && Careful(s, step)
    ensures Agreed(s')
  {
    match step
    case Run(c, choice) =>
      RunShape(reg, s, c, choice);
      RunBehaves(reg, s, c, choice);
      BehavesKeeps(reg, s, c, s');
    case Begin(c, first) => QuietStepAgrees(s, s');
    case Acquire(c) => QuietStepAgrees(s, s');
    case WakeSpuriously(c) => QuietStepAgrees(s, s');
  }

  ghost predicate CarefulRun(r: Trace) {
    |r.states| == |r.steps| + 1 && forall i :: 0 <= i < |r.steps| ==> Careful(r.states[i], r.steps[i])
  }

  lemma {:induction false} AgreedAlongRun(reg: Registry, r: Trace, i: nat)
    requires ValidRegistry(reg) && IsRun(reg, r) && NeverOverridden(r) && CarefulRun(r) && i < |r.states|
    ensures Agreed(r.states[i])
  {
    if i > 0 {
      AgreedAlongRun(reg, r, i - 1);
      RouteTheorems.InvariantAlongRun(reg, r, i - 1);
      assert Next(reg, r.states[i - 1], r.steps[i - 1], r.states[i - 1 + 1]);
      assert Careful(r.states[i - 1], r.steps[i - 1]);
      StepAgrees(reg, r.states[i - 1], r.steps[i - 1], r.states[i]);
    }
  }

  /** Agreement: in every careful run every Active route is served, at every moment, and when no
      call is in flight the providers serve exactly the Active routes. */
  lemma TableAndProviderAgree(reg: Registry, r: Trace, i: nat)
    requires ValidRegistry(reg) && IsRun(reg, r) && NeverOverridden(r) && CarefulRun(r) && i < |r.states|
    ensures r.states[i].table.WellFormed()
    ensures forall p, target :: Routed(r.states[i].table, p, target) ==> Has(r.states[i], p, target)
    ensures r.states[i].calls == map[] ==>
      forall p, target :: Has(r.states[i], p, target) <==> Routed(r.states[i].table, p, target)
  {
    AgreedAlongRun(reg, r, i);
    RouteTheorems.NoRouteIsLeaked(reg, r, i);
  }
}
