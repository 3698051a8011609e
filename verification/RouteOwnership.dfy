/**
 Without `setActiveProviderId` every step also keeps the part of the invariant about the active
 provider: all routes are its own, of its current run, and while a selection is under way there
 are none.
 */
module RouteOwnership {
  import opened RouteTable
  import opened RouteProtocol
  import opened RouteLocks
  import opened RouteInvariants
  import opened RouteCoverage
  import opened Wrappers
  import RouteSteps

  ghost predicate Owned(reg: Registry, s: State) {
    TableInv(reg, s.table) && forall c :: c in s.calls ==> CallOwned(s.table, s.calls[c])
  }

  lemma BaseAndOwned(reg: Registry, s: State)
    requires InvBase(reg, s) && Owned(reg, s)
    ensures Inv(reg, s)
  {
    forall c | c in s.calls
      ensures CallOk(reg, s.table, s.calls[c])
    {
      assert CallBase(reg, s.table, s.calls[c]) && CallOwned(s.table, s.calls[c]);
    }
  }

  /** Only the owner of the lifecycle mutex publishes a provider, so no other selection is under way. */
  lemma OthersOwned(reg: Registry, s: State, c: CallId, s': State)
    requires Inv(reg, s) && c in s.calls && OthersStay(s, c, s') && TableInv(reg, s'.table)
    requires s'.table.active == s.table.active || s'.table.active == "" || Keeps(s.calls[c]) == Some(Lifecycle)
    requires c in s'.calls ==> CallOwned(s'.table, s'.calls[c])
    ensures Owned(reg, s')
  {
    forall d | d in s'.calls
      ensures CallOwned(s'.table, s'.calls[d])
    {
      if d != c {
        assert CallOk(reg, s.table, s.calls[d]);
      }
    }
  }

  // ---------------------------------------------------------------- the blocks

  lemma ActivateOwned(reg: Registry, s: State, c: CallId, choice: Choice)
    requires At(reg, s, c, choice) && IsActivate(s.calls[c])
    ensures TableInv(reg, ExecActivate(reg, s, c, choice).table)
    ensures ExecActivate(reg, s, c, choice).table.active == s.table.active
  {
    var pc, t := s.calls[c], s.table;
    assert CallOk(reg, t, pc);
    if pc.ActEnter? && t.active == pc.p && KeyOf(pc.p, pc.target) !in t.routes {
      CreateKeeps(reg, t, pc.p, pc.target);
      RouteSteps.CreateMoves(reg, s, c, choice);
    } else if pc.ActCommit? {
      CommitKeeps(reg, t, pc.p, pc.target, pc.entry, pc.activated);
    } else if pc.ActEnter? || pc.Rejoin? {
      AwaitOwned(reg, s, c, choice);
    } else {
      AskLeavesTable(reg, s, c, choice);
    }
  }

  lemma AwaitOwned(reg: Registry, s: State, c: CallId, choice: Choice)
    requires TableInv(reg, s.table) && Fires(reg, s, c, choice) && (s.calls[c].ActEnter? || s.calls[c].Rejoin?)
    requires s.calls[c].ActEnter? ==>
      s.table.active != s.calls[c].p || KeyOf(s.calls[c].p, s.calls[c].target) in s.table.routes
    ensures TableInv(reg, ExecActivate(reg, s, c, choice).table)
    ensures ExecActivate(reg, s, c, choice).table.active == s.table.active
  {
    var pc, t := s.calls[c], s.table;
    if pc.Rejoin? {
      JoinKeeps(reg, t, pc.entry);
    } else if KeyOf(pc.p, pc.target) in t.routes {
      JoinKeeps(reg, t, t.routes[KeyOf(pc.p, pc.target)]);
    }
  }

  /** Only three blocks of `activateRoute` touch the table. */
  lemma AskLeavesTable(reg: Registry, s: State, c: CallId, choice: Choice)
    requires Fires(reg, s, c, choice) && IsActivate(s.calls[c])
    requires !s.calls[c].ActCommit? && !s.calls[c].ActEnter? && !s.calls[c].Rejoin?
    ensures ExecActivate(reg, s, c, choice).table == s.table
  {
  }

  lemma UseOwned(reg: Registry, s: State, c: CallId, choice: Choice)
    requires At(reg, s, c, choice) && IsUse(s.calls[c])
    ensures TableInv(reg, ExecUse(reg, s, c, choice).table)
    ensures ExecUse(reg, s, c, choice).table.active == s.table.active
  {
    if s.calls[c].DeaEnter? {
      ReleasedState(reg, s, c, choice);
      ReleaseKeeps(reg, s.table, choice.found);
    }
  }

  lemma SelectOwned(reg: Registry, s: State, c: CallId, choice: Choice)
    requires At(reg, s, c, choice) && IsSelect(s.calls[c])
    ensures
      var s' := ExecSelect(reg, s, c, choice);
      TableInv(reg, s'.table) && (c in s'.calls ==> CallOwned(s'.table, s'.calls[c]))
    ensures
      var s' := ExecSelect(reg, s, c, choice);
      s'.table.active == s.table.active || s'.table.active == "" || Keeps(s.calls[c]) == Some(Lifecycle)
  {
    assert CallOk(reg, s.table, s.calls[c]);
    if s.calls[c].SelStop? {
      StopKeeps(reg, s.table);
    } else if s.calls[c].SelPublish? {
      PublishKeeps(reg, s.table, s.calls[c].id);
    }
  }

  lemma OtherOwned(reg: Registry, s: State, c: CallId, choice: Choice)
    requires At(reg, s, c, choice) && IsOther(s.calls[c])
    ensures ExecOther(reg, s, c, choice).table == s.table
    ensures c in ExecOther(reg, s, c, choice).calls ==>
      CallOwned(s.table, ExecOther(reg, s, c, choice).calls[c])
  {
    assert CallOk(reg, s.table, s.calls[c]);
  }

  lemma RunOwned(reg: Registry, s: State, c: CallId, choice: Choice)
    requires At(reg, s, c, choice)
    ensures Owned(reg, ExecRun(reg, s, c, choice))
  {
    var pc, s' := s.calls[c], ExecRun(reg, s, c, choice);
    RunShape(reg, s, c, choice);
    if IsActivate(pc) { ActivateOwned(reg, s, c, choice); StaysInKind(reg, s, c, choice); }
    else if IsUse(pc) { UseOwned(reg, s, c, choice); StaysInKind(reg, s, c, choice); }
    else if IsSelect(pc) { SelectOwned(reg, s, c, choice); }
    else { OtherOwned(reg, s, c, choice); }
    OthersOwned(reg, s, c, s');
  }

  /** Calls on routes never become selections or overrides. */
  lemma StaysInKind(reg: Registry, s: State, c: CallId, choice: Choice)
    requires Fires(reg, s, c, choice) && (IsActivate(s.calls[c]) || IsUse(s.calls[c]))
    ensures
      var s' := ExecRun(reg, s, c, choice);
      c in s'.calls ==> IsActivate(s'.calls[c]) || IsUse(s'.calls[c])
  {
  }

  /** One step of the protocol other than the beginning of an override. */
  lemma StepKeeps(reg: Registry, s: State, step: Step, s': State)
    requires ValidRegistry(reg) && Inv(reg, s) && Next(reg, s, step, s')
    requires !(step.Begin? && step.first.SetEnter?)
    ensures Inv(reg, s')
  {
    InvIsBase(reg, s);
    RouteSteps.StepKeeps(reg, s, step, s');
    StepOwned(reg, s, step, s');
    BaseAndOwned(reg, s');
  }

  lemma StepOwned(reg: Registry, s: State, step: Step, s': State)
    requires ValidRegistry(reg) && Inv(reg, s) && Next(reg, s, step, s')
    requires !(step.Begin? && step.first.SetEnter?)
    ensures Owned(reg, s')
  {
    if step.Run? {
      RunOwned(reg, s, step.c, step.choice);
    } else {
      forall c | c in s.calls
        ensures CallOwned(s.table, s.calls[c])
      {
        assert CallOk(reg, s.table, s.calls[c]);
      }
    }
  }
}
