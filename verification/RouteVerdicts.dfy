/**
 What the result of `activateRoute` means, wherever a call returns from it.
 */
module RouteVerdicts {
  import opened RouteTable
  import opened RouteProtocol
  import opened RouteLocks
  import opened RouteInvariants
  import opened RouteTheorems
  import opened RouteGenerations
  import opened RouteJoiners
  import opened RouteCoverage
  import RouteSteps
  import opened Wrappers

  /** The call commits an entry of its own: its provider has accepted, nobody has failed the entry, and
      no provider has been stopped or published since it was created. */
  ghost predicate Creates(r: Trace, i: nat, c: CallId)
    requires i < |r.states|
  {
    var s := r.states[i];
    && c in s.calls && s.calls[c].ActCommit? && s.calls[c].activated
    && s.calls[c].entry < |s.table.entries| && s.table.entries[s.calls[c].entry].state == Activating
    && SameRun(r, i, s.calls[c].entry)
  }

  /** It joins an Active entry that was created in the present run of its provider. */
  ghost predicate JoinsActive(r: Trace, i: nat, c: CallId)
    requires i < |r.states|
  {
    exists e: EntryRef :: Joins(r.states[i], c, e) && r.states[i].table.entries[e].state == Active && SameRun(r, i, e)
  }

  /** The call has just returned this. */
  ghost predicate Returns(s: State, c: CallId, result: bool) {
    && c !in s.calls && c in s.history && s.history[c] != []
    && s.history[c][|s.history[c]| - 1] == Returned(result)
  }

  /** The three-part check of the commit section, in every run. */
  lemma CurrentExactly(reg: Registry, s: State, c: CallId)
    requires InvBase(reg, s) && Dated(s) && c in s.calls && s.calls[c].ActCommit?
    ensures s.calls[c].entry < |s.table.entries|
    ensures
      var pc, t := s.calls[c], s.table;
      Current(t, pc.p, KeyOf(pc.p, pc.target), pc.entry)
      <==> t.entries[pc.entry].state == Activating && t.entries[pc.entry].generation == t.generation
  {
    var pc, t := s.calls[c], s.table;
    assert CallBase(reg, t, pc);
    var key := KeyOf(pc.p, pc.target);
    if key in t.routes && t.routes[key] == pc.entry {
      assert EntryOk(reg, t, key);
    }
  }

  lemma CreatesExactly(reg: Registry, r: Trace, i: nat, c: CallId)
    requires IsRun(reg, r) && i < |r.states| && c in r.states[i].calls && r.states[i].calls[c].ActCommit?
    ensures r.states[i].calls[c].entry < |r.states[i].table.entries|
    ensures
      var pc := r.states[i].calls[c];
      Creates(r, i, c) <==> pc.activated && Current(r.states[i].table, pc.p, KeyOf(pc.p, pc.target), pc.entry)
  {
    EntriesAlongRun(reg, r, i);
    DatedAlongRun(reg, r, i);
    CurrentExactly(reg, r.states[i], c);
    SameGeneration(reg, r, i, r.states[i].calls[c].entry);
  }

  /** What the commit section leaves behind. */
  lemma CommitBlock(reg: Registry, s: State, c: CallId, choice: Choice)
    requires BaseAt(reg, s, c, choice) && s.calls[c].ActCommit? && s.calls[c].entry < |s.table.entries|
    ensures
      var pc, s' := s.calls[c], ExecActivate(reg, s, c, choice);
      var kept := pc.activated && Current(s.table, pc.p, KeyOf(pc.p, pc.target), pc.entry);
      && s'.table.WellFormed() && pc.entry < |s'.table.entries|
      && (kept ==> Routed(s'.table, pc.p, pc.target) && s'.table.routes == s.table.routes
                   && s'.table.routes[KeyOf(pc.p, pc.target)] == pc.entry
                   && s'.table.active == pc.p
                   && s'.table.entries[pc.entry].generation == s'.table.generation)
      && (!kept ==> s'.table.entries[pc.entry].state == Failed
                    && forall k :: k in s'.table.routes ==> s'.table.routes[k] != pc.entry)
  {
    var pc, t := s.calls[c], s.table;
    assert CallBase(reg, t, pc);
    RouteSteps.CommitMoves(reg, s, c, choice);
    CommitKeepsBase(reg, t, pc.p, pc.target, pc.entry, pc.activated);
    var t' := ExecActivate(reg, s, c, choice).table;
    forall k | k in t'.routes
      ensures EntryOk(reg, t', k)
    {
    }
  }

  lemma CommitLog(reg: Registry, s: State, c: CallId, choice: Choice)
    requires Fires(reg, s, c, choice) && s.calls[c].ActCommit? && c in s.history
    ensures
      var pc, s', h := s.calls[c], ExecActivate(reg, s, c, choice), s.history[c];
      var kept := pc.activated && Current(s.table, pc.p, KeyOf(pc.p, pc.target), pc.entry);
      && c in s'.history
      && if pc.activated && !kept then c in s'.calls && s'.calls[c] == ActUndo(pc.p, pc.target) && s'.history[c] == h
         else c !in s'.calls && s'.history[c] == h + [Unlocked(pc.p)] + [Returned(kept)]
  {
  }

  /** The verdict of the creating call, in every run: it succeeds exactly if its provider has accepted,
      nobody has failed its entry and no provider was stopped or published since it was created. Then
      its route is in the table, Active, of the current generation and of the active provider.
      Otherwise its entry is Failed and out of the table, and what was accepted is to be undone. */
  lemma CreatorVerdict(reg: Registry, r: Trace, i: nat)
    requires IsRun(reg, r) && i < |r.steps| && r.steps[i].Run? && r.steps[i].c in r.states[i].calls
    requires r.states[i].calls[r.steps[i].c].ActCommit?
    ensures
      var s, s', c := r.states[i], r.states[i + 1], r.steps[i].c;
      var pc, kept := s.calls[c], Creates(r, i, c);
      && s'.table.WellFormed() && pc.entry < |s'.table.entries| && c in s.history && c in s'.history
      && (if pc.activated && !kept then c in s'.calls && s'.calls[c] == ActUndo(pc.p, pc.target)
          else c !in s'.calls && s'.history[c] == s.history[c] + [Unlocked(pc.p)] + [Returned(kept)])
      && (kept ==> Routed(s'.table, pc.p, pc.target) && s'.table.routes == s.table.routes
                   && s'.table.routes[KeyOf(pc.p, pc.target)] == pc.entry
                   && s'.table.active == pc.p
                   && s'.table.entries[pc.entry].generation == s'.table.generation)
      && (!kept ==> s'.table.entries[pc.entry].state == Failed
                    && forall k :: k in s'.table.routes ==> s'.table.routes[k] != pc.entry)
  {
    var s, c, choice := r.states[i], r.steps[i].c, r.steps[i].choice;
    assert Next(reg, s, r.steps[i], r.states[i + 1]);
    EntriesAlongRun(reg, r, i);
    LocksAlongRun(reg, r, i);
    CreatesExactly(reg, r, i, c);
    CommitBlock(reg, s, c, choice);
    CommitLog(reg, s, c, choice);
  }

  /** Without overrides a stop fails every entry, so one that is still Activating is of the present run. */
  lemma ActivatingIsPresent(reg: Registry, r: Trace, i: nat, e: EntryRef)
    requires ValidRegistry(reg) && IsRun(reg, r) && NeverOverridden(r) && i < |r.states|
    requires e < |r.states[i].table.entries| && r.states[i].table.entries[e].state == Activating
    ensures SameRun(r, i, e)
  {
    var s := r.states[i];
    InvariantAlongRun(reg, r, i);
    var c :| c in s.calls && IsCreator(s.calls[c]) && s.calls[c].entry == e;
    assert CallOk(reg, s.table, s.calls[c]);
    assert RouteOk(reg, s.table, KeyOf(s.calls[c].p, s.calls[c].target));
    SameGeneration(reg, r, i, e);
  }

  lemma CommitReturns(reg: Registry, r: Trace, i: nat)
    requires IsRun(reg, r) && i < |r.steps| && r.steps[i].Run? && r.steps[i].c in r.states[i].calls
    requires r.states[i].calls[r.steps[i].c].ActCommit? && r.steps[i].c !in r.states[i + 1].calls
    ensures Returns(r.states[i + 1], r.steps[i].c, Creates(r, i, r.steps[i].c))
  {
    CreatorVerdict(reg, r, i);
  }

  /** Blocks that only ever return false. */
  lemma FailureReturns(reg: Registry, s: State, c: CallId, choice: Choice)
    requires Fires(reg, s, c, choice) && (s.calls[c].ActFind? || s.calls[c].ActUndo?) && c in s.history
    requires c !in ExecActivate(reg, s, c, choice).calls
    ensures Returns(ExecActivate(reg, s, c, choice), c, false)
  {
  }

  /** Without the provider being active a call for it fails. */
  lemma InactiveReturns(reg: Registry, s: State, c: CallId, choice: Choice)
    requires Fires(reg, s, c, choice) && s.calls[c].ActEnter? && c in s.history
    requires s.table.active != s.calls[c].p
    ensures Returns(ExecActivate(reg, s, c, choice), c, false)
  {
  }

  lemma AloneReturns(reg: Registry, s: State, c: CallId, choice: Choice)
    requires Fires(reg, s, c, choice) && IsActivate(s.calls[c]) && c in s.history
    requires !s.calls[c].Rejoin? && !s.calls[c].ActCommit?
    requires s.calls[c].ActEnter? ==> s.table.active != s.calls[c].p
    requires c !in ExecActivate(reg, s, c, choice).calls
    ensures Returns(ExecActivate(reg, s, c, choice), c, false)
    ensures forall e: EntryRef :: !Joins(s, c, e)
  {
    var pc := s.calls[c];
    if pc.ActEnter? { InactiveReturns(reg, s, c, choice); }
    else if pc.ActFind? || pc.ActUndo? { FailureReturns(reg, s, c, choice); }
  }

  lemma JoinReturns(reg: Registry, r: Trace, i: nat, e: EntryRef)
    requires IsRun(reg, r) && i < |r.steps| && r.steps[i].Run? && Joins(r.states[i], r.steps[i].c, e)
    requires r.steps[i].c !in r.states[i + 1].calls
    ensures Returns(r.states[i + 1], r.steps[i].c, JoinsActive(r, i, r.steps[i].c))
  {
    var s, c := r.states[i], r.steps[i].c;
    assert Next(reg, s, r.steps[i], r.states[i + 1]);
    assert s.table.entries[e].state != Activating;
    JoinerVerdict(reg, r, i, e);
    assert forall d: EntryRef :: Joins(s, c, d) ==> d == e;
  }

  /** Whatever block a call of `activateRoute` returns from, in every run: it returns true exactly if it
      commits an entry of its own or joins an Active one, of the present run of its provider. */
  lemma ActivateVerdict(reg: Registry, r: Trace, i: nat)
    requires IsRun(reg, r) && i < |r.steps| && r.steps[i].Run?
    requires r.steps[i].c in r.states[i].calls && IsActivate(r.states[i].calls[r.steps[i].c])
    requires r.steps[i].c !in r.states[i + 1].calls
    ensures
      var c := r.steps[i].c;
      Returns(r.states[i + 1], c, Creates(r, i, c) || JoinsActive(r, i, c))
  {
    var s, c := r.states[i], r.steps[i].c;
    assert Next(reg, s, r.steps[i], r.states[i + 1]);
    LocksAlongRun(reg, r, i);
    if s.calls[c].ActCommit? {
      CommitReturns(reg, r, i);
    } else if !s.calls[c].Rejoin? && !(s.calls[c].ActEnter? && s.table.active == s.calls[c].p) {
      AloneReturns(reg, s, c, r.steps[i].choice);
    } else if e: EntryRef :| Joins(s, c, e) {
      JoinReturns(reg, r, i, e);
    }
  }

  /** Which calls get as far as the table: those with a peer, for a registered provider. */
  lemma OnlyKnownProvidersEnter(reg: Registry, s: State, c: CallId, choice: Choice)
    requires Fires(reg, s, c, choice) && s.calls[c].ActFind?
    ensures
      var pc, s' := s.calls[c], ExecRun(reg, s, c, choice);
      && s'.table == s.table
      && (c in s'.calls <==> pc.p in reg && pc.target.peerId != "")
      && (c in s'.calls ==> s'.calls[c] == ActEnter(pc.p, pc.target))
  {
  }
}
