/**
 What the result of `prepareRouteForStreaming` means, in every interleaving.
 */
module RoutePrepare {
  import opened RouteTable
  import opened RouteProtocol
  import opened RouteLocks
  import opened RouteInvariants
  import opened RouteHistory
  import opened RouteGenerations
  import RouteTheorems
  import opened Wrappers

  /** At step `i` the call has found an Active route of a registered provider, with this target,
      under the key it was asked for. */
  ghost predicate FoundAt(reg: Registry, r: Trace, i: nat, c: CallId, first: Pc, target: RouteTarget)
    requires first.PreEnter?
  {
    && Looks(r, i, c, first) && r.states[i].table.WellFormed() && first.p in reg
    && var found := r.steps[i].choice.found;
    && Finds(r.states[i].table.routes.Keys, first.p, first.peer, first.address, found) && found.Some?
    && found.value in r.states[i].table.routes
    && r.states[i].table.At(found.value).state == Active && r.states[i].table.At(found.value).target == target
  }

  /** At step `i` it has found no such route. */
  ghost predicate MissedAt(reg: Registry, r: Trace, i: nat, c: CallId, first: Pc)
    requires first.PreEnter?
  {
    && Looks(r, i, c, first) && r.states[i].table.WellFormed()
    && var found := r.steps[i].choice.found;
    && Finds(r.states[i].table.routes.Keys, first.p, first.peer, first.address, found)
    && (first.p !in reg || found == None
        || (found.value in r.states[i].table.routes && r.states[i].table.At(found.value).state != Active))
  }

  ghost predicate Looks(r: Trace, i: nat, c: CallId, first: Pc) {
    && i < |r.steps| && i < |r.states| && r.steps[i].Run? && r.steps[i].c == c
    && c in r.states[i].calls && r.states[i].calls[c] == first
  }

  /** Step `k` is the check after the provider's answer. */
  ghost predicate ChecksAt(r: Trace, k: nat, c: CallId) {
    && k < |r.steps| && k < |r.states| && r.steps[k].Run? && r.steps[k].c == c
    && c in r.states[k].calls && r.states[k].calls[c].PreCheck?
  }

  // ---------------------------------------------------------------- a call under way

  /** The call has still to look for its route. */
  ghost predicate Starting(s: State, c: CallId, first: Pc) {
    c in s.calls && c in s.history && s.calls[c] == first && s.history[c] == []
  }

  /** It has found its route at step `i` and goes to ask the provider. */
  ghost predicate Asking(reg: Registry, r: Trace, s: State, c: CallId, first: Pc, i: nat, target: RouteTarget)
    requires first.PreEnter?
  {
    && FoundAt(reg, r, i, c, first, target) && c in s.calls && c in s.history
    && s.calls[c] == PreAsk(first.p, target, r.states[i].table.generation) && s.history[c] == []
  }

  /** It has the provider's answer. */
  ghost predicate Answered(reg: Registry, r: Trace, s: State, c: CallId, first: Pc, i: nat, target: RouteTarget,
                           answer: bool)
    requires first.PreEnter?
  {
    && FoundAt(reg, r, i, c, first, target) && c in s.calls && c in s.history
    && s.calls[c] == PreCheck(first.p, r.states[i].table.generation, answer)
    && s.history[c] == [Prepared(first.p, target, answer)]
  }

  /** It has returned without asking. */
  ghost predicate Declined(reg: Registry, r: Trace, s: State, c: CallId, first: Pc, i: nat)
    requires first.PreEnter?
  {
    && MissedAt(reg, r, i, c, first) && c !in s.calls && c in s.history && s.history[c] == [Returned(false)]
  }

  /** It has returned: true exactly if the provider said yes and none was stopped or published from
      finding the route to checking. */
  ghost predicate Concluded(reg: Registry, r: Trace, s: State, c: CallId, first: Pc, i: nat, k: nat,
                            target: RouteTarget, answer: bool)
    requires first.PreEnter?
  {
    && i < k && FoundAt(reg, r, i, c, first, target) && ChecksAt(r, k, c) && c !in s.calls && c in s.history
    && s.history[c] ==
       [Prepared(first.p, target, answer), Unlocked(first.p), Returned(answer && NoSwitch(r, i, k))]
  }

  ghost predicate OnItsWay(reg: Registry, r: Trace, n: nat, c: CallId, first: Pc)
    requires first.PreEnter? && n < |r.states|
  {
    || Starting(r.states[n], c, first)
    || (exists i: nat, target :: i < n && Asking(reg, r, r.states[n], c, first, i, target))
    || (exists i: nat, target, answer :: i < n && Answered(reg, r, r.states[n], c, first, i, target, answer))
    || Through(reg, r, n, c, first)
  }

  ghost predicate Through(reg: Registry, r: Trace, n: nat, c: CallId, first: Pc)
    requires first.PreEnter? && n < |r.states|
  {
    || (exists i: nat :: i < n && Declined(reg, r, r.states[n], c, first, i))
    || (exists i: nat, k: nat, target, answer ::
          k < n && Concluded(reg, r, r.states[n], c, first, i, k, target, answer))
  }

  // ---------------------------------------------------------------- its steps

  lemma LookStep(reg: Registry, s: State, c: CallId, choice: Choice)
    requires Fires(reg, s, c, choice) && s.calls[c].PreEnter? && c in s.history && s.history[c] == []
    ensures
      var found, pc, s' := choice.found, s.calls[c], ExecUse(reg, s, c, choice);
      && c in s'.history
      && if pc.p in reg && found.Some? && s.table.At(found.value).state == Active
         then c in s'.calls && s'.history[c] == []
              && s'.calls[c] == PreAsk(pc.p, s.table.At(found.value).target, s.table.At(found.value).generation)
         else c !in s'.calls && s'.history[c] == [Returned(false)]
  {
  }

  lemma AskStep(reg: Registry, s: State, c: CallId, choice: Choice)
    requires Fires(reg, s, c, choice) && s.calls[c].PreAsk? && c in s.history && s.history[c] == []
    ensures
      var pc, s' := s.calls[c], ExecUse(reg, s, c, choice);
      && c in s'.history && s'.history[c] == [Prepared(pc.p, pc.target, choice.answer)]
      && c in s'.calls && s'.calls[c] == PreCheck(pc.p, pc.generation, choice.answer)
  {
  }

  lemma CheckStep(reg: Registry, s: State, c: CallId, choice: Choice)
    requires Fires(reg, s, c, choice) && s.calls[c].PreCheck? && c in s.history
    ensures
      var pc, s' := s.calls[c], ExecUse(reg, s, c, choice);
      var valid := s.table.active == pc.p && s.table.generation == pc.generation;
      && c !in s'.calls && c in s'.history
      && s'.history[c] == s.history[c] + [Unlocked(pc.p), Returned(pc.prepared && valid)]
  {
  }

  /** The route found is the active provider's, and of its current run. */
  lemma FoundIsCurrent(reg: Registry, r: Trace, i: nat, c: CallId, first: Pc, target: RouteTarget)
    requires ValidRegistry(reg) && IsRun(reg, r) && NeverOverridden(r) && first.PreEnter?
    requires FoundAt(reg, r, i, c, first, target)
    ensures r.states[i].table.active == first.p
    ensures r.states[i].table.At(r.steps[i].choice.found.value).generation == r.states[i].table.generation
  {
    RouteTheorems.InvariantAlongRun(reg, r, i);
    assert RouteOk(reg, r.states[i].table, r.steps[i].choice.found.value);
  }

  lemma LookOnward(reg: Registry, r: Trace, n: nat, c: CallId, first: Pc)
    requires ValidRegistry(reg) && IsRun(reg, r) && NeverOverridden(r) && first.PreEnter? && n < |r.steps|
    requires Starting(r.states[n], c, first) && r.steps[n].Run? && r.steps[n].c == c
    ensures OnItsWay(reg, r, n + 1, c, first)
  {
    var s, choice := r.states[n], r.steps[n].choice;
    assert Next(reg, s, r.steps[n], r.states[n + 1]);
    LookStep(reg, s, c, choice);
    var found := choice.found;
    if first.p in reg && found.Some? && s.table.At(found.value).state == Active {
      FoundIsCurrent(reg, r, n, c, first, s.table.At(found.value).target);
      assert Asking(reg, r, r.states[n + 1], c, first, n, s.table.At(found.value).target);
    } else {
      assert Declined(reg, r, r.states[n + 1], c, first, n);
    }
  }

  lemma AskOnward(reg: Registry, r: Trace, n: nat, c: CallId, first: Pc, i: nat, target: RouteTarget)
    requires IsRun(reg, r) && first.PreEnter? && n < |r.steps| && i < n
    requires Asking(reg, r, r.states[n], c, first, i, target) && r.steps[n].Run? && r.steps[n].c == c
    ensures OnItsWay(reg, r, n + 1, c, first)
  {
    assert Next(reg, r.states[n], r.steps[n], r.states[n + 1]);
    AskStep(reg, r.states[n], c, r.steps[n].choice);
    assert Answered(reg, r, r.states[n + 1], c, first, i, target, r.steps[n].choice.answer);
  }

  lemma CheckOnward(reg: Registry, r: Trace, n: nat, c: CallId, first: Pc, i: nat, target: RouteTarget, answer: bool)
    requires ValidRegistry(reg) && IsRun(reg, r) && NeverOverridden(r) && first.PreEnter? && n < |r.steps| && i < n
    requires Answered(reg, r, r.states[n], c, first, i, target, answer) && r.steps[n].Run? && r.steps[n].c == c
    ensures OnItsWay(reg, r, n + 1, c, first)
  {
    assert Next(reg, r.states[n], r.steps[n], r.states[n + 1]);
    CheckStep(reg, r.states[n], c, r.steps[n].choice);
    FoundIsCurrent(reg, r, i, c, first, target);
    GenerationCounts(reg, r, i, n);
    assert Concluded(reg, r, r.states[n + 1], c, first, i, n, target, answer);
  }

  lemma OthersOnward(reg: Registry, r: Trace, n: nat, c: CallId, first: Pc)
    requires IsRun(reg, r) && first.PreEnter? && n < |r.steps| && OnItsWay(reg, r, n, c, first)
    requires !(r.steps[n].Run? && r.steps[n].c == c)
    ensures OnItsWay(reg, r, n + 1, c, first)
  {
    var s, s' := r.states[n], r.states[n + 1];
    assert Next(reg, s, r.steps[n], s');
    RouteTheorems.LocksAlongRun(reg, r, n);
    OtherStep(reg, s, r.steps[n], s', c);
    SameIsOnward(reg, r, n, c, first);
  }

  lemma SameIsOnward(reg: Registry, r: Trace, n: nat, c: CallId, first: Pc)
    requires first.PreEnter? && n + 1 < |r.states| && OnItsWay(reg, r, n, c, first)
    requires Same(r.states[n], r.states[n + 1], c)
    ensures OnItsWay(reg, r, n + 1, c, first)
  {
    var s, s' := r.states[n], r.states[n + 1];
    if i: nat, target :| i < n && Asking(reg, r, s, c, first, i, target) {
      assert Asking(reg, r, s', c, first, i, target);
    } else if i: nat, target, answer :| i < n && Answered(reg, r, s, c, first, i, target, answer) {
      assert Answered(reg, r, s', c, first, i, target, answer);
    } else if i: nat :| i < n && Declined(reg, r, s, c, first, i) {
      assert Declined(reg, r, s', c, first, i);
    } else if i: nat, k: nat, target, answer :| k < n && Concluded(reg, r, s, c, first, i, k, target, answer) {
      assert Concluded(reg, r, s', c, first, i, k, target, answer);
    }
  }

  lemma StepOnward(reg: Registry, r: Trace, n: nat, c: CallId, first: Pc)
    requires ValidRegistry(reg) && IsRun(reg, r) && NeverOverridden(r) && first.PreEnter? && n < |r.steps|
    requires OnItsWay(reg, r, n, c, first)
    ensures OnItsWay(reg, r, n + 1, c, first)
  {
    assert Next(reg, r.states[n], r.steps[n], r.states[n + 1]);
    if !(r.steps[n].Run? && r.steps[n].c == c) {
      OthersOnward(reg, r, n, c, first);
    } else if Starting(r.states[n], c, first) {
      LookOnward(reg, r, n, c, first);
    } else if i: nat, target :| i < n && Asking(reg, r, r.states[n], c, first, i, target) {
      AskOnward(reg, r, n, c, first, i, target);
    } else if i: nat, target, answer :| i < n && Answered(reg, r, r.states[n], c, first, i, target, answer) {
      CheckOnward(reg, r, n, c, first, i, target, answer);
    }
  }

  // ---------------------------------------------------------------- the verdict

  lemma {:induction false} PrepareOnItsWay(reg: Registry, r: Trace, b: nat, n: nat, c: CallId, first: Pc)
    requires ValidRegistry(reg) && IsRun(reg, r) && NeverOverridden(r) && b < n < |r.states|
    requires first.PreEnter? && r.steps[b] == Begin(c, first)
    ensures OnItsWay(reg, r, n, c, first)
    decreases n
  {
    if n == b + 1 {
      assert Next(reg, r.states[b], r.steps[b], r.states[b + 1]);
      assert Starting(r.states[n], c, first);
    } else {
      PrepareOnItsWay(reg, r, b, n - 1, c, first);
      StepOnward(reg, r, n - 1, c, first);
    }
  }

  /** A finished call has either found no Active route of a registered provider under its key; then
      it returned false and nobody was asked. Or it found one and asked the provider about its
      target; then it returned true exactly if the provider said yes and no provider was stopped
      or published from finding the route to the check. */
  lemma PrepareVerdict(reg: Registry, r: Trace, b: nat, n: nat, c: CallId, first: Pc)
    requires ValidRegistry(reg) && IsRun(reg, r) && NeverOverridden(r) && b < n < |r.states|
    requires first.PreEnter? && r.steps[b] == Begin(c, first) && c !in r.states[n].calls
    ensures
      || (exists i: nat :: i < n && Declined(reg, r, r.states[n], c, first, i))
      || (exists i: nat, k: nat, target, answer ::
            k < n && Concluded(reg, r, r.states[n], c, first, i, k, target, answer))
  {
    PrepareOnItsWay(reg, r, b, n, c, first);
    assert Through(reg, r, n, c, first);
  }
}
