/**
 What each call has done at its provider, told by its own event history: a provider that
 accepted a route for a call which then fails is told to drop it before any other call
 can reach the provider.
 */
module RouteHistory {
  import opened RouteTable
  import opened RouteProtocol
  import opened RouteLocks

  ghost predicate NothingAccepted(h: seq<Event>) {
    forall i :: 0 <= i < |h| ==> !h[i].Accepted?
  }

  /** The provider's acceptance is the latest thing that happened. */
  ghost predicate JustAccepted(h: seq<Event>, p: ProviderId, target: RouteTarget) {
    |h| > 0 && h[|h| - 1] == Accepted(p, target) && NothingAccepted(h[..|h| - 1])
  }

  /** The history of a call in flight. */
  ghost predicate Unfinished(pc: Pc, h: seq<Event>) {
    && (forall i :: 0 <= i < |h| ==> !h[i].Returned?)
    && (if (pc.ActCommit? && pc.activated) || pc.ActUndo? then JustAccepted(h, pc.p, pc.target)
        else NothingAccepted(h))
  }

  /** The history of a finished call: an acceptance is followed by nothing but the success
      of the call, or by the drop of the same target and only then the unlock. */
  ghost predicate Finished(h: seq<Event>) {
    && |h| > 0 && h[|h| - 1].Returned?
    && forall i :: 0 <= i < |h| && h[i].Accepted? ==>
        || h[i..] == [h[i], Unlocked(h[i].p), Returned(true)]
        || h[i..] == [h[i], Dropped(h[i].p, h[i].target), Unlocked(h[i].p), Returned(false)]
  }

  ghost predicate HistoryInv(s: State) {
    && (forall c :: c in s.calls ==> c in s.history && Unfinished(s.calls[c], s.history[c]))
    && (forall c :: c in s.history && c !in s.calls ==> Finished(s.history[c]))
  }

  /** A finished call without an acceptance. */
  lemma FinishPlain(h: seq<Event>, tail: seq<Event>, result: bool)
    requires NothingAccepted(h) && NothingAccepted(tail)
    ensures Finished(h + tail + [Returned(result)])
  {
    var full := h + tail + [Returned(result)];
    assert full[|full| - 1] == Returned(result);
    assert forall i :: 0 <= i < |full| ==> full[i] in h || full[i] in tail || full[i] == Returned(result);
  }

  lemma FinishAccepted(h: seq<Event>, p: ProviderId, target: RouteTarget, tail: seq<Event>)
    requires JustAccepted(h, p, target)
    requires tail == [Unlocked(p), Returned(true)] || tail == [Dropped(p, target), Unlocked(p), Returned(false)]
    ensures Finished(h + tail)
  {
    var full := h + tail;
    assert forall i :: 0 <= i < |h| - 1 ==> full[i] == h[..|h| - 1][i];
    assert full[|h| - 1..] == [h[|h| - 1]] + tail;
  }

  /** The entry of call `c` in a step: its old history and its new one. */
  ghost predicate Extends(s: State, c: CallId, s': State) {
    && c in s.calls && c in s.history && c in s'.history
    && (forall d :: d != c ==> (d in s.history <==> d in s'.history))
    && (forall d :: d != c && d in s.history ==> s'.history[d] == s.history[d])
    && (c in s'.calls ==> Unfinished(s'.calls[c], s'.history[c]))
    && (c !in s'.calls ==> Finished(s'.history[c]))
  }

  lemma ExtendKeepsHistory(s: State, c: CallId, s': State)
    requires HistoryInv(s) && Extends(s, c, s') && OthersStay(s, c, s')
    ensures HistoryInv(s')
  {
  }

  /** A block that returns or moves on without asking the provider for a route. */
  lemma PlainExtends(s: State, c: CallId, s': State, tail: seq<Event>)
    requires HistoryInv(s) && c in s.calls && NothingAccepted(s.history[c])
    requires forall i :: 0 <= i < |tail| ==> !tail[i].Accepted? && !tail[i].Returned?
    requires forall d :: d != c ==> (d in s.history <==> d in s'.history)
    requires forall d :: d != c && d in s.history ==> s'.history[d] == s.history[d]
    requires c in s'.history
    requires c in s'.calls ==>
      s'.history[c] == s.history[c] + tail && !s'.calls[c].ActUndo?
        && !(s'.calls[c].ActCommit? && s'.calls[c].activated)
    requires c !in s'.calls ==> exists b :: s'.history[c] == s.history[c] + tail + [Returned(b)]
    ensures Extends(s, c, s')
  {
    if c !in s'.calls {
      var b :| s'.history[c] == s.history[c] + tail + [Returned(b)];
      FinishPlain(s.history[c], tail, b);
    }
  }

  lemma EnterExtends(reg: Registry, s: State, c: CallId, choice: Choice)
    requires HistoryInv(s) && Fires(reg, s, c, choice)
    requires s.calls[c].ActFind? || s.calls[c].ActEnter? || s.calls[c].Rejoin?
    ensures Extends(s, c, ExecActivate(reg, s, c, choice))
  {
    var s' := ExecActivate(reg, s, c, choice);
    var h := s.history[c];
    assert h + [] == h;
    PlainExtends(s, c, s', []);
  }

  lemma RetireExtends(reg: Registry, s: State, c: CallId, choice: Choice)
    requires HistoryInv(s) && Fires(reg, s, c, choice) && (s.calls[c].ActRetire? || s.calls[c].ActAsk?)
    ensures Extends(s, c, ExecActivate(reg, s, c, choice))
  {
    var s' := ExecActivate(reg, s, c, choice);
    var h := s.history[c];
    assert h + [] == h;
    var pc := s.calls[c];
    if pc.ActAsk? && pc.retired != {} {
      PlainExtends(s, c, s', [Dropped(pc.p, choice.victim)]);
    } else if pc.ActAsk? && choice.answer {
      assert s'.history[c][..|h|] == h;
    } else {
      PlainExtends(s, c, s', []);
    }
  }

  lemma CommitExtends(reg: Registry, s: State, c: CallId, choice: Choice)
    requires HistoryInv(s) && Fires(reg, s, c, choice) && (s.calls[c].ActCommit? || s.calls[c].ActUndo?)
    ensures Extends(s, c, ExecActivate(reg, s, c, choice))
  {
    var s' := ExecActivate(reg, s, c, choice);
    var h := s.history[c];
    var pc := s.calls[c];
    if pc.ActUndo? {
      assert s'.history[c] == h + [Dropped(pc.p, pc.target), Unlocked(pc.p), Returned(false)];
      FinishAccepted(h, pc.p, pc.target, [Dropped(pc.p, pc.target), Unlocked(pc.p), Returned(false)]);
    } else if pc.activated {
      if c !in s'.calls {
        assert s'.history[c] == h + [Unlocked(pc.p), Returned(true)];
        FinishAccepted(h, pc.p, pc.target, [Unlocked(pc.p), Returned(true)]);
      }
    } else {
      PlainExtends(s, c, s', [Unlocked(pc.p)]);
    }
  }

  lemma ReleaseExtends(reg: Registry, s: State, c: CallId, choice: Choice)
    requires HistoryInv(s) && Fires(reg, s, c, choice) && (s.calls[c].DeaEnter? || s.calls[c].DeaTell?)
    ensures Extends(s, c, ExecUse(reg, s, c, choice))
  {
    var s' := ExecUse(reg, s, c, choice);
    var h := s.history[c];
    assert h + [] == h;
    var pc := s.calls[c];
    PlainExtends(s, c, s', if pc.DeaTell? then [Dropped(pc.p, pc.target), Unlocked(pc.p)] else []);
  }

  lemma PrepareExtends(reg: Registry, s: State, c: CallId, choice: Choice)
    requires HistoryInv(s) && Fires(reg, s, c, choice)
    requires s.calls[c].PreEnter? || s.calls[c].PreAsk? || s.calls[c].PreCheck?
    ensures Extends(s, c, ExecUse(reg, s, c, choice))
  {
    var s' := ExecUse(reg, s, c, choice);
    var h := s.history[c];
    assert h + [] == h;
    var pc := s.calls[c];
    PlainExtends(s, c, s', if pc.PreAsk? then [Prepared(pc.p, pc.target, choice.answer)]
                           else if pc.PreCheck? then [Unlocked(pc.p)] else []);
  }

  lemma SelectExtends(reg: Registry, s: State, c: CallId, choice: Choice)
    requires HistoryInv(s) && Fires(reg, s, c, choice)
    requires s.calls[c].SelEnter? || s.calls[c].SelStop? || s.calls[c].SelHalt?
    ensures Extends(s, c, ExecSelect(reg, s, c, choice))
  {
    var s' := ExecSelect(reg, s, c, choice);
    var h := s.history[c];
    assert h + [] == h;
    PlainExtends(s, c, s', if s.calls[c].SelHalt? then [Stopped(s.calls[c].halted)] else []);
  }

  lemma StartExtends(reg: Registry, s: State, c: CallId, choice: Choice)
    requires HistoryInv(s) && Fires(reg, s, c, choice)
    requires s.calls[c].SelFind? || s.calls[c].SelStart? || s.calls[c].SelPublish?
    ensures Extends(s, c, ExecSelect(reg, s, c, choice))
  {
    var s' := ExecSelect(reg, s, c, choice);
    var h := s.history[c];
    assert h + [] == h;
    PlainExtends(s, c, s', if s.calls[c].SelStart? then [Started(s.calls[c].id, choice.answer)] else []);
  }

  lemma TellExtends(reg: Registry, s: State, c: CallId, choice: Choice)
    requires HistoryInv(s) && Fires(reg, s, c, choice)
    requires s.calls[c].RunEnter? || s.calls[c].RunFind? || s.calls[c].RunTell?
    ensures Extends(s, c, ExecOther(reg, s, c, choice))
  {
    var s' := ExecOther(reg, s, c, choice);
    var h, pc := s.history[c], s.calls[c];
    assert h + [] == h;
    PlainExtends(s, c, s', if !pc.RunTell? then []
                           else [if pc.starting then Started(pc.id, choice.answer) else Stopped(pc.id)]);
  }

  lemma SurveyExtends(reg: Registry, s: State, c: CallId, choice: Choice)
    requires HistoryInv(s) && Fires(reg, s, c, choice)
    requires s.calls[c].SetEnter? || s.calls[c].SetPublish? || s.calls[c].SurveyEnter? || s.calls[c].SurveyVisit?
    ensures Extends(s, c, ExecOther(reg, s, c, choice))
  {
    var s' := ExecOther(reg, s, c, choice);
    var h := s.history[c];
    assert h + [] == h;
    PlainExtends(s, c, s', []);
  }

  lemma RunExtends(reg: Registry, s: State, c: CallId, choice: Choice)
    requires HistoryInv(s) && Fires(reg, s, c, choice)
    ensures Extends(s, c, ExecRun(reg, s, c, choice))
  {
    var pc := s.calls[c];
    if pc.ActCommit? || pc.ActUndo? { CommitExtends(reg, s, c, choice); }
    else if pc.ActRetire? || pc.ActAsk? { RetireExtends(reg, s, c, choice); }
    else if IsActivate(pc) { EnterExtends(reg, s, c, choice); }
    else if pc.DeaEnter? || pc.DeaTell? { ReleaseExtends(reg, s, c, choice); }
    else if IsUse(pc) { PrepareExtends(reg, s, c, choice); }
    else if pc.SelEnter? || pc.SelStop? || pc.SelHalt? { SelectExtends(reg, s, c, choice); }
    else if IsSelect(pc) { StartExtends(reg, s, c, choice); }
    else if pc.RunEnter? || pc.RunFind? || pc.RunTell? { TellExtends(reg, s, c, choice); }
    else { SurveyExtends(reg, s, c, choice); }
  }

  lemma StepKeepsHistory(reg: Registry, s: State, step: Step, s': State)
    requires HistoryInv(s) && Next(reg, s, step, s')
    ensures HistoryInv(s')
  {
    match step
    case Begin(c, first) =>
    case Acquire(c) =>
    case WakeSpuriously(c) =>
    case Run(c, choice) =>
      RunShape(reg, s, c, choice);
      RunExtends(reg, s, c, choice);
      ExtendKeepsHistory(s, c, s');
  }

  // ---------------------------------------------------------------- one call among others

  ghost predicate Same(s: State, s': State, c: CallId) {
    && c in s.history && c in s'.history && s'.history[c] == s.history[c]
    && (c in s'.calls <==> c in s.calls) && (c in s.calls ==> s'.calls[c] == s.calls[c])
  }

  /** The step of another call leaves this one where it is. */
  lemma OtherStep(reg: Registry, s: State, step: Step, s': State, c: CallId)
    requires HistoryInv(s) && Next(reg, s, step, s') && c in s.history
    requires !(step.Run? && step.c == c) && (c in s.calls ==> !s.calls[c].Waiting?)
    ensures Same(s, s', c)
  {
    if step.Run? {
      RunShape(reg, s, step.c, step.choice);
      RunExtends(reg, s, step.c, step.choice);
    }
  }
}
