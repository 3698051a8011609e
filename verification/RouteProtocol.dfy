/**
 `RemoteAccessManager` as a protocol between any number of calls in flight.

 A call is a program counter. Each value of `Pc` is a point just before one block
 of code that runs without interruption: a section under the state mutex, or one
 request to a provider under that provider's operations mutex. `Wants` is the lock
 that the block takes first, `Keeps` the lock the call has kept from earlier
 blocks. Taking a lock is a step of its own, so a call can own the lock of its
 next block without having run it, and every other call may move in between.
 */
module RouteProtocol {
  import opened RouteTable
  import opened Wrappers

  type CallId = nat

  datatype Lock = Lifecycle | Operations(provider: ProviderId) | StateMutex

  function Rank(l: Lock): nat {
    match l case Lifecycle => 0 case Operations(_) => 1 case StateMutex => 2
  }

  datatype Pc =
    // activateRoute
    | ActFind(p: ProviderId, target: RouteTarget)
    | ActEnter(p: ProviderId, target: RouteTarget)
    | Waiting(p: ProviderId, target: RouteTarget, entry: EntryRef)
    | Rejoin(p: ProviderId, target: RouteTarget, entry: EntryRef)
    | ActRetire(p: ProviderId, target: RouteTarget, entry: EntryRef, retired: set<RouteTarget>)
    | ActAsk(p: ProviderId, target: RouteTarget, entry: EntryRef, retired: set<RouteTarget>)
    | ActCommit(p: ProviderId, target: RouteTarget, entry: EntryRef, activated: bool)
    | ActUndo(p: ProviderId, target: RouteTarget)
    // deactivateRoute
    | DeaEnter(p: ProviderId, peer: string, address: string)
    | DeaTell(p: ProviderId, target: RouteTarget)
    // prepareRouteForStreaming
    | PreEnter(p: ProviderId, peer: string, address: string)
    | PreAsk(p: ProviderId, target: RouteTarget, generation: nat)
    | PreCheck(p: ProviderId, generation: nat, prepared: bool)
    // selectAndStartProvider; stopActiveProvider is the same without a choice
    | SelEnter(choice: Option<ProviderId>)
    | SelStop(choice: Option<ProviderId>)
    | SelHalt(choice: Option<ProviderId>, halted: ProviderId)
    | SelFind(id: ProviderId)
    | SelStart(id: ProviderId)
    | SelPublish(id: ProviderId)
    // startProvider (`starting`) and stopProvider
    | RunEnter(id: ProviderId, starting: bool)
    | RunFind(id: ProviderId, starting: bool)
    | RunTell(id: ProviderId, starting: bool)
    // setActiveProviderId
    | SetEnter(id: ProviderId)
    | SetPublish(id: ProviderId)
    // poll, allPeers, availableProviders, status
    | SurveyEnter
    | SurveyVisit(rest: seq<ProviderId>)

  /** The lock taken by the block at `pc`. */
  function Wants(pc: Pc): Option<Lock> {
    match pc
    case ActFind(_, _) => Some(StateMutex)
    case ActEnter(_, _) => Some(StateMutex)
    case Waiting(_, _, _) => None
    case Rejoin(_, _, _) => Some(StateMutex)
    case ActRetire(p, _, _, _) => Some(Operations(p))
    case ActAsk(_, _, _, _) => None
    case ActCommit(_, _, _, _) => Some(StateMutex)
    case ActUndo(_, _) => None
    case DeaEnter(_, _, _) => Some(StateMutex)
    case DeaTell(p, _) => Some(Operations(p))
    case PreEnter(_, _, _) => Some(StateMutex)
    case PreAsk(p, _, _) => Some(Operations(p))
    case PreCheck(_, _, _) => Some(StateMutex)
    case SelEnter(_) => Some(Lifecycle)
    case SelStop(_) => Some(StateMutex)
    case SelHalt(_, q) => Some(Operations(q))
    case SelFind(_) => Some(StateMutex)
    case SelStart(id) => Some(Operations(id))
    case SelPublish(_) => Some(StateMutex)
    case RunEnter(_, _) => Some(Lifecycle)
    case RunFind(_, _) => Some(StateMutex)
    case RunTell(id, _) => Some(Operations(id))
    case SetEnter(_) => Some(Lifecycle)
    case SetPublish(_) => Some(StateMutex)
    case SurveyEnter => Some(StateMutex)
    case SurveyVisit(rest) => if rest == [] then None else Some(Operations(rest[0]))
  }

  /** The lock kept from earlier blocks; no call keeps more than one. */
  function Keeps(pc: Pc): Option<Lock> {
    match pc
    case ActAsk(p, _, _, _) => Some(Operations(p))
    case ActCommit(p, _, _, _) => Some(Operations(p))
    case ActUndo(p, _) => Some(Operations(p))
    case PreCheck(p, _, _) => Some(Operations(p))
    case SelStop(_) => Some(Lifecycle)
    case SelHalt(_, _) => Some(Lifecycle)
    case SelFind(_) => Some(Lifecycle)
    case SelStart(_) => Some(Lifecycle)
    case SelPublish(_) => Some(Lifecycle)
    case RunFind(_, _) => Some(Lifecycle)
    case RunTell(_, _) => Some(Lifecycle)
    case SetPublish(_) => Some(Lifecycle)
    case _ => None
  }

  /** What a call has done at the providers, in its own order; `Unlocked` is the release of the
      operations mutex after a call on routes. */
  datatype Event =
    | Accepted(p: ProviderId, target: RouteTarget)
    | Dropped(p: ProviderId, target: RouteTarget)
    | Prepared(p: ProviderId, target: RouteTarget, answer: bool)
    | Unlocked(p: ProviderId)
    | Started(p: ProviderId, answer: bool)
    | Stopped(p: ProviderId)
    | Returned(result: bool)

  datatype State = State(
    table: Table,
    accepted: map<ProviderId, set<RouteTarget>>,
    locks: map<Lock, CallId>,
    calls: map<CallId, Pc>,
    history: map<CallId, seq<Event>>)

  /** What a block cannot know in advance: the provider's answer, the route that
      `findRouteLocked` yields, the next retired target, the providers surveyed. */
  datatype Choice = Choice(
    answer: bool,
    found: Option<RouteKey>,
    victim: RouteTarget,
    slots: seq<ProviderId>)

  datatype Step =
    | Begin(c: CallId, first: Pc)
    | Acquire(c: CallId)
    | Run(c: CallId, choice: Choice)
    | WakeSpuriously(c: CallId)

  predicate IsFirst(pc: Pc) {
    pc.ActFind? || pc.DeaEnter? || pc.PreEnter? || pc.SelEnter? || pc.RunEnter? || pc.SetEnter? || pc.SurveyEnter?
  }

  // ------------------------------------------------------------------- pieces of a step

  function Log(s: State, c: CallId, events: seq<Event>): State {
    s.(history := s.history[c := (if c in s.history then s.history[c] else []) + events])
  }

  function Goto(s: State, c: CallId, pc: Pc): State {
    s.(calls := s.calls[c := pc])
  }

  function Unlock(s: State, released: set<Lock>): State {
    s.(locks := s.locks - released)
  }

  function Return(s: State, c: CallId, result: bool): State {
    Log(s, c, [Returned(result)]).(calls := s.calls - {c})
  }

  /** `notify_all` on the entries in `changed`: their waiters ask for the mutex again. */
  function Wake(pc: Pc, changed: set<EntryRef>): Pc {
    if pc.Waiting? && pc.entry in changed then Rejoin(pc.p, pc.target, pc.entry) else pc
  }

  function Notify(s: State, t: Table, changed: set<EntryRef>): State {
    s.(table := t, calls := map c | c in s.calls :: Wake(s.calls[c], changed))
  }

  function Drop(s: State, p: ProviderId, target: RouteTarget): State {
    s.(accepted := s.accepted[p := (if p in s.accepted then s.accepted[p] else {}) - {target}])
  }

  function Accept(s: State, p: ProviderId, target: RouteTarget): State {
    s.(accepted := s.accepted[p := (if p in s.accepted then s.accepted[p] else {}) + {target}])
  }

  /** `stop` of a provider: it forgets its routes. */
  function Halt(s: State, p: ProviderId): State {
    s.(accepted := s.accepted[p := {}])
  }

  // ---------------------------------------------------------------------- the steps

  ghost predicate Enabled(reg: Registry, s: State, step: Step) {
    match step
    case Begin(c, first) => c !in s.calls && c !in s.history && IsFirst(first)
    case Acquire(c) => c in s.calls && Wants(s.calls[c]).Some? && Wants(s.calls[c]).value !in s.locks
    case WakeSpuriously(c) => c in s.calls && s.calls[c].Waiting?
    case Run(c, choice) => c in s.calls && Ready(s, c) && Legal(reg, s, s.calls[c], choice)
  }

  /** The call owns the lock its block needs; a waiter is never ready. */
  predicate Ready(s: State, c: CallId)
    requires c in s.calls
  {
    var pc := s.calls[c];
    !pc.Waiting? &&
    (Wants(pc).Some? ==> Wants(pc).value in s.locks && s.locks[Wants(pc).value] == c)
  }

  ghost predicate Legal(reg: Registry, s: State, pc: Pc, choice: Choice) {
    && (pc.DeaEnter? ==> Finds(s.table.routes.Keys, pc.p, pc.peer, pc.address, choice.found))
    && (pc.PreEnter? ==> Finds(s.table.routes.Keys, pc.p, pc.peer, pc.address, choice.found))
    && (pc.ActAsk? && pc.retired != {} ==> choice.victim in pc.retired)
    && (pc.SurveyEnter? ==> forall p :: p in choice.slots ==> p in reg)
  }

  /** The wait loop on an entry, with the state mutex held. */
  function Await(s: State, c: CallId, p: ProviderId, target: RouteTarget, e: EntryRef): State
    requires e < |s.table.entries|
  {
    var s1 := Unlock(s, {StateMutex});
    if s.table.entries[e].state == Activating then Goto(s1, c, Waiting(p, target, e))
    else Return(s1.(table := Join(s.table, e)), c, MayJoin(s.table, e))
  }

  /** What every reference of a call points at exists; the precondition of a block. */
  ghost predicate Sound(reg: Registry, s: State, pc: Pc) {
    && s.table.WellFormed()
    && (pc.ActEnter? ==> pc.p in reg)
    && (pc.Waiting? || pc.Rejoin? || pc.ActRetire? || pc.ActAsk? || pc.ActCommit? ==> pc.entry < |s.table.entries|)
  }

  predicate IsActivate(pc: Pc) {
    pc.ActFind? || pc.ActEnter? || pc.Waiting? || pc.Rejoin? || pc.ActRetire? || pc.ActAsk? || pc.ActCommit?
      || pc.ActUndo?
  }

  predicate IsUse(pc: Pc) {
    pc.DeaEnter? || pc.DeaTell? || pc.PreEnter? || pc.PreAsk? || pc.PreCheck?
  }

  predicate IsSelect(pc: Pc) {
    pc.SelEnter? || pc.SelStop? || pc.SelHalt? || pc.SelFind? || pc.SelStart? || pc.SelPublish?
  }

  predicate IsOther(pc: Pc) {
    !IsActivate(pc) && !IsUse(pc) && !IsSelect(pc)
  }

  ghost function ExecActivate(reg: Registry, s: State, c: CallId, choice: Choice): State
    requires c in s.calls && IsActivate(s.calls[c])
    requires Legal(reg, s, s.calls[c], choice) && Sound(reg, s, s.calls[c])
  {
    var t := s.table;
    var free := Unlock(s, {StateMutex});
    match s.calls[c]
    case ActFind(p, target) =>
      if p !in reg || target.peerId == "" then Return(free, c, false) else Goto(free, c, ActEnter(p, target))
    case ActEnter(p, target) =>
      var key := KeyOf(p, target);
      if t.active != p then Return(free, c, false)
      else if key in t.routes then Await(s, c, p, target, t.routes[key])
      else
        var doomed := Replaced(t, p, target, reg[p]);
        Goto(Notify(free, Create(t, p, target, reg[p]), Refs(t, doomed)), c,
             ActRetire(p, target, |t.entries|, ActiveTargets(t, doomed)))
    case Waiting(_, _, _) => s
    case Rejoin(p, target, e) => Await(s, c, p, target, e)
    case ActRetire(p, target, e, retired) => Goto(s, c, ActAsk(p, target, e, retired))
    case ActAsk(p, target, e, retired) =>
      if retired != {}
      then Log(Goto(Drop(s, p, choice.victim), c, ActAsk(p, target, e, retired - {choice.victim})),
               c, [Dropped(p, choice.victim)])
      else if choice.answer
      then Log(Goto(Accept(s, p, target), c, ActCommit(p, target, e, true)), c, [Accepted(p, target)])
      else Goto(s, c, ActCommit(p, target, e, false))
    case ActCommit(p, target, e, activated) =>
      var kept := activated && Current(t, p, KeyOf(p, target), e);
      var s1 := Notify(free, Commit(t, p, KeyOf(p, target), e, activated), {e});
      if activated && !kept then Goto(s1, c, ActUndo(p, target))
      else Return(Log(Unlock(s1, {Operations(p)}), c, [Unlocked(p)]), c, kept)
    case ActUndo(p, target) =>
      Return(Log(Unlock(Drop(s, p, target), {Operations(p)}), c, [Dropped(p, target), Unlocked(p)]), c, false)
  }

  ghost function ExecUse(reg: Registry, s: State, c: CallId, choice: Choice): State
    requires c in s.calls && IsUse(s.calls[c])
    requires Legal(reg, s, s.calls[c], choice) && Sound(reg, s, s.calls[c])
  {
    var t := s.table;
    var free := Unlock(s, {StateMutex});
    match s.calls[c]
    case DeaEnter(p, _, _) =>
      var s1 := free.(table := Release(t, choice.found));
      (match ReleaseVerdict(t, choice.found)
       case Erased(target) =>
         if t.active == p && p in reg then Goto(s1, c, DeaTell(p, target)) else Return(s1, c, true)
       case _ => Return(s1, c, true))
    case DeaTell(p, target) =>
      Return(Log(Unlock(Drop(s, p, target), {Operations(p)}), c, [Dropped(p, target), Unlocked(p)]), c, true)
    case PreEnter(p, _, _) =>
      if choice.found == None || t.At(choice.found.value).state != Active || p !in reg then Return(free, c, false)
      else Goto(free, c, PreAsk(p, t.At(choice.found.value).target, t.At(choice.found.value).generation))
    case PreAsk(p, target, g) =>
      Log(Goto(s, c, PreCheck(p, g, choice.answer)), c, [Prepared(p, target, choice.answer)])
    case PreCheck(p, g, prepared) =>
      Return(Log(Unlock(free, {Operations(p)}), c, [Unlocked(p)]), c, prepared && t.active == p && g == t.generation)
  }

  ghost function ExecSelect(reg: Registry, s: State, c: CallId, choice: Choice): State
    requires c in s.calls && IsSelect(s.calls[c])
    requires Legal(reg, s, s.calls[c], choice) && Sound(reg, s, s.calls[c])
  {
    var t := s.table;
    var free := Unlock(s, {StateMutex});
    match s.calls[c]
    case SelEnter(sel) => Goto(s, c, SelStop(sel))
    case SelStop(sel) =>
      var s1 := Notify(free, Stop(t), Refs(t, RoutesOf(t, t.active)));
      if t.active in reg then Goto(s1, c, SelHalt(sel, t.active))
      else AfterStop(s1, c, sel)
    case SelHalt(sel, q) => AfterStop(Log(Unlock(Halt(s, q), {Operations(q)}), c, [Stopped(q)]), c, sel)
    case SelFind(id) =>
      if id !in reg then Return(Unlock(free, {Lifecycle}), c, false) else Goto(free, c, SelStart(id))
    case SelStart(id) =>
      var s1 := Log(Unlock(s, {Operations(id)}), c, [Started(id, choice.answer)]);
      if choice.answer then Goto(s1, c, SelPublish(id)) else Return(Unlock(s1, {Lifecycle}), c, false)
    case SelPublish(id) => Return(Unlock(free, {Lifecycle}).(table := Publish(t, id)), c, true)
  }

  ghost function ExecOther(reg: Registry, s: State, c: CallId, choice: Choice): State
    requires c in s.calls && IsOther(s.calls[c])
    requires Legal(reg, s, s.calls[c], choice) && Sound(reg, s, s.calls[c])
  {
    var t := s.table;
    var free := Unlock(s, {StateMutex});
    match s.calls[c]
    case RunEnter(id, starting) => Goto(s, c, RunFind(id, starting))
    case RunFind(id, starting) =>
      if id in reg then Goto(free, c, RunTell(id, starting)) else Return(Unlock(free, {Lifecycle}), c, false)
    case RunTell(id, starting) =>
      var s1 := if starting then s else Halt(s, id);
      var event := if starting then Started(id, choice.answer) else Stopped(id);
      Return(Log(Unlock(s1, {Operations(id), Lifecycle}), c, [event]), c, starting && choice.answer)
    case SetEnter(id) => Goto(s, c, SetPublish(id))
    case SetPublish(id) => Return(Unlock(free, {Lifecycle}).(table := Publish(t, id)), c, true)
    case SurveyEnter => Goto(free, c, SurveyVisit(choice.slots))
    case SurveyVisit(rest) =>
      if rest == [] then Return(s, c, true)
      else Goto(Unlock(s, {Operations(rest[0])}), c, SurveyVisit(rest[1..]))
  }

  /** The block at the program counter of call `c`. */
  ghost function ExecRun(reg: Registry, s: State, c: CallId, choice: Choice): State
    requires c in s.calls && Legal(reg, s, s.calls[c], choice) && Sound(reg, s, s.calls[c])
  {
    var pc := s.calls[c];
    if IsActivate(pc) then ExecActivate(reg, s, c, choice)
    else if IsUse(pc) then ExecUse(reg, s, c, choice)
    else if IsSelect(pc) then ExecSelect(reg, s, c, choice)
    else ExecOther(reg, s, c, choice)
  }

  /** After the old provider is down: go on to the chosen one, if there is one. An empty
      choice ends the selection. */
  function AfterStop(s: State, c: CallId, sel: Option<ProviderId>): State {
    if sel == None || sel.value == "" then Return(Unlock(s, {Lifecycle}), c, false)
    else Goto(s, c, SelFind(sel.value))
  }

  ghost predicate Next(reg: Registry, s: State, step: Step, s': State) {
    Enabled(reg, s, step) &&
    match step
    case Begin(c, first) => s' == Log(Goto(s, c, first), c, [])
    case Acquire(c) => s' == s.(locks := s.locks[Wants(s.calls[c]).value := c])
    case WakeSpuriously(c) =>
      var pc := s.calls[c];
      s' == Goto(s, c, Rejoin(pc.p, pc.target, pc.entry))
    case Run(c, choice) => Sound(reg, s, s.calls[c]) && s' == ExecRun(reg, s, c, choice)
  }

  ghost predicate Init(reg: Registry, s: State) {
    && s.table == EmptyTable
    && s.locks == map[] && s.calls == map[] && s.history == map[]
    && (forall p :: p in s.accepted ==> s.accepted[p] == {})
  }

  /** A run: its states and the steps between them. */
  datatype Trace = Trace(states: seq<State>, steps: seq<Step>)

  ghost predicate IsRun(reg: Registry, r: Trace) {
    && |r.states| == |r.steps| + 1
    && Init(reg, r.states[0])
    && forall i :: 0 <= i < |r.steps| ==> Next(reg, r.states[i], r.steps[i], r.states[i + 1])
  }

  /** `setActiveProviderId` is never called. */
  ghost predicate NeverOverridden(r: Trace) {
    forall i :: 0 <= i < |r.steps| ==> !(r.steps[i].Begin? && r.steps[i].first.SetEnter?)
  }

  /** Ids are non-empty. */
  ghost predicate ValidRegistry(reg: Registry) {
    "" !in reg
  }
}
