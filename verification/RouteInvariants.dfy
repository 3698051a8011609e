/**
 What holds of the route table and of every call in flight. The first part, about entries and
 their creators, holds in every interleaving; the second, about the active provider, in those in
 which `setActiveProviderId` is not used.
 */
module RouteInvariants {
  import opened RouteTable
  import opened RouteProtocol
  import opened RouteLocks
  import opened Wrappers

  // ------------------------------------------------------------------ the table alone

  /** The route at `k` has a live entry of that key. */
  ghost predicate EntryOk(reg: Registry, t: Table, k: RouteKey)
    requires t.WellFormed() && k in t.routes
  {
    k.providerId in reg && KeyOf(k.providerId, t.At(k).target) == k && t.At(k).state != Failed
  }

  /** Every route has a live entry, and no two share one. */
  ghost predicate TableBase(reg: Registry, t: Table) {
    && t.WellFormed()
    && (forall k :: k in t.routes ==> EntryOk(reg, t, k))
    && (forall j, k :: j in t.routes && k in t.routes && t.routes[j] == t.routes[k] ==> j == k)
  }

  /** The route at `k` belongs to the active provider and to its current run. */
  ghost predicate RouteOk(reg: Registry, t: Table, k: RouteKey)
    requires t.WellFormed() && k in t.routes
  {
    && k.providerId == t.active && t.active in reg
    && KeyOf(t.active, t.At(k).target) == k
    && t.At(k).generation == t.generation
    && t.At(k).state != Failed
    && t.At(k).references >= 1
  }

  ghost predicate TableInv(reg: Registry, t: Table) {
    && t.WellFormed()
    && (forall k :: k in t.routes ==> RouteOk(reg, t, k))
    && (t.active in reg && reg[t.active] ==> forall j, k :: j in t.routes && k in t.routes ==> j == k)
    && (forall e :: 0 <= e < |t.entries| ==> t.entries[e].generation <= t.generation)
  }

  lemma TableInvIsBase(reg: Registry, t: Table)
    requires TableInv(reg, t)
    ensures TableBase(reg, t)
  {
    forall k | k in t.routes
      ensures EntryOk(reg, t, k)
    {
      assert RouteOk(reg, t, k);
    }
    forall j, k | j in t.routes && k in t.routes && t.routes[j] == t.routes[k]
      ensures j == k
    {
      assert RouteOk(reg, t, j) && RouteOk(reg, t, k);
    }
  }

  /** How a section may treat the entries of other calls. The waiters of `changed` are
      notified; `own` are the entries the section decides about. */
  ghost predicate Respects(t: Table, t': Table, changed: set<EntryRef>, own: set<EntryRef>) {
    && own <= changed
    && |t.entries| <= |t'.entries|
    && (forall e :: 0 <= e < |t.entries| ==>
        && t'.entries[e].target == t.entries[e].target
        && t'.entries[e].generation == t.entries[e].generation
        && (t'.entries[e].state == Activating ==> t.entries[e].state == Activating)
        && (e in own || t'.entries[e].state == t.entries[e].state || (e in changed && t'.entries[e].state == Failed)))
    && (forall k :: k in t.routes && t.routes[k] < |t.entries| && t.routes[k] !in own
          && t.entries[t.routes[k]].state == Activating && t'.entries[t.routes[k]].state == Activating
          ==> k in t'.routes && t'.routes[k] == t.routes[k])
  }

  /** Two routes never share an entry. */
  lemma RoutesAreDistinct(reg: Registry, t: Table, j: RouteKey, k: RouteKey)
    requires TableInv(reg, t) && j in t.routes && k in t.routes && t.routes[j] == t.routes[k]
    ensures j == k
  {
    assert RouteOk(reg, t, j) && RouteOk(reg, t, k);
  }

  /** Different keys lead to different entries. */
  lemma RoutesDiffer(reg: Registry, t: Table, k: RouteKey, key: RouteKey)
    requires TableInv(reg, t) && k in t.routes && key in t.routes && k != key
    ensures t.routes[k] != t.routes[key]
  {
    assert RouteOk(reg, t, k) && RouteOk(reg, t, key);
  }

  /** What `Create` does to each entry. */
  lemma CreateEntries(t: Table, p: ProviderId, target: RouteTarget, exclusive: bool)
    requires t.WellFormed() && KeyOf(p, target) !in t.routes
    ensures
      var t' := Create(t, p, target, exclusive);
      var doomed := Replaced(t, p, target, exclusive);
      && |t'.entries| == |t.entries| + 1
      && t'.entries[|t.entries|] == RouteEntry(target, t.generation, 1, Activating)
      && (forall e :: 0 <= e < |t.entries| ==>
          t'.entries[e] == if e in Refs(t, doomed) then t.entries[e].(state := Failed) else t.entries[e])
      && t'.routes == t.routes[KeyOf(p, target) := |t.entries|] - doomed
  {
    var added := t.(routes := t.routes[KeyOf(p, target) := |t.entries|],
                    entries := t.entries + [RouteEntry(target, t.generation, 1, Activating)]);
    var doomed := Replaced(t, p, target, exclusive);
    assert Replaced(added, p, target, exclusive) == doomed;
    assert Refs(added, doomed) == Refs(t, doomed);
  }

  lemma CreateKeepsBase(reg: Registry, t: Table, p: ProviderId, target: RouteTarget)
    requires TableBase(reg, t) && p in reg && KeyOf(p, target) !in t.routes
    ensures
      var t' := Create(t, p, target, reg[p]);
      && TableBase(reg, t')
      && Respects(t, t', Refs(t, Replaced(t, p, target, reg[p])), {})
      && t'.active == t.active && t'.generation == t.generation
      && |t'.entries| == |t.entries| + 1
      && t'.entries[|t.entries|] == RouteEntry(target, t.generation, 1, Activating)
      && KeyOf(p, target) in t'.routes && t'.routes[KeyOf(p, target)] == |t.entries|
  {
    CreateEntries(t, p, target, reg[p]);
    CreateKeepsEntries(reg, t, p, target);
  }

  lemma CreateKeepsEntries(reg: Registry, t: Table, p: ProviderId, target: RouteTarget)
    requires TableBase(reg, t) && p in reg && KeyOf(p, target) !in t.routes
    ensures TableBase(reg, Create(t, p, target, reg[p]))
  {
    var t', doomed := Create(t, p, target, reg[p]), Replaced(t, p, target, reg[p]);
    CreateEntries(t, p, target, reg[p]);
    forall k | k in t'.routes
      ensures EntryOk(reg, t', k)
    {
      if k != KeyOf(p, target) {
        assert EntryOk(reg, t, k);
        assert t.routes[k] !in Refs(t, doomed);
      }
    }
  }

  lemma CreateKeeps(reg: Registry, t: Table, p: ProviderId, target: RouteTarget)
    requires TableInv(reg, t) && p in reg && t.active == p && KeyOf(p, target) !in t.routes
    ensures
      var t' := Create(t, p, target, reg[p]);
      && TableInv(reg, t')
      && Respects(t, t', Refs(t, Replaced(t, p, target, reg[p])), {})
      && t'.active == t.active && t'.generation == t.generation
      && |t'.entries| == |t.entries| + 1
      && t'.entries[|t.entries|] == RouteEntry(target, t.generation, 1, Activating)
      && KeyOf(p, target) in t'.routes && t'.routes[KeyOf(p, target)] == |t.entries|
  {
    TableInvIsBase(reg, t);
    CreateKeepsBase(reg, t, p, target);
    CreateKeepsOwned(reg, t, p, target);
  }

  lemma CreateKeepsOwned(reg: Registry, t: Table, p: ProviderId, target: RouteTarget)
    requires TableInv(reg, t) && p in reg && t.active == p && KeyOf(p, target) !in t.routes
    ensures TableInv(reg, Create(t, p, target, reg[p]))
  {
    var key, t' := KeyOf(p, target), Create(t, p, target, reg[p]);
    CreateEntries(t, p, target, reg[p]);
    forall k | k in t.routes && reg[p]
      ensures k in Replaced(t, p, target, reg[p])
    {
      assert RouteOk(reg, t, k);
    }
    forall k | k in t'.routes
      ensures RouteOk(reg, t', k)
    {
      if k != key {
        assert RouteOk(reg, t, k);
        assert Replaced(t, p, target, reg[p]) == {};
      }
    }
  }

  lemma JoinKeepsBase(reg: Registry, t: Table, e: EntryRef)
    requires TableBase(reg, t) && e < |t.entries|
    ensures TableBase(reg, Join(t, e)) && Respects(t, Join(t, e), {}, {})
  {
    forall k | k in t.routes
      ensures EntryOk(reg, Join(t, e), k)
    {
      assert EntryOk(reg, t, k);
    }
  }

  lemma JoinKeeps(reg: Registry, t: Table, e: EntryRef)
    requires TableInv(reg, t) && e < |t.entries|
    ensures TableInv(reg, Join(t, e))
  {
    forall k | k in t.routes
      ensures RouteOk(reg, Join(t, e), k)
    {
      assert RouteOk(reg, t, k);
    }
  }

  /** What is known about the entry of a creating call. */
  ghost predicate Undecided(t: Table, p: ProviderId, target: RouteTarget, e: EntryRef) {
    && e < |t.entries| && t.entries[e].target == target && t.entries[e].state != Active
    && (t.entries[e].state == Activating ==> KeyOf(p, target) in t.routes && t.routes[KeyOf(p, target)] == e)
  }

  lemma CommitKeepsBase(reg: Registry, t: Table, p: ProviderId, target: RouteTarget, e: EntryRef, activated: bool)
    requires TableBase(reg, t) && Undecided(t, p, target, e)
    ensures Current(t, p, KeyOf(p, target), e) ==> t.entries[e].state == Activating
    ensures
      var t' := Commit(t, p, KeyOf(p, target), e, activated);
      && TableBase(reg, t')
      && Respects(t, t', {e}, {e}) && |t'.entries| == |t.entries|
      && t'.entries[e].state == if activated && Current(t, p, KeyOf(p, target), e) then Active else Failed
  {
    var key := KeyOf(p, target);
    var t' := Commit(t, p, key, e, activated);
    forall k | k in t.routes
      ensures EntryOk(reg, t, k)
    {
    }
    forall k | k in t'.routes
      ensures EntryOk(reg, t', k)
    {
      assert EntryOk(reg, t, k);
    }
  }

  /** While the table belongs to the active provider, the three-part check of the commit section
      asks one question: has anybody failed my entry? */
  lemma CurrentIsActivating(reg: Registry, t: Table, p: ProviderId, target: RouteTarget, e: EntryRef)
    requires TableInv(reg, t) && Undecided(t, p, target, e)
    ensures Current(t, p, KeyOf(p, target), e) <==> t.entries[e].state == Activating
  {
    var key := KeyOf(p, target);
    if key in t.routes && t.routes[key] == e {
      assert RouteOk(reg, t, key);
    }
  }

  lemma CommitKeeps(reg: Registry, t: Table, p: ProviderId, target: RouteTarget, e: EntryRef, activated: bool)
    requires TableInv(reg, t) && Undecided(t, p, target, e)
    ensures
      var t' := Commit(t, p, KeyOf(p, target), e, activated);
      var kept := activated && t.entries[e].state == Activating;
      && TableInv(reg, t')
      && t'.active == t.active && t'.generation == t.generation && |t'.entries| == |t.entries|
      && t'.entries[e] == t.entries[e].(state := if kept then Active else Failed)
      && (forall k :: k in t'.routes ==> k in t.routes && t'.routes[k] == t.routes[k])
      && (kept ==> t'.routes == t.routes && KeyOf(p, target) in t.routes && t.routes[KeyOf(p, target)] == e)
  {
    CurrentIsActivating(reg, t, p, target, e);
    var key := KeyOf(p, target);
    var t' := Commit(t, p, key, e, activated);
    forall k | k in t'.routes
      ensures RouteOk(reg, t', k)
    {
      assert RouteOk(reg, t, k);
      if key in t.routes && k != key {
        RoutesDiffer(reg, t, k, key);
      }
    }
  }

  lemma ReleaseKeepsBase(reg: Registry, t: Table, found: Option<RouteKey>)
    requires TableBase(reg, t) && (found.Some? ==> found.value in t.routes)
    ensures TableBase(reg, Release(t, found)) && Respects(t, Release(t, found), {}, {})
  {
    var t' := Release(t, found);
    forall k | k in t'.routes
      ensures EntryOk(reg, t', k)
    {
      assert EntryOk(reg, t, k);
    }
  }

  lemma ReleaseKeeps(reg: Registry, t: Table, found: Option<RouteKey>)
    requires TableInv(reg, t) && (found.Some? ==> found.value in t.routes)
    ensures TableInv(reg, Release(t, found))
  {
    var t' := Release(t, found);
    forall k | k in t'.routes
      ensures RouteOk(reg, t', k)
    {
      assert RouteOk(reg, t, k);
    }
  }

  lemma StopKeepsBase(reg: Registry, t: Table)
    requires TableBase(reg, t)
    ensures TableBase(reg, Stop(t)) && Respects(t, Stop(t), Refs(t, RoutesOf(t, t.active)), {})
  {
    var t', doomed := Stop(t), RoutesOf(t, t.active);
    forall k | k in t'.routes
      ensures EntryOk(reg, t', k)
    {
      assert EntryOk(reg, t, k);
      assert t.routes[k] !in Refs(t, doomed);
    }
  }

  lemma StopKeeps(reg: Registry, t: Table)
    requires TableInv(reg, t)
    ensures TableInv(reg, Stop(t)) && Stop(t).routes == map[]
  {
    forall k | k in t.routes
      ensures k in RoutesOf(t, t.active)
    {
      assert RouteOk(reg, t, k);
    }
    assert Stop(t).routes == map[];
  }

  lemma PublishKeepsBase(reg: Registry, t: Table, id: ProviderId)
    requires TableBase(reg, t)
    ensures TableBase(reg, Publish(t, id)) && Respects(t, Publish(t, id), {}, {})
  {
    forall k | k in t.routes
      ensures EntryOk(reg, Publish(t, id), k)
    {
      assert EntryOk(reg, t, k);
    }
  }

  lemma PublishKeeps(reg: Registry, t: Table, id: ProviderId)
    requires ValidRegistry(reg) && TableInv(reg, t) && t.active == ""
    ensures TableInv(reg, Publish(t, id))
  {
    assert forall k :: k in t.routes ==> RouteOk(reg, t, k);
    assert t.routes == map[];
  }

  // ------------------------------------------------------------------ the calls

  /** The call created entry `pc.entry` and has not committed it yet. */
  predicate IsCreator(pc: Pc) {
    pc.ActRetire? || pc.ActAsk? || pc.ActCommit?
  }

  /** What a call may rely on in every run. */
  ghost predicate CallBase(reg: Registry, t: Table, pc: Pc) {
    && (pc.ActEnter? || IsCreator(pc) || pc.ActUndo? || pc.DeaTell? ==> pc.p in reg)
    && (pc.Waiting? ==> pc.entry < |t.entries| && t.entries[pc.entry].state == Activating)
    && (pc.Rejoin? ==> pc.entry < |t.entries|)
    && (IsCreator(pc) ==> Undecided(t, pc.p, pc.target, pc.entry))
    && (pc.SelHalt? ==> pc.halted in reg)
    && (pc.SelStart? || pc.SelPublish? ==> pc.id in reg)
  }

  /** What it may rely on besides, as long as the active provider is not overridden. */
  ghost predicate CallOwned(t: Table, pc: Pc) {
    && (pc.SelHalt? || pc.SelFind? || pc.SelStart? || pc.SelPublish? ==> t.active == "")
    && !pc.SetEnter? && !pc.SetPublish?
  }

  ghost predicate CallOk(reg: Registry, t: Table, pc: Pc) {
    CallBase(reg, t, pc) && CallOwned(t, pc)
  }

  /** Every Activating entry has its creator in flight, and no entry has two. */
  ghost predicate OwnersOk(s: State) {
    && (forall e :: 0 <= e < |s.table.entries| && s.table.entries[e].state == Activating ==>
        exists c :: c in s.calls && IsCreator(s.calls[c]) && s.calls[c].entry == e)
    && (forall c, d ::
          (c in s.calls && d in s.calls && IsCreator(s.calls[c]) && IsCreator(s.calls[d])
           && s.calls[c].entry == s.calls[d].entry) ==> c == d)
  }

  /** The invariant about entries and their creators. */
  ghost predicate InvBase(reg: Registry, s: State) {
    && LockInv(s)
    && TableBase(reg, s.table)
    && (forall c :: c in s.calls ==> CallBase(reg, s.table, s.calls[c]))
    && OwnersOk(s)
  }

  /** The invariant with the part about the active provider. */
  ghost predicate Inv(reg: Registry, s: State) {
    && LockInv(s)
    && TableInv(reg, s.table)
    && (forall c :: c in s.calls ==> CallOk(reg, s.table, s.calls[c]))
    && OwnersOk(s)
  }

  lemma InvIsBase(reg: Registry, s: State)
    requires Inv(reg, s)
    ensures InvBase(reg, s)
  {
    TableInvIsBase(reg, s.table);
    forall c | c in s.calls
      ensures CallBase(reg, s.table, s.calls[c])
    {
      assert CallOk(reg, s.table, s.calls[c]);
    }
  }

  /** The step at hand: call `c` runs its block from `s`. */
  ghost predicate At(reg: Registry, s: State, c: CallId, choice: Choice) {
    ValidRegistry(reg) && Inv(reg, s) && Fires(reg, s, c, choice)
  }

  /** The same for what holds in every run. */
  ghost predicate BaseAt(reg: Registry, s: State, c: CallId, choice: Choice) {
    InvBase(reg, s) && Fires(reg, s, c, choice)
  }

  /** A call that is not acting keeps its invariant under a section that respects it. */
  lemma BystanderOk(reg: Registry, t: Table, t': Table, changed: set<EntryRef>, own: set<EntryRef>, pc: Pc)
    requires CallBase(reg, t, pc) && Respects(t, t', changed, own)
    requires IsCreator(pc) ==> pc.entry !in own
    ensures CallBase(reg, t', Wake(pc, changed))
  {
  }

  /** Call `c` has moved from `s` to `s'` and everybody in `changed` was notified. */
  ghost predicate Moved(s: State, c: CallId, s': State, changed: set<EntryRef>) {
    forall d :: d != c ==>
      (d in s'.calls <==> d in s.calls) && (d in s.calls ==> s'.calls[d] == Wake(s.calls[d], changed))
  }

  /** The creator of an entry keeps it or decides it; a new Activating entry has call `c` as its creator. */
  ghost predicate OwnsItsEntry(s: State, c: CallId, s': State)
    requires c in s.calls
  {
    var n := |s.table.entries|;
    && n <= |s'.table.entries|
    && (forall e :: n <= e < |s'.table.entries| && s'.table.entries[e].state == Activating ==>
        c in s'.calls && IsCreator(s'.calls[c]) && s'.calls[c].entry == e)
    && (IsCreator(s.calls[c]) && s.calls[c].entry < n && s'.table.entries[s.calls[c].entry].state == Activating ==>
        c in s'.calls && IsCreator(s'.calls[c]) && s'.calls[c].entry == s.calls[c].entry)
    && (c in s'.calls && IsCreator(s'.calls[c]) ==>
        (IsCreator(s.calls[c]) && s'.calls[c].entry == s.calls[c].entry) || n <= s'.calls[c].entry)
  }

  /** `own` is at most the entry that call `c` created. */
  ghost predicate OwnedBy(s: State, c: CallId, own: set<EntryRef>)
    requires c in s.calls
  {
    forall e :: e in own ==> IsCreator(s.calls[c]) && s.calls[c].entry == e
  }

  lemma OwnersKept(reg: Registry, s: State, c: CallId, s': State, changed: set<EntryRef>, own: set<EntryRef>)
    requires InvBase(reg, s) && c in s.calls && Moved(s, c, s', changed)
    requires Respects(s.table, s'.table, changed, own) && OwnedBy(s, c, own) && OwnsItsEntry(s, c, s')
    ensures OwnersOk(s')
  {
    forall e | 0 <= e < |s'.table.entries| && s'.table.entries[e].state == Activating
      ensures exists d :: d in s'.calls && IsCreator(s'.calls[d]) && s'.calls[d].entry == e
    {
      if e < |s.table.entries| {
        var d :| d in s.calls && IsCreator(s.calls[d]) && s.calls[d].entry == e;
        assert d in s'.calls && IsCreator(s'.calls[d]) && s'.calls[d].entry == e;
      }
    }
    forall d | d in s.calls && IsCreator(s.calls[d])
      ensures s.calls[d].entry < |s.table.entries|
    {
      assert CallBase(reg, s.table, s.calls[d]);
    }
  }

  lemma MovedKeeps(reg: Registry, s: State, c: CallId, s': State, changed: set<EntryRef>, own: set<EntryRef>)
    requires InvBase(reg, s) && c in s.calls && LockInv(s') && TableBase(reg, s'.table)
    requires Moved(s, c, s', changed)
    requires Respects(s.table, s'.table, changed, own) && OwnedBy(s, c, own) && OwnsItsEntry(s, c, s')
    requires c in s'.calls ==> CallBase(reg, s'.table, s'.calls[c])
    ensures InvBase(reg, s')
  {
    OwnersKept(reg, s, c, s', changed, own);
    forall d | d in s'.calls
      ensures CallBase(reg, s'.table, s'.calls[d])
    {
      if d != c {
        BystanderOk(reg, s.table, s'.table, changed, own, s.calls[d]);
      }
    }
  }
}
