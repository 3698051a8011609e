/**
 `RemoteAccessManager` as a class, used by one caller at a time. Its loops and updates
 are proved against the sections of `RouteTable`, and every method keeps the table and the
 providers in agreement.
 */
module RouteManager {
  import opened RouteTable
  import opened RouteInvariants
  import opened RouteCoverage
  import opened Wrappers

  datatype ProviderCall =
    | ToldActivate(target: RouteTarget, accepted: bool)
    | ToldDeactivate(target: RouteTarget)
    | ToldPrepare(target: RouteTarget, prepared: bool)
    | AskedAvailable(available: bool)
    | ToldStart(started: bool)
    | ToldStop

  /** A provider as far as the manager can tell: the targets it has accepted and not dropped,
      and what it was told. Its answers are any function of that history, which grows with every
      question, so any sequence of answers is possible. */
  class Provider {
    const exclusive: bool
    const answer: seq<ProviderCall> -> bool
    var accepted: set<RouteTarget>
    var told: seq<ProviderCall>

    constructor (exclusive: bool, answer: seq<ProviderCall> -> bool)
      ensures this.exclusive == exclusive && this.answer == answer && accepted == {} && told == []
    {
      this.exclusive, this.answer := exclusive, answer;
      accepted, told := {}, [];
    }

    method Available() returns (ok: bool)
      modifies this`told
      ensures ok == answer(old(told)) && told == old(told) + [AskedAvailable(ok)]
    {
      ok := answer(told);
      told := told + [AskedAvailable(ok)];
    }

    method Start() returns (ok: bool)
      modifies this`told
      ensures ok == answer(old(told)) && told == old(told) + [ToldStart(ok)]
    {
      ok := answer(told);
      told := told + [ToldStart(ok)];
    }

    method Stop()
      modifies this
      ensures accepted == {} && told == old(told) + [ToldStop]
    {
      accepted := {};
      told := told + [ToldStop];
    }

    method ActivateRoute(target: RouteTarget) returns (ok: bool)
      modifies this
      ensures ok == answer(old(told)) && told == old(told) + [ToldActivate(target, ok)]
      ensures accepted == if ok then old(accepted) + {target} else old(accepted)
    {
      ok := answer(told);
      if ok {
        accepted := accepted + {target};
      }
      told := told + [ToldActivate(target, ok)];
    }

    method DeactivateRoute(target: RouteTarget)
      modifies this
      ensures accepted == old(accepted) - {target} && told == old(told) + [ToldDeactivate(target)]
    {
      accepted := accepted - {target};
      told := told + [ToldDeactivate(target)];
    }

    method PrepareRouteForStreaming(target: RouteTarget) returns (ok: bool)
      modifies this`told
      ensures ok == answer(old(told)) && told == old(told) + [ToldPrepare(target, ok)]
    {
      ok := answer(told);
      told := told + [ToldPrepare(target, ok)];
    }

    /** It never refuses. */
    ghost predicate Willing() {
      forall h :: answer(h)
    }
  }

  /** A route as its users count it. */
  datatype Counted = Counted(target: RouteTarget, references: nat)

  type Counts = map<RouteKey, Counted>

  function CountsOf(t: Table): Counts
    requires t.WellFormed()
  {
    map k | k in t.routes :: Counted(t.At(k).target, t.At(k).references)
  }

  // ------------------------------------------------ the counted map that the manager refines

  /** `accepts` is the provider's answer, which matters for a new key only. */
  function CountActivate(m: Counts, p: ProviderId, target: RouteTarget, exclusive: bool, accepts: bool): Counts {
    var key := KeyOf(p, target);
    if key in m then m[key := Counted(m[key].target, m[key].references + 1)]
    else
      var kept := if exclusive then map[] else m;
      if accepts then kept[key := Counted(target, 1)] else kept
  }

  function CountRelease(m: Counts, found: Option<RouteKey>): Counts
    requires found.Some? ==> found.value in m
  {
    if found == None then m
    else if m[found.value].references > 1
    then m[found.value := m[found.value].(references := m[found.value].references - 1)]
    else m - {found.value}
  }

  /** Failing one more route. */
  lemma FailOneMore(t: Table, done: set<RouteKey>, k: RouteKey)
    requires t.WellFormed() && k in t.routes && k !in done
    ensures
      var f := Fail(t, done);
      && t.routes[k] < |f.entries|
      && Fail(t, done + {k}) ==
         f.(routes := f.routes - {k},
            entries := f.entries[t.routes[k] := f.entries[t.routes[k]].(state := Failed)])
  {
    var f := Fail(t, done);
    var g := Fail(t, done + {k});
    assert Refs(t, done + {k}) == Refs(t, done) + {t.routes[k]};
    assert g.routes == f.routes - {k};
    assert g.entries == f.entries[t.routes[k] := f.entries[t.routes[k]].(state := Failed)];
  }

  lemma FailNothing(t: Table)
    ensures Fail(t, {}) == t
  {
    assert Refs(t, {}) == {};
    assert Fail(t, {}).entries == t.entries;
    assert Fail(t, {}).routes == t.routes;
  }

  /** Failing other routes leaves this one's entry alone. */
  lemma EntryUntouched(reg: Registry, t: Table, added: Table, done: set<RouteKey>, k: RouteKey)
    requires TableInv(reg, t) && k in t.routes && k !in done && added.WellFormed()
    requires |t.entries| <= |added.entries| && (forall e :: 0 <= e < |t.entries| ==> added.entries[e] == t.entries[e])
    requires forall j :: j in done || j == k ==> j in t.routes && j in added.routes && added.routes[j] == t.routes[j]
    ensures
      var f := Fail(added, done);
      k in f.routes && f.routes[k] == t.routes[k] && f.entries[t.routes[k]] == t.At(k)
  {
    forall j | j in done
      ensures added.routes[j] != t.routes[k]
    {
      if t.routes[j] == t.routes[k] { RoutesAreDistinct(reg, t, j, k); }
    }
    assert t.routes[k] !in Refs(added, done);
  }

  /** Two routes never have the same target, so each retired target is new. */
  lemma TargetsOneMore(reg: Registry, t: Table, done: set<RouteKey>, k: RouteKey)
    requires TableInv(reg, t) && k in t.routes && k !in done
    ensures ActiveTargets(t, done + {k}) ==
            ActiveTargets(t, done) + (if t.At(k).state == Active then {t.At(k).target} else {})
    ensures t.At(k).target !in ActiveTargets(t, done)
  {
    forall j | j in done && j in t.routes
      ensures t.At(j).target != t.At(k).target
    {
      assert RouteOk(reg, t, j) && RouteOk(reg, t, k);
    }
    assert forall j :: j in done + {k} <==> j in done || j == k;
  }

  /** `retired` lists the targets of the Active routes in `done`, each once. */
  ghost predicate Retired(t: Table, done: set<RouteKey>, retired: seq<RouteTarget>)
    requires t.WellFormed()
  {
    && (forall r :: r in retired <==> r in ActiveTargets(t, done))
    && (forall i, j :: 0 <= i < j < |retired| ==> retired[i] != retired[j])
  }

  lemma RetireOneMore(reg: Registry, t: Table, done: set<RouteKey>, k: RouteKey, retired: seq<RouteTarget>)
    requires TableInv(reg, t) && k in t.routes && k !in done && Retired(t, done, retired)
    ensures Retired(t, done + {k}, if t.At(k).state == Active then retired + [t.At(k).target] else retired)
  {
    TargetsOneMore(reg, t, done, k);
  }

  ghost predicate AllActive(t: Table)
    requires t.WellFormed()
  {
    forall k :: k in t.routes ==> t.At(k).state == Active
  }

  /** The table after an undisturbed activation of a new key. */
  function Activated(t: Table, p: ProviderId, target: RouteTarget, exclusive: bool, accepts: bool): Table
    requires t.WellFormed()
  {
    Commit(Create(t, p, target, exclusive), p, KeyOf(p, target), |t.entries|, accepts)
  }

  /** The routes right after a new one was added. */
  lemma CreatedRoutes(reg: Registry, t: Table, p: ProviderId, target: RouteTarget)
    requires TableInv(reg, t) && p in reg && t.active == p && KeyOf(p, target) !in t.routes
    ensures
      var u := Create(t, p, target, reg[p]);
      && u.routes == (if reg[p] then map[] else t.routes)[KeyOf(p, target) := |t.entries|]
      && |t.entries| < |u.entries|
      && (!reg[p] ==> forall e :: 0 <= e < |t.entries| ==> u.entries[e] == t.entries[e])
  {
    CreateEntries(t, p, target, reg[p]);
    forall k | k in t.routes
      ensures RouteOk(reg, t, k)
    {
    }
    if reg[p] {
      assert Replaced(t, p, target, reg[p]) == t.routes.Keys;
    } else {
      assert Refs(t, {}) == {};
    }
  }

  lemma ActivatedTable(reg: Registry, t: Table, p: ProviderId, target: RouteTarget, accepts: bool)
    requires TableInv(reg, t) && AllActive(t) && p in reg && t.active == p && KeyOf(p, target) !in t.routes
    ensures
      var u, v := Create(t, p, target, reg[p]), Activated(t, p, target, reg[p], accepts);
      && |t.entries| < |u.entries| && Current(u, p, KeyOf(p, target), |t.entries|)
      && TableInv(reg, v) && AllActive(v)
      && CountsOf(v) == CountActivate(CountsOf(t), p, target, reg[p], accepts)
  {
    var key, n, u := KeyOf(p, target), |t.entries|, Create(t, p, target, reg[p]);
    CreateKeeps(reg, t, p, target);
    CreatedRoutes(reg, t, p, target);
    CommitKeeps(reg, u, p, target, n, accepts);
    CommittedCounts(reg, t, u, p, target, accepts);
  }

  lemma CommittedCounts(reg: Registry, t: Table, u: Table, p: ProviderId, target: RouteTarget, accepts: bool)
    requires TableInv(reg, t) && AllActive(t) && TableInv(reg, u) && p in reg && KeyOf(p, target) !in t.routes
    requires u.routes == (if reg[p] then map[] else t.routes)[KeyOf(p, target) := |t.entries|]
    requires |u.entries| == |t.entries| + 1 && u.active == p && u.generation == t.generation
    requires u.entries[|t.entries|] == RouteEntry(target, t.generation, 1, Activating)
    requires !reg[p] ==> forall e :: 0 <= e < |t.entries| ==> u.entries[e] == t.entries[e]
    ensures
      var v := Commit(u, p, KeyOf(p, target), |t.entries|, accepts);
      && v.WellFormed() && AllActive(v)
      && CountsOf(v) == CountActivate(CountsOf(t), p, target, reg[p], accepts)
  {
    var key, n := KeyOf(p, target), |t.entries|;
    var v := Commit(u, p, key, n, accepts);
    assert Current(u, p, key, n);
    var kept := if reg[p] then map[] else t.routes;
    if accepts {
      assert v.routes == u.routes && v.entries == u.entries[n := u.entries[n].(state := Active)];
      AddedCounts(t, v, kept, key, target);
    } else {
      assert v.routes == kept;
      assert CountsOf(v) == CountActivate(CountsOf(t), p, target, reg[p], false);
    }
  }

  /** The counts after a route was added to those that are kept. */
  lemma AddedCounts(t: Table, v: Table, kept: map<RouteKey, EntryRef>, key: RouteKey, target: RouteTarget)
    requires t.WellFormed() && key !in t.routes && (kept == map[] || kept == t.routes)
    requires v.routes == kept[key := |t.entries|] && |v.entries| == |t.entries| + 1
    requires v.entries[|t.entries|].target == target && v.entries[|t.entries|].references == 1
    requires kept != map[] ==> forall e :: 0 <= e < |t.entries| ==> v.entries[e] == t.entries[e]
    ensures v.WellFormed()
    ensures CountsOf(v) == (if kept == map[] then map[] else CountsOf(t))[key := Counted(target, 1)]
  {
  }

  /** Which routes a counted map has, in the words of the table. */
  lemma RoutedIsCounted(reg: Registry, t: Table, q: ProviderId, r: RouteTarget)
    requires TableInv(reg, t) && AllActive(t)
    ensures Routed(t, q, r) <==> KeyOf(q, r) in CountsOf(t) && CountsOf(t)[KeyOf(q, r)].target == r
  {
  }

  /** The retired targets of a new route are all the targets its provider serves. */
  lemma RetiredTargets(reg: Registry, t: Table, p: ProviderId, target: RouteTarget, r: RouteTarget)
    requires TableInv(reg, t) && AllActive(t) && p in reg && t.active == p && KeyOf(p, target) !in t.routes
    ensures r in ActiveTargets(t, Replaced(t, p, target, reg[p])) <==> reg[p] && Routed(t, p, r)
  {
    forall k | k in t.routes
      ensures RouteOk(reg, t, k)
    {
    }
    if reg[p] && Routed(t, p, r) {
      assert KeyOf(p, r) in Replaced(t, p, target, reg[p]);
    }
  }

  lemma JoinedTable(reg: Registry, t: Table, p: ProviderId, target: RouteTarget)
    requires TableInv(reg, t) && AllActive(t) && KeyOf(p, target) in t.routes
    ensures
      var e := t.routes[KeyOf(p, target)];
      && MayJoin(t, e) && TableInv(reg, Join(t, e)) && AllActive(Join(t, e))
      && forall exclusive, accepts ::
        CountsOf(Join(t, e)) == CountActivate(CountsOf(t), p, target, exclusive, accepts)
  {
    var key := KeyOf(p, target);
    var e := t.routes[key];
    JoinKeeps(reg, t, e);
    assert RouteOk(reg, t, key);
    forall k | k in t.routes && k != key
      ensures t.routes[k] != e
    {
      if t.routes[k] == e { RoutesAreDistinct(reg, t, k, key); }
    }
  }

  lemma ReleasedTable(reg: Registry, t: Table, found: Option<RouteKey>)
    requires TableInv(reg, t) && AllActive(t) && (found.Some? ==> found.value in t.routes)
    ensures
      var v := Release(t, found);
      && TableInv(reg, v) && AllActive(v)
      && CountsOf(v) == CountRelease(CountsOf(t), found)
  {
    ReleaseKeeps(reg, t, found);
    if found.Some? {
      forall k | k in t.routes && k != found.value
        ensures t.routes[k] != t.routes[found.value]
      {
        if t.routes[k] == t.routes[found.value] { RoutesAreDistinct(reg, t, k, found.value); }
      }
      if t.At(found.value).references > 1 {
        DecrementedCounts(t, found.value);
      } else {
        ErasedCounts(t, found.value);
      }
    }
  }

  lemma DecrementedCounts(t: Table, key: RouteKey)
    requires t.WellFormed() && AllActive(t) && key in t.routes && t.At(key).references > 1
    requires forall k :: k in t.routes && k != key ==> t.routes[k] != t.routes[key]
    ensures
      var v := Release(t, Some(key));
      v.WellFormed() && AllActive(v) && CountsOf(v) == CountRelease(CountsOf(t), Some(key))
  {
  }

  lemma ErasedCounts(t: Table, key: RouteKey)
    requires t.WellFormed() && AllActive(t) && key in t.routes && t.At(key).references <= 1
    ensures
      var v := Release(t, Some(key));
      v.WellFormed() && AllActive(v) && CountsOf(v) == CountRelease(CountsOf(t), Some(key))
  {
  }

  lemma JoinKeepsRouted(t: Table, e: EntryRef)
    requires t.WellFormed() && e < |t.entries|
    ensures Join(t, e).WellFormed()
    ensures forall q, r :: Routed(Join(t, e), q, r) <==> Routed(t, q, r)
  {
  }

  /** Which targets are served after an activation. */
  lemma ActivatedRoutes(reg: Registry, t: Table, p: ProviderId, target: RouteTarget, accepts: bool,
                        q: ProviderId, r: RouteTarget)
    requires TableInv(reg, t) && AllActive(t) && p in reg && t.active == p && KeyOf(p, target) !in t.routes
    requires Activated(t, p, target, reg[p], accepts).WellFormed()
    ensures Routed(Activated(t, p, target, reg[p], accepts), q, r) <==>
      (Routed(t, q, r) && !reg[p]) || (accepts && q == p && r == target)
  {
    ActivatedTable(reg, t, p, target, accepts);
    RoutedIsCounted(reg, Activated(t, p, target, reg[p], accepts), q, r);
    RoutedIsCounted(reg, t, q, r);
  }

  function Drops(targets: seq<RouteTarget>): seq<ProviderCall> {
    seq(|targets|, i requires 0 <= i < |targets| => ToldDeactivate(targets[i]))
  }

  lemma DropsAppend(targets: seq<RouteTarget>, last: RouteTarget)
    ensures Drops(targets + [last]) == Drops(targets) + [ToldDeactivate(last)]
  {
  }

  datatype Selection = Selection(found: bool, available: bool, started: bool)

  class RemoteAccessManager {
    var activeProviderId: ProviderId
    var providerGeneration: nat
    var activeRoutes: map<RouteKey, EntryRef>
    var entries: seq<RouteEntry>
    var providers: map<ProviderId, Provider>

    function Bookkeeping(): Table
      reads this
    {
      Table(activeProviderId, providerGeneration, activeRoutes, entries)
    }

    function Reg(): Registry
      reads this
    {
      map p | p in providers :: providers[p].exclusive
    }

    /** Providers are distinct objects with non-empty ids. */
    ghost predicate Registered()
      reads this
    {
      && "" !in providers
      && forall p, q :: p in providers && q in providers && providers[p] == providers[q] ==> p == q
    }

    /** Between calls no route is half activated. */
    ghost predicate Settled()
      reads this
    {
      && TableInv(Reg(), Bookkeeping())
      && forall k :: k in activeRoutes ==> entries[activeRoutes[k]].state == Active
    }

    /** Agreement: a provider has accepted exactly the targets of its Active routes. */
    ghost predicate Agrees(p: ProviderId)
      requires p in providers && Bookkeeping().WellFormed()
      reads this, providers[p]
    {
      forall target :: target in providers[p].accepted <==> Routed(Bookkeeping(), p, target)
    }

    ghost predicate Valid()
      reads this, providers.Values
    {
      Registered() && Settled() && forall p :: p in providers ==> Agrees(p)
    }

    function Routes(): Counts
      requires Bookkeeping().WellFormed()
      reads this
    {
      CountsOf(Bookkeeping())
    }

    constructor ()
      ensures Valid() && Routes() == map[] && activeProviderId == "" && providers == map[]
    {
      activeProviderId, providerGeneration, activeRoutes, entries, providers := "", 0, map[], [], map[];
    }

    /** Providers are looked up by id, and the first one with an id is the one that is found. */
    method RegisterProvider(id: ProviderId, provider: Provider)
      requires Valid() && id != "" && provider !in providers.Values && provider.accepted == {}
      modifies this`providers
      ensures Valid() && providers == if id in old(providers) then old(providers) else old(providers)[id := provider]
    {
      if id in providers {
        return;
      }
      assert forall k :: k in activeRoutes ==> RouteOk(Reg(), Bookkeeping(), k);
      providers := providers[id := provider];
      assert forall k :: k in activeRoutes ==> RouteOk(Reg(), Bookkeeping(), k);
    }

    /** The loop of an exclusive activation: erase every other route of `p`. The table was
        `before` until the route at `key` was added. */
    method RetireOthers(p: ProviderId, key: RouteKey, ghost before: Table) returns (retired: seq<RouteTarget>)
      requires TableInv(Reg(), before) && key !in before.routes && key in activeRoutes
      requires activeRoutes == before.routes[key := |before.entries|] && before.entries <= entries
      requires |entries| == |before.entries| + 1
      modifies this`activeRoutes, this`entries
      ensures Bookkeeping() == Fail(old(Bookkeeping()), RoutesOf(old(Bookkeeping()), p) - {key})
      ensures Retired(before, RoutesOf(old(Bookkeeping()), p) - {key}, retired)
    {
      ghost var added := Bookkeeping();
      ghost var doomed := RoutesOf(added, p) - {key};
      FailNothing(added);
      retired := [];
      var todo := activeRoutes.Keys;
      while todo != {}
        invariant todo <= added.routes.Keys
        invariant Bookkeeping() == Fail(added, doomed - todo)
        invariant Retired(before, doomed - todo, retired)
        decreases todo
      {
        var k :| k in todo;
        ghost var done := doomed - todo;
        todo := todo - {k};
        if k.providerId == p && k != key {
          retired := RetireRoute(k, retired, before, added, done);
          assert doomed - todo == done + {k};
        } else {
          assert doomed - todo == done;
        }
      }
      assert doomed - todo == doomed;
    }

    /** One turn of that loop: the routes in `done` are gone, and `k` is the next. */
    method RetireRoute(k: RouteKey, listed: seq<RouteTarget>, ghost before: Table, ghost added: Table,
                       ghost done: set<RouteKey>)
      returns (retired: seq<RouteTarget>)
      requires TableInv(Reg(), before) && added.WellFormed() && before.entries <= added.entries
      requires forall j :: j in done || j == k ==>
        j in before.routes && j in added.routes && added.routes[j] == before.routes[j]
      requires k !in done && Bookkeeping() == Fail(added, done) && Retired(before, done, listed)
      modifies this`activeRoutes, this`entries
      ensures Bookkeeping() == Fail(added, done + {k}) && Retired(before, done + {k}, retired)
    {
      EntryUntouched(Reg(), before, added, done, k);
      RetireOneMore(Reg(), before, done, k, listed);
      FailOneMore(added, done, k);
      var e := activeRoutes[k];
      retired := if entries[e].state == Active then listed + [entries[e].target] else listed;
      entries := entries[e := entries[e].(state := Failed)];
      activeRoutes := activeRoutes - {k};
    }

    /** The table part of creating a route: add the entry, then erase what it replaces. */
    method AddRoute(p: ProviderId, target: RouteTarget, isExclusive: bool)
      returns (entry: EntryRef, retired: seq<RouteTarget>)
      requires TableInv(Reg(), Bookkeeping()) && KeyOf(p, target) !in activeRoutes
      modifies this`activeRoutes, this`entries
      ensures entry == |old(entries)|
      ensures Bookkeeping() == Create(old(Bookkeeping()), p, target, isExclusive)
      ensures Retired(old(Bookkeeping()), Replaced(old(Bookkeeping()), p, target, isExclusive), retired)
    {
      ghost var before := Bookkeeping();
      var key := KeyOf(p, target);
      entry := |entries|;
      entries := entries + [RouteEntry(target, providerGeneration, 1, Activating)];
      activeRoutes := activeRoutes[key := entry];
      retired := [];
      FailNothing(Bookkeeping());
      assert RoutesOf(Bookkeeping(), p) - {key} == RoutesOf(before, p) - {key};
      if isExclusive {
        retired := RetireOthers(p, key, before);
      }
    }

    /** The section of `stopActiveProviderLocked`: forget the active provider and its routes. */
    method ForgetActiveProvider() returns (forgotten: ProviderId)
      requires Bookkeeping().WellFormed()
      modifies this`activeProviderId, this`providerGeneration, this`activeRoutes, this`entries
      ensures forgotten == old(activeProviderId)
      ensures Bookkeeping() == Stop(old(Bookkeeping()))
    {
      forgotten, activeProviderId := activeProviderId, "";
      providerGeneration := providerGeneration + 1;
      ghost var start := Bookkeeping();
      ghost var doomed := RoutesOf(start, forgotten);
      FailNothing(start);
      var todo := activeRoutes.Keys;
      while todo != {}
        invariant todo <= start.routes.Keys
        invariant Bookkeeping() == Fail(start, doomed - todo)
        decreases todo
      {
        var k :| k in todo;
        ghost var done := doomed - todo;
        todo := todo - {k};
        if k.providerId == forgotten {
          FailOneMore(start, done, k);
          assert doomed - todo == done + {k};
          entries := entries[activeRoutes[k] := entries[activeRoutes[k]].(state := Failed)];
          activeRoutes := activeRoutes - {k};
        } else {
          assert doomed - todo == done;
        }
      }
      assert doomed - todo == doomed;
      assert Refs(start, doomed) == Refs(old(Bookkeeping()), doomed);
    }

    /** The second section of `activateRoute`; `stale` tells that the provider has to drop the target. */
    method CommitRoute(p: ProviderId, key: RouteKey, entry: EntryRef, activated: bool) returns (stale: bool)
      requires entry < |entries|
      modifies this`activeRoutes, this`entries
      ensures Bookkeeping() == Commit(old(Bookkeeping()), p, key, entry, activated)
      ensures stale <==> activated && !Current(old(Bookkeeping()), p, key, entry)
    {
      stale := false;
      var inTable := key in activeRoutes && activeRoutes[key] == entry;
      var generationMatches := activeProviderId == p && entries[entry].generation == providerGeneration && inTable;
      if !activated || !generationMatches {
        entries := entries[entry := entries[entry].(state := Failed)];
        if inTable {
          activeRoutes := activeRoutes - {key};
        }
        stale := activated;
      } else {
        entries := entries[entry := entries[entry].(state := Active)];
      }
    }

    /** Every retired target is dropped, then the new one is requested. */
    method TellProvider(slot: Provider, retired: seq<RouteTarget>, target: RouteTarget) returns (activated: bool)
      requires forall r :: r in retired ==> r != target
      modifies slot
      ensures slot.told == old(slot.told) + Drops(retired) + [ToldActivate(target, activated)]
      ensures slot.Willing() ==> activated
      ensures forall r :: r in slot.accepted <==>
        (r in old(slot.accepted) && r !in retired) || (activated && r == target)
    {
      for i := 0 to |retired|
        invariant slot.told == old(slot.told) + Drops(retired[..i])
        invariant forall r :: r in slot.accepted <==> r in old(slot.accepted) && r !in retired[..i]
      {
        slot.DeactivateRoute(retired[i]);
        assert retired[..i + 1] == retired[..i] + [retired[i]];
        DropsAppend(retired[..i], retired[i]);
      }
      assert retired[..|retired|] == retired;
      activated := slot.ActivateRoute(target);
    }

    method UndoIfStale(slot: Provider, target: RouteTarget, stale: bool)
      modifies slot
      ensures !stale ==> slot.accepted == old(slot.accepted) && slot.told == old(slot.told)
      ensures stale ==> slot.accepted == old(slot.accepted) - {target}
      ensures stale ==> slot.told == old(slot.told) + [ToldDeactivate(target)]
    {
      if stale {
        slot.DeactivateRoute(target);
      }
    }

    /** Does this call get as far as the table? */
    predicate Usable(p: ProviderId, target: RouteTarget)
      reads this
    {
      p in providers && target.peerId != "" && activeProviderId == p
    }

    ghost predicate IsWilling(p: ProviderId)
      reads this
    {
      p in providers && providers[p].Willing()
    }

    predicate IsExclusive(p: ProviderId)
      reads this
    {
      p in providers && providers[p].exclusive
    }

    method ActivateRoute(p: ProviderId, target: RouteTarget) returns (ok: bool)
      requires Valid()
      modifies this`activeRoutes, this`entries, providers.Values
      ensures Valid()
      ensures !Usable(p, target) ==> !ok && Routes() == old(Routes())
      ensures Usable(p, target) ==> Routes() == CountActivate(old(Routes()), p, target, providers[p].exclusive, ok)
      ensures Usable(p, target) && (KeyOf(p, target) in old(Routes()) || IsWilling(p)) ==> ok
      // a new route: the provider drops what it replaces, each once, and is then asked
      ensures Usable(p, target) && KeyOf(p, target) !in old(Routes()) ==> exists retired ::
        && providers[p].told == old(providers[p].told) + Drops(retired) + [ToldActivate(target, ok)]
        && (forall i, j :: 0 <= i < j < |retired| ==> retired[i] != retired[j])
        && (forall r :: r in retired <==> providers[p].exclusive && r in old(providers[p].accepted))
      // otherwise nobody is told anything
      ensures forall q :: q in providers && (q != p || !Usable(p, target) || KeyOf(p, target) in old(Routes())) ==>
        providers[q].told == old(providers[q].told)
    {
      if p !in providers || target.peerId == "" {
        return false;
      }
      var slot := providers[p];
      var key := KeyOf(p, target);
      if activeProviderId != p {
        return false;
      }
      if key in activeRoutes {
        ok := JoinRoute(p, target);
      } else {
        ok := CreateRoute(p, target, slot);
      }
    }

    /** A new route. */
    method CreateRoute(p: ProviderId, target: RouteTarget, slot: Provider) returns (ok: bool)
      requires Valid() && p in providers && slot == providers[p] && activeProviderId == p
      requires KeyOf(p, target) !in activeRoutes
      modifies this`activeRoutes, this`entries, slot
      ensures Valid() && Routes() == CountActivate(old(Routes()), p, target, slot.exclusive, ok)
      ensures slot.Willing() ==> ok
      ensures exists retired ::
        && slot.told == old(slot.told) + Drops(retired) + [ToldActivate(target, ok)]
        && (forall i, j :: 0 <= i < j < |retired| ==> retired[i] != retired[j])
        && (forall r :: r in retired <==> slot.exclusive && r in old(slot.accepted))
    {
      ghost var before := Bookkeeping();
      var key := KeyOf(p, target);
      var entry, retired := EnterRoute(p, target, slot);
      var activated := TellProvider(slot, retired, target);
      ActivatedTable(Reg(), before, p, target, activated);
      var stale := CommitRoute(p, key, entry, activated);
      UndoIfStale(slot, target, stale);
      ok := activated && !stale;
      assert Bookkeeping() == Activated(before, p, target, slot.exclusive, activated);
      forall q, r | q in providers
        ensures r in providers[q].accepted <==> Routed(Bookkeeping(), q, r)
      {
        ActivatedRoutes(Reg(), before, p, target, activated, q, r);
        if Routed(before, q, r) { assert RouteOk(Reg(), before, KeyOf(q, r)); }
      }
    }

    /** The first section: the new entry, and the targets to be dropped for it. */
    method EnterRoute(p: ProviderId, target: RouteTarget, slot: Provider)
      returns (entry: EntryRef, retired: seq<RouteTarget>)
      requires Valid() && p in providers && slot == providers[p] && activeProviderId == p
      requires KeyOf(p, target) !in activeRoutes
      modifies this`activeRoutes, this`entries
      ensures entry == |old(entries)| && target !in slot.accepted
      ensures Bookkeeping() == Create(old(Bookkeeping()), p, target, slot.exclusive)
      ensures forall r :: r in retired <==> slot.exclusive && r in slot.accepted
      ensures forall i, j :: 0 <= i < j < |retired| ==> retired[i] != retired[j]
    {
      ghost var before := Bookkeeping();
      entry, retired := AddRoute(p, target, slot.exclusive);
      forall r
        ensures r in retired <==> slot.exclusive && r in slot.accepted
      {
        RetiredTargets(Reg(), before, p, target, r);
      }
    }

    /** One more reference for a route that is there. */
    method JoinRoute(p: ProviderId, target: RouteTarget) returns (ok: bool)
      requires Valid() && KeyOf(p, target) in activeRoutes
      modifies this`entries
      ensures Valid() && ok
      ensures forall exclusive :: Routes() == CountActivate(old(Routes()), p, target, exclusive, true)
    {
      ghost var before := Bookkeeping();
      var e := activeRoutes[KeyOf(p, target)];
      JoinedTable(Reg(), before, p, target);
      if entries[e].state != Active || entries[e].generation != providerGeneration {
        return false;
      }
      entries := entries[e := entries[e].(references := entries[e].references + 1)];
      assert Bookkeeping() == Join(before, e);
      JoinKeepsRouted(before, e);
      ok := true;
    }

    /** `findRouteLocked`. */
    method FindRoute(p: ProviderId, peer: string, address: string) returns (found: Option<RouteKey>)
      ensures Finds(activeRoutes.Keys, p, peer, address, found)
    {
      var exact := RouteKey(p, peer, address);
      if exact in activeRoutes {
        return Some(exact);
      }
      if address != "" {
        return None;
      }
      var todo := activeRoutes.Keys;
      while todo != {}
        invariant todo <= activeRoutes.Keys
        invariant forall k :: k in activeRoutes && k.providerId == p && k.peerId == peer ==> k in todo
        decreases todo
      {
        var k :| k in todo;
        if k.providerId == p && k.peerId == peer {
          return Some(k);
        }
        todo := todo - {k};
      }
      return None;
    }

    /** What one release of a route does to the counts and to the provider. */
    ghost predicate Releases(m: Counts, m': Counts, found: Option<RouteKey>, told: seq<ProviderCall>)
    {
      && (found.Some? ==> found.value in m)
      && m' == CountRelease(m, found)
      && told == if found.Some? && found.value !in m' then [ToldDeactivate(m[found.value].target)] else []
    }

    method DeactivateRoute(p: ProviderId, peer: string, address: string)
      requires Valid()
      modifies this`activeRoutes, this`entries, providers.Values
      ensures Valid()
      ensures exists found, told ::
        && Finds(old(Routes().Keys), p, peer, address, found)
        && Releases(old(Routes()), Routes(), found, told)
        && forall q :: q in providers ==> providers[q].told == old(providers[q].told) + if q == p then told else []
    {
      var found := FindRoute(p, peer, address);
      ghost var none: seq<ProviderCall> := [];
      assert Finds(Routes().Keys, p, peer, address, found);
      if found == None || entries[activeRoutes[found.value]].state != Active {
        assert Releases(old(Routes()), Routes(), found, none);
        return;
      }
      var key := found.value;
      var e := activeRoutes[key];
      if entries[e].references > 1 {
        DropReference(key);
        assert Releases(old(Routes()), Routes(), found, none);
        return;
      }
      var target := entries[e].target;
      EraseRoute(p, key);
      assert Releases(old(Routes()), Routes(), found, [ToldDeactivate(target)]);
    }

    /** One reference less, and others are left. */
    method DropReference(key: RouteKey)
      requires Valid() && key in activeRoutes && entries[activeRoutes[key]].references > 1
      modifies this`entries
      ensures Valid() && Routes() == CountRelease(old(Routes()), Some(key))
    {
      ghost var before := Bookkeeping();
      ReleasedTable(Reg(), before, Some(key));
      var e := activeRoutes[key];
      entries := entries[e := entries[e].(references := entries[e].references - 1)];
      assert Bookkeeping() == Release(before, Some(key));
      forall q, r
        ensures Routed(Bookkeeping(), q, r) <==> Routed(before, q, r)
      {
      }
    }

    /** The last reference is gone: the route leaves the table, and then the provider. */
    method EraseRoute(p: ProviderId, key: RouteKey)
      requires Valid() && key in activeRoutes && key.providerId == p
      requires entries[activeRoutes[key]].references <= 1
      modifies this`activeRoutes, providers.Values
      ensures Valid() && Routes() == old(Routes()) - {key}
      ensures forall q :: q in providers ==>
        providers[q].told == old(providers[q].told) + if q == p then [ToldDeactivate(old(Routes()[key].target))] else []
    {
      ghost var before := Bookkeeping();
      ReleasedTable(Reg(), before, Some(key));
      assert RouteOk(Reg(), before, key);
      var target := entries[activeRoutes[key]].target;
      activeRoutes := activeRoutes - {key};
      assert Bookkeeping() == Release(before, Some(key));
      var shouldDeactivate := activeProviderId == p;
      if shouldDeactivate && p in providers {
        var slot := providers[p];
        slot.DeactivateRoute(target);
      }
      forall q, r | q in providers
        ensures r in providers[q].accepted <==> Routed(Bookkeeping(), q, r)
      {
        if Routed(before, q, r) { assert RouteOk(Reg(), before, KeyOf(q, r)); }
      }
    }

    /** The provider is asked about the route that is found, and its answer is the result. */
    method PrepareRouteForStreaming(p: ProviderId, peer: string, address: string) returns (ok: bool)
      requires Valid()
      modifies providers.Values
      ensures Valid() && Routes() == old(Routes())
      ensures exists found ::
        && Finds(Routes().Keys, p, peer, address, found) && (found == None ==> !ok)
        && (found.Some? ==> found.value in Routes() && p in providers)
        && (found.Some? ==> ok == providers[p].answer(old(providers[p].told)))
        && forall q :: q in providers ==>
             var more := if q == p && found.Some? then [ToldPrepare(Routes()[found.value].target, ok)] else [];
             providers[q].told == old(providers[q].told) + more
    {
      var found := FindRoute(p, peer, address);
      assert Finds(Routes().Keys, p, peer, address, found);
      if found == None || entries[activeRoutes[found.value]].state != Active {
        return false;
      }
      assert RouteOk(Reg(), Bookkeeping(), found.value);
      var target := entries[activeRoutes[found.value]].target;
      var generation := entries[activeRoutes[found.value]].generation;
      if p !in providers {
        return false;
      }
      var prepared := providers[p].PrepareRouteForStreaming(target);
      return prepared && activeProviderId == p && generation == providerGeneration;
    }

    method HasActiveRoute() returns (any: bool)
      requires Valid()
      ensures any <==> Routes() != map[]
    {
      any := false;
      var todo := activeRoutes.Keys;
      while todo != {} && !any
        invariant todo <= activeRoutes.Keys
        invariant any ==> activeRoutes != map[]
        invariant !any ==> todo == activeRoutes.Keys
        decreases todo, !any
      {
        var k :| k in todo;
        var state := entries[activeRoutes[k]].state;
        if state == Active || state == Activating {
          any := true;
        } else {
          todo := todo - {k};
        }
      }
      assert any <==> activeRoutes != map[];
      assert Routes().Keys == activeRoutes.Keys;
    }

    /** What stopping says to the providers: the active one is stopped, if there is one. */
    method StopActiveProvider()
      requires Valid()
      modifies this`activeProviderId, this`providerGeneration, this`activeRoutes, this`entries, providers.Values
      ensures Valid() && Routes() == map[] && activeProviderId == ""
      ensures providerGeneration == old(providerGeneration) + 1
      ensures forall q :: q in providers ==>
        providers[q].told == old(providers[q].told) + if q == old(activeProviderId) then [ToldStop] else []
    {
      ghost var before := Bookkeeping();
      StopKeeps(Reg(), before);
      var forgotten := ForgetActiveProvider();
      forall q, r | Routed(before, q, r)
        ensures q == forgotten
      {
        assert RouteOk(Reg(), before, KeyOf(q, r));
      }
      if forgotten in providers {
        var slot := providers[forgotten];
        slot.Stop();
      }
    }

    method SelectAndStartProvider(id: ProviderId) returns (result: Selection)
      requires Valid()
      modifies this`activeProviderId, this`providerGeneration, this`activeRoutes, this`entries, providers.Values
      ensures Valid() && Routes() == map[]
      ensures activeProviderId == if result.started then id else ""
      ensures providerGeneration == old(providerGeneration) + if result.started then 2 else 1
      ensures result.found <==> id == "" || id in providers
      ensures result.started ==> result.available && id in providers
      ensures result.available ==> result.found
      ensures IsWilling(id) ==> result.started
      ensures forall q :: q in providers ==>
        providers[q].told == old(providers[q].told)
          + (if q == old(activeProviderId) then [ToldStop] else [])
          + (if q == id then [AskedAvailable(result.available)] else [])
          + (if q == id && result.available then [ToldStart(result.started)] else [])
    {
      StopActiveProvider();
      result := Selection(false, false, false);
      if id == "" {
        return Selection(true, true, false);
      }
      if id !in providers {
        return;
      }
      var slot := providers[id];
      var available := slot.Available();
      if !available {
        return Selection(true, false, false);
      }
      var started := slot.Start();
      result := Selection(true, true, started);
      if started {
        PublishProvider(id);
      }
    }

    /** The section that makes a started provider the active one. */
    method PublishProvider(id: ProviderId)
      requires Valid() && Routes() == map[] && activeProviderId == "" && id in providers
      modifies this`activeProviderId, this`providerGeneration
      ensures Valid() && Routes() == map[]
      ensures activeProviderId == id && providerGeneration == old(providerGeneration) + 1
    {
      ghost var before := Bookkeeping();
      assert before.routes.Keys == Routes().Keys;
      activeProviderId := id;
      providerGeneration := providerGeneration + 1;
      PublishKeeps(Reg(), before, id);
    }
  }
}
