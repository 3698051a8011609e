/**
 `RemoteRouteLease`: a lease holds one reference on the route of its key, from a successful
 construction until it is released, and moving a lease moves the reference.
 */
module RouteLease {
  import opened RouteTable
  import opened RouteInvariants
  import opened RouteManager
  import opened Wrappers

  class RemoteRouteLease {
    var mgr: RemoteAccessManager?
    var providerId: ProviderId
    var peerId: string
    var targetAddress: string
    var connectAddress: string
    var active: bool
    var refused: bool

    /** Does this lease hold a reference in `m`? An active lease without a provider does not. */
    predicate Holds(m: RemoteAccessManager)
      reads this
    {
      active && mgr == m && providerId != ""
    }

    function Key(): RouteKey
      reads this
    {
      RouteKey(providerId, peerId, targetAddress)
    }

    /** An empty lease. */
    constructor Empty()
      ensures mgr == null && !active && !refused && providerId == ""
    {
      mgr, providerId, peerId, targetAddress, connectAddress, active, refused := null, "", "", "", "", false, false;
    }

    /** Asks the manager for the route. The books stay balanced exactly if this does not
        make an exclusive provider replace a route. */
    constructor Acquire(m: RemoteAccessManager, p: ProviderId, target: RouteTarget, ghost leases: set<RemoteRouteLease>)
      requires m.Valid() && Balanced(m, leases)
      modifies m`activeRoutes, m`entries, m.providers.Values
      ensures m.Valid() && mgr == m && Key() == KeyOf(p, target) && connectAddress == target.connectAddress
      ensures refused <==> !active
      ensures p == "" ==> active
      ensures active && p != "" ==> m.Usable(p, target)
      ensures p != "" && m.Usable(p, target) && (Key() in old(m.Routes()) || m.IsWilling(p)) ==> active
      ensures m.Routes() == Requested(old(m.Routes()), p, target, m.Usable(p, target), m.IsExclusive(p), active)
      ensures Balanced(m, leases + {this}) <==>
        !(p != "" && m.Usable(p, target) && m.IsExclusive(p) && Key() !in old(m.Routes()) && old(m.Routes()) != map[])
    {
      mgr, providerId, peerId := m, p, target.peerId;
      targetAddress, connectAddress := target.targetAddress, target.connectAddress;
      active, refused := false, false;
      new;
      Enter(m, target, leases);
    }

    /** The same for a lease that is not in the books yet. */
    method Enter(m: RemoteAccessManager, target: RouteTarget, ghost leases: set<RemoteRouteLease>)
      requires m.Valid() && Balanced(m, leases) && this !in leases && mgr == m && !active && !refused
      requires Key() == KeyOf(providerId, target)
      modifies this`active, this`refused, m`activeRoutes, m`entries, m.providers.Values
      ensures m.Valid() && (refused <==> !active)
      ensures providerId == "" ==> active
      ensures active && providerId != "" ==> m.Usable(providerId, target)
      ensures m.Usable(providerId, target) && (Key() in old(m.Routes()) || m.IsWilling(providerId)) ==> active
      ensures m.Routes() == Requested(old(m.Routes()), providerId, target, m.Usable(providerId, target),
                                      m.IsExclusive(providerId), active)
      ensures Balanced(m, leases + {this}) <==>
        !(providerId != "" && m.Usable(providerId, target) && m.IsExclusive(providerId)
          && Key() !in old(m.Routes()) && old(m.Routes()) != map[])
    {
      ghost var before, books := m.Routes(), Books(m, leases);
      CountsArePositive(m);
      Request(target);
      ghost var more := Books(m, leases + {this});
      assert Differ(books, more, {this});
      EvenAfterAcquire(before, books, m.Routes(), more, this, providerId, target, m.Usable(providerId, target),
                       m.IsExclusive(providerId), active);
    }

    /** The body of the constructor: a lease with a provider asks for its route. */
    method Request(target: RouteTarget)
      requires mgr != null && mgr.Valid() && !active && !refused
      modifies this`active, this`refused, mgr`activeRoutes, mgr`entries, mgr.providers.Values
      ensures mgr.Valid() && (refused <==> !active)
      ensures providerId == "" ==> active
      ensures active && providerId != "" ==> mgr.Usable(providerId, target)
      ensures mgr.Usable(providerId, target) && KeyOf(providerId, target) in old(mgr.Routes()) ==> active
      ensures mgr.Usable(providerId, target) && mgr.IsWilling(providerId) ==> active
      ensures mgr.Routes() == Requested(old(mgr.Routes()), providerId, target, mgr.Usable(providerId, target),
                                        mgr.IsExclusive(providerId), active)
    {
      if providerId != "" {
        active := mgr.ActivateRoute(providerId, target);
        refused := !active;
      } else {
        active := true;
      }
    }

    /** The move constructor. */
    constructor Move(other: RemoteRouteLease, ghost m: RemoteAccessManager, ghost leases: set<RemoteRouteLease>)
      requires m.Bookkeeping().WellFormed() && Balanced(m, leases) && other in leases
      modifies other
      ensures Balanced(m, leases + {this})
      ensures mgr == old(other.mgr) && Key() == old(other.Key()) && active == old(other.active)
      ensures refused == old(other.refused)
      ensures connectAddress == old(other.connectAddress)
      ensures other.mgr == null && !other.active && !other.refused
    {
      mgr, providerId, peerId := other.mgr, other.providerId, other.peerId;
      targetAddress, connectAddress := other.targetAddress, other.connectAddress;
      active, refused := other.active, other.refused;
      new;
      ghost var books := Books(m, leases);
      other.mgr, other.active, other.refused := null, false, false;
      ghost var more := Books(m, leases + {this});
      assert Differ(books, more, {other, this});
      EvenAfterMove(m.Routes(), books, more, other, this);
    }

    /** `release`, also what the destructor does. While the books are balanced, the provider is
        told to drop the route exactly when the last lease on it goes. */
    method Release(m: RemoteAccessManager, ghost leases: set<RemoteRouteLease>)
      requires m.Valid() && this in leases && (mgr == null || mgr == m)
      modifies this`active, m`activeRoutes, m`entries, m.providers.Values
      ensures m.Valid() && !Holds(m) && (old(Balanced(m, leases)) ==> Balanced(m, leases))
      ensures active == (old(active) && !old(Holds(m)))
      ensures !old(Holds(m)) ==> m.Routes() == old(m.Routes())
      ensures !old(Holds(m)) ==> forall q :: q in m.providers ==> m.providers[q].told == old(m.providers[q].told)
      ensures old(Holds(m)) && old(Balanced(m, leases)) ==>
        Key() in old(m.Routes()) && old(m.Routes()[Key()].references) == old(|HoldersOf(Books(m, leases), Key())|)
      // by key, whichever lease had the route put there
      ensures old(Holds(m)) && Key() in old(m.Routes()) ==>
        && m.Routes() == CountRelease(old(m.Routes()), Some(Key()))
        && forall q :: q in m.providers ==>
             m.providers[q].told == old(m.providers[q].told) +
               if q == providerId && old(m.Routes()[Key()].references) == 1
               then [ToldDeactivate(old(m.Routes()[Key()].target))] else []
      ensures old(Holds(m)) && Key() !in old(m.Routes()) && targetAddress != "" ==> m.Routes() == old(m.Routes())
    {
      if active && mgr != null && providerId != "" {
        assert this in Books(m, leases) && Books(m, leases)[this] == Key();
        ReleaseHeld(m, leases);
      }
    }

    /** The release of a lease that holds a route, or once did. */
    method ReleaseHeld(m: RemoteAccessManager, ghost leases: set<RemoteRouteLease>)
      requires m.Valid() && this in leases && Holds(m)
      modifies this`active, m`activeRoutes, m`entries, m.providers.Values
      ensures m.Valid() && !active && (old(Balanced(m, leases)) ==> Balanced(m, leases))
      ensures Key() in old(m.Routes()) ==>
        && m.Routes() == CountRelease(old(m.Routes()), Some(Key()))
        && forall q :: q in m.providers ==>
             m.providers[q].told == old(m.providers[q].told) +
               if q == providerId && old(m.Routes()[Key()].references) == 1
               then [ToldDeactivate(old(m.Routes()[Key()].target))] else []
      ensures Key() !in old(m.Routes()) && targetAddress != "" ==> m.Routes() == old(m.Routes())
    {
      ghost var before, books := m.Routes(), Books(m, leases);
      GiveBack(m);
      ghost var rest := Books(m, leases);
      assert Differ(books, rest, {this});
      if Even(before, books) {
        EvenAfterRelease(before, books, m.Routes(), rest, this);
      }
    }

    /** Deactivates the route of this lease's key, whichever lease had it put there. */
    method GiveBack(m: RemoteAccessManager)
      requires mgr == m && m.Valid()
      modifies this`active, m`activeRoutes, m`entries, m.providers.Values
      ensures m.Valid() && !active
      ensures Key() in old(m.Routes()) ==>
        && m.Routes() == CountRelease(old(m.Routes()), Some(Key()))
        && forall q :: q in m.providers ==>
             m.providers[q].told == old(m.providers[q].told) +
               if q == providerId && old(m.Routes()[Key()].references) == 1
               then [ToldDeactivate(old(m.Routes()[Key()].target))] else []
      ensures Key() !in old(m.Routes()) && targetAddress != "" ==> m.Routes() == old(m.Routes())
    {
      active := false;
      CountsArePositive(m);
      m.DeactivateRoute(providerId, peerId, targetAddress);
    }

    /** The second half of a move assignment, when this lease holds nothing any more. */
    method TakeOver(other: RemoteRouteLease, ghost m: RemoteAccessManager, ghost leases: set<RemoteRouteLease>)
      requires m.Bookkeeping().WellFormed() && Balanced(m, leases)
      requires this in leases && other in leases && this != other && !Holds(m)
      modifies this, other
      ensures Balanced(m, leases)
      ensures mgr == old(other.mgr) && Key() == old(other.Key()) && active == old(other.active)
      ensures refused == old(other.refused)
      ensures connectAddress == old(other.connectAddress)
      ensures other.mgr == null && !other.active && !other.refused
    {
      ghost var books := Books(m, leases);
      mgr, providerId, peerId := other.mgr, other.providerId, other.peerId;
      targetAddress, connectAddress := other.targetAddress, other.connectAddress;
      active, refused := other.active, other.refused;
      other.mgr, other.active, other.refused := null, false, false;
      ghost var after := Books(m, leases);
      assert Differ(books, after, {other, this});
      EvenAfterMove(m.Routes(), books, after, other, this);
    }

    /** The move assignment. */
    method Assign(other: RemoteRouteLease, m: RemoteAccessManager, ghost leases: set<RemoteRouteLease>)
      requires m.Valid() && Balanced(m, leases) && this in leases && other in leases && (mgr == null || mgr == m)
      modifies this, other, m`activeRoutes, m`entries, m.providers.Values
      ensures m.Valid() && Balanced(m, leases)
      ensures this != other ==>
        && mgr == old(other.mgr) && Key() == old(other.Key()) && active == old(other.active)
          && refused == old(other.refused)
        && connectAddress == old(other.connectAddress)
        && other.mgr == null && !other.active && !other.refused
      ensures this == other ==>
        unchanged(this) && m.Routes() == old(m.Routes())
    {
      if this != other {
        Release(m, leases);
        TakeOver(other, m, leases);
      }
    }

    /** An active lease without a provider is always ready; any other one asks the manager. */
    method PrepareForStreaming(m: RemoteAccessManager) returns (ok: bool)
      requires m.Valid() && (mgr == null || mgr == m)
      modifies m.providers.Values
      ensures m.Valid() && m.Routes() == old(m.Routes())
      ensures !active || mgr == null ==> !ok
      ensures active && mgr == m && providerId == "" ==> ok
      ensures !Holds(m) ==> forall q :: q in m.providers ==> m.providers[q].told == old(m.providers[q].told)
      ensures Holds(m) ==> exists found ::
        && Finds(m.Routes().Keys, providerId, peerId, targetAddress, found) && (found == None ==> !ok)
        && (found.Some? ==> found.value in m.Routes() && providerId in m.providers)
        && (found.Some? ==> ok == m.providers[providerId].answer(old(m.providers[providerId].told)))
        && forall q :: q in m.providers && (q != providerId || found == None) ==>
             m.providers[q].told == old(m.providers[q].told)
    {
      if !active || mgr == null {
        return false;
      }
      if providerId == "" {
        return true;
      }
      ok := mgr.PrepareRouteForStreaming(providerId, peerId, targetAddress);
    }
  }

  // ---------------------------------------------------------------- the books

  /** The routes after a lease has asked for one. */
  function Requested(routes: Counts, p: ProviderId, target: RouteTarget, usable: bool, exclusive: bool,
                     active: bool): Counts {
    if p != "" && usable then CountActivate(routes, p, target, exclusive, active) else routes
  }

  /** Which lease holds a reference on which route. */
  ghost function Books(m: RemoteAccessManager, leases: set<RemoteRouteLease>): map<RemoteRouteLease, RouteKey>
    reads leases
  {
    map l | l in leases && l.Holds(m) :: l.Key()
  }

  ghost function HoldersOf(books: map<RemoteRouteLease, RouteKey>, k: RouteKey): set<RemoteRouteLease> {
    set l | l in books && books[l] == k
  }

  /** The books differ at most in what they say about these leases. */
  ghost predicate Differ(books: map<RemoteRouteLease, RouteKey>, books': map<RemoteRouteLease, RouteKey>,
                         touched: set<RemoteRouteLease>)
  {
    && (forall l :: l in books && l !in touched ==> l in books' && books'[l] == books[l])
    && (forall l :: l in books' && l !in touched ==> l in books)
  }

  /** Every reference count is the number of leases on the route, and no lease holds a route that
      the table has lost. */
  ghost predicate Even(routes: Counts, books: map<RemoteRouteLease, RouteKey>) {
    && (forall k :: k in routes ==> routes[k].references == |HoldersOf(books, k)|)
    && (forall l :: l in books ==> books[l] in routes)
  }

  ghost predicate Balanced(m: RemoteAccessManager, leases: set<RemoteRouteLease>)
    requires m.Bookkeeping().WellFormed()
    reads m, leases
  {
    Even(m.Routes(), Books(m, leases))
  }

  lemma CountsArePositive(m: RemoteAccessManager)
    requires m.Valid()
    ensures forall k :: k in m.Routes() ==> m.Routes()[k].references >= 1
  {
    forall k | k in m.Routes()
      ensures RouteOk(m.Reg(), m.Bookkeeping(), k)
    {
    }
  }

  lemma HoldersAfterAdding(books: map<RemoteRouteLease, RouteKey>, l: RemoteRouteLease, key: RouteKey, k: RouteKey)
    requires l !in books
    ensures |HoldersOf(books[l := key], k)| == |HoldersOf(books, k)| + if key == k then 1 else 0
  {
    var before := HoldersOf(books, k);
    assert HoldersOf(books[l := key], k) == if key == k then before + {l} else before;
  }

  lemma HoldersAfterRemoving(books: map<RemoteRouteLease, RouteKey>, l: RemoteRouteLease, k: RouteKey)
    requires l in books
    ensures |HoldersOf(books - {l}, k)| == |HoldersOf(books, k)| - if books[l] == k then 1 else 0
  {
    var before := HoldersOf(books, k);
    assert HoldersOf(books - {l}, k) == before - {l};
    assert l in before <==> books[l] == k;
  }

  /** A new lease: the books stay even unless the routes of an exclusive provider are replaced. */
  lemma EvenAfterAcquire(routes: Counts, books: map<RemoteRouteLease, RouteKey>,
                         routes': Counts, books': map<RemoteRouteLease, RouteKey>, l: RemoteRouteLease,
                         p: ProviderId, target: RouteTarget, usable: bool, exclusive: bool, active: bool)
    requires Even(routes, books) && l !in books && Differ(books, books', {l})
    requires forall k :: k in routes ==> routes[k].references >= 1
    requires active && p != "" ==> usable
    requires p != "" && usable && KeyOf(p, target) in routes ==> active
    requires l in books' <==> active && p != ""
    requires l in books' ==> books'[l] == KeyOf(p, target)
    requires routes' == Requested(routes, p, target, usable, exclusive, active)
    ensures Even(routes', books') <==>
            !(p != "" && usable && exclusive && KeyOf(p, target) !in routes && routes != map[])
  {
    var key := KeyOf(p, target);
    assert books' == if l in books' then books[l := key] else books;
    if p != "" && usable && exclusive && key !in routes && routes != map[] {
      ReplacedIsUneven(routes, books, l, key);
    } else if p != "" && usable {
      forall k
        ensures |HoldersOf(books[l := key], k)| == |HoldersOf(books, k)| + if key == k then 1 else 0
      {
        HoldersAfterAdding(books, l, key, k);
      }
      if key !in routes {
        assert HoldersOf(books, key) == {};
      }
    }
  }

  /** Whoever held a replaced route holds nothing now. */
  lemma ReplacedIsUneven(routes: Counts, books: map<RemoteRouteLease, RouteKey>, l: RemoteRouteLease, key: RouteKey)
    requires Even(routes, books) && l !in books && key !in routes && routes != map[]
    requires forall k :: k in routes ==> routes[k].references >= 1
    ensures forall routes': Counts, books' ::
      routes'.Keys <= {key} && (books' == books || books' == books[l := key]) ==> !Even(routes', books')
  {
    var k :| k in routes;
    assert HoldersOf(books, k) != {};
    var x :| x in HoldersOf(books, k);
    forall routes': Counts, books' | routes'.Keys <= {key} && (books' == books || books' == books[l := key])
      ensures !Even(routes', books')
    {
      assert x in books' && books'[x] == k && k !in routes';
    }
  }

  /** What `other` held is held by `l` now. */
  lemma EvenAfterMove(routes: Counts, books: map<RemoteRouteLease, RouteKey>, books': map<RemoteRouteLease, RouteKey>,
                      other: RemoteRouteLease, l: RemoteRouteLease)
    requires Even(routes, books) && l !in books && other !in books' && Differ(books, books', {other, l})
    requires l in books' <==> other in books
    requires l in books' ==> books'[l] == books[other]
    ensures Even(routes, books')
  {
    if other in books {
      assert books' == (books - {other})[l := books[other]];
      forall k
        ensures |HoldersOf(books', k)| == |HoldersOf(books, k)|
      {
        HoldersAfterRemoving(books, other, k);
        HoldersAfterAdding(books - {other}, l, books[other], k);
      }
    } else {
      assert books' == books;
    }
  }

  lemma EvenAfterRelease(routes: Counts, books: map<RemoteRouteLease, RouteKey>,
                         routes': Counts, rest: map<RemoteRouteLease, RouteKey>, l: RemoteRouteLease)
    requires Even(routes, books) && l in books && l !in rest && Differ(books, rest, {l})
    requires routes' == CountRelease(routes, Some(books[l]))
    ensures Even(routes', rest)
  {
    var key := books[l];
    assert rest == books - {l};
    forall k
      ensures |HoldersOf(rest, k)| == |HoldersOf(books, k)| - if key == k then 1 else 0
    {
      HoldersAfterRemoving(books, l, k);
    }
    forall x | x in rest && rest[x] == key
      ensures routes[key].references > 1
    {
      assert x in HoldersOf(rest, key);
    }
  }

  // ---------------------------------------------------------------- stops under live leases

  /** An empty table suits exactly the leases that hold nothing. */
  lemma BalancedWithoutRoutes(m: RemoteAccessManager, leases: set<RemoteRouteLease>)
    requires m.Bookkeeping().WellFormed() && m.Routes() == map[]
    ensures Balanced(m, leases) <==> forall l :: l in leases ==> !l.Holds(m)
  {
    assert forall l :: l in leases && l.Holds(m) ==> l in Books(m, leases);
  }

  /** Stopping the provider keeps the books balanced if and only if no lease holds a route. */
  method StopUnderLeases(m: RemoteAccessManager, ghost leases: set<RemoteRouteLease>)
    requires m.Valid() && Balanced(m, leases)
    modifies m`activeProviderId, m`providerGeneration, m`activeRoutes, m`entries, m.providers.Values
    ensures m.Valid() && m.Routes() == map[]
    ensures Balanced(m, leases) <==> old(forall l :: l in leases ==> !l.Holds(m))
  {
    m.StopActiveProvider();
    BalancedWithoutRoutes(m, leases);
  }

  /** And so does selecting one. */
  method SelectUnderLeases(m: RemoteAccessManager, id: ProviderId, ghost leases: set<RemoteRouteLease>)
    returns (result: Selection)
    requires m.Valid() && Balanced(m, leases)
    modifies m`activeProviderId, m`providerGeneration, m`activeRoutes, m`entries, m.providers.Values
    ensures m.Valid() && m.Routes() == map[]
    ensures m.activeProviderId == if result.started then id else ""
    ensures Balanced(m, leases) <==> old(forall l :: l in leases ==> !l.Holds(m))
  {
    result := m.SelectAndStartProvider(id);
    BalancedWithoutRoutes(m, leases);
  }

  /** One lease from before a reselection and one from after it, if the provider accepts them. */
  method AcquireAcross(m: RemoteAccessManager, p: ProviderId, target: RouteTarget)
    returns (a: RemoteRouteLease, b: RemoteRouteLease)
    requires m.Valid() && m.Routes() == map[] && p != "" && m.Usable(p, target)
    modifies m`activeProviderId, m`providerGeneration, m`activeRoutes, m`entries, m.providers.Values
    ensures m.Valid() && a != b && fresh(a) && fresh(b)
    ensures a.mgr == b.mgr == m && a.Key() == b.Key() == KeyOf(p, target)
    ensures m.IsWilling(p) ==> a.active && b.active
    ensures b.active ==> b.Key() in m.Routes() && m.Routes() == map[KeyOf(p, target) := Counted(target, 1)]
  {
    a := new RemoteRouteLease.Acquire(m, p, target, {});
    b := AcquireReselected(m, p, target);
  }

  method AcquireReselected(m: RemoteAccessManager, p: ProviderId, target: RouteTarget) returns (b: RemoteRouteLease)
    requires m.Valid() && p != "" && m.Usable(p, target)
    modifies m`activeProviderId, m`providerGeneration, m`activeRoutes, m`entries, m.providers.Values
    ensures m.Valid() && fresh(b) && b.mgr == m && b.Key() == KeyOf(p, target)
    ensures m.IsWilling(p) ==> b.active
    ensures b.active ==> b.Key() in m.Routes() && m.Routes() == map[KeyOf(p, target) := Counted(target, 1)]
  {
    var selected := m.SelectAndStartProvider(p);
    b := new RemoteRouteLease.Acquire(m, p, target, {});
  }

  /** Where that leads, with every provider that accepts: the lease from before the reselection
      releases the route of the lease from after it. */
  method StaleRelease(m: RemoteAccessManager, p: ProviderId, target: RouteTarget)
    returns (a: RemoteRouteLease, b: RemoteRouteLease)
    requires m.Valid() && m.Routes() == map[] && p != "" && m.Usable(p, target) && m.IsWilling(p)
    modifies m`activeProviderId, m`providerGeneration, m`activeRoutes, m`entries, m.providers.Values
    ensures m.Valid() && a != b && b.Holds(m) && !a.Holds(m) && b.Key() !in m.Routes()
    ensures m.providers[p].told != [] && m.providers[p].told[|m.providers[p].told| - 1] == ToldDeactivate(target)
  {
    a, b := AcquireAcross(m, p, target);
    a.Release(m, {a, b});
  }

  /** There are such providers, and such a manager. */
  method WillingManager(p: ProviderId, exclusive: bool, target: RouteTarget) returns (m: RemoteAccessManager)
    requires p != "" && target.peerId != ""
    ensures fresh(m) && m.Valid() && m.Routes() == map[] && m.Usable(p, target) && m.IsWilling(p)
  {
    m := new RemoteAccessManager();
    var provider := new Provider(exclusive, _ => true);
    m.RegisterProvider(p, provider);
    var selected := m.SelectAndStartProvider(p);
  }
}
