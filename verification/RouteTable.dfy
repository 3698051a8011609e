/**
 The bookkeeping that `RemoteAccessManager` keeps under its state mutex, and the
 effect of each of its critical sections on that bookkeeping.

 A route entry is shared between the table and the calls that wait on it or are
 activating it, so an entry has an identity of its own: its index in `entries`.
 Erasing a route from `routes` leaves the entry where it is.
 */
module RouteTable {
  import opened Wrappers

  type ProviderId = string

  datatype RouteMode = Native | Proxy

  datatype RouteTarget = RouteTarget(
    peerId: string,
    peerAddress: string,
    targetAddress: string,
    connectAddress: string,
    mode: RouteMode)

  datatype RouteKey = RouteKey(providerId: ProviderId, peerId: string, targetAddress: string)

  function KeyOf(p: ProviderId, target: RouteTarget): RouteKey {
    RouteKey(p, target.peerId, target.targetAddress)
  }

  datatype RouteState = Activating | Active | Failed

  datatype RouteEntry = RouteEntry(
    target: RouteTarget,
    generation: nat,
    references: nat,
    state: RouteState)

  type EntryRef = nat

  /** The registered providers, each with its `routesAreExclusive` answer. */
  type Registry = map<ProviderId, bool>

  datatype Table = Table(
    active: ProviderId,
    generation: nat,
    routes: map<RouteKey, EntryRef>,
    entries: seq<RouteEntry>)
  {
    /** Every route points at an entry. */
    ghost predicate WellFormed() {
      forall k :: k in routes ==> routes[k] < |entries|
    }

    function At(k: RouteKey): RouteEntry
      requires WellFormed() && k in routes
    {
      entries[routes[k]]
    }
  }

  const EmptyTable := Table("", 0, map[], [])

  /** The entries that the routes in `doomed` point at. */
  function Refs(t: Table, doomed: set<RouteKey>): set<EntryRef> {
    set k | k in doomed && k in t.routes :: t.routes[k]
  }

  /** Erases the routes in `doomed` and marks their entries Failed. */
  function Fail(t: Table, doomed: set<RouteKey>): Table
  {
    t.(routes := t.routes - doomed,
       entries := seq(|t.entries|, i requires 0 <= i < |t.entries| =>
           if i in Refs(t, doomed) then t.entries[i].(state := Failed) else t.entries[i]))
  }

  /** The routes of one provider. */
  function RoutesOf(t: Table, p: ProviderId): set<RouteKey> {
    set k | k in t.routes && k.providerId == p
  }

  /** The targets of the routes in `keys` that are Active. */
  function ActiveTargets(t: Table, keys: set<RouteKey>): set<RouteTarget>
    requires t.WellFormed()
  {
    set k | k in keys && k in t.routes && t.At(k).state == Active :: t.At(k).target
  }

  // ---------------------------------------------------------------- activateRoute

  /** The routes that a new exclusive route replaces. */
  function Replaced(t: Table, p: ProviderId, target: RouteTarget, exclusive: bool): set<RouteKey> {
    if exclusive then RoutesOf(t, p) - {KeyOf(p, target)} else {}
  }

  /** First section of `activateRoute` for a key that is not in the table: the new
      entry is the last one. */
  function Create(t: Table, p: ProviderId, target: RouteTarget, exclusive: bool): Table
    requires t.WellFormed()
  {
    var added := t.(routes := t.routes[KeyOf(p, target) := |t.entries|],
                    entries := t.entries + [RouteEntry(target, t.generation, 1, Activating)]);
    Fail(added, Replaced(added, p, target, exclusive))
  }

  /** The verdict on an existing entry that has left Activating. */
  predicate MayJoin(t: Table, e: EntryRef)
    requires e < |t.entries|
  {
    t.entries[e].state == Active && t.entries[e].generation == t.generation
  }

  function Join(t: Table, e: EntryRef): Table
    requires e < |t.entries|
  {
    if MayJoin(t, e)
    then t.(entries := t.entries[e := t.entries[e].(references := t.entries[e].references + 1)])
    else t
  }

  /** Is entry `e` still what the table holds for `key`, for the same provider run? */
  predicate Current(t: Table, p: ProviderId, key: RouteKey, e: EntryRef)
    requires e < |t.entries|
  {
    && t.active == p
    && t.entries[e].generation == t.generation
    && key in t.routes && t.routes[key] == e
  }

  /** Second section of `activateRoute`, after the provider has answered. */
  function Commit(t: Table, p: ProviderId, key: RouteKey, e: EntryRef, activated: bool): Table
    requires e < |t.entries|
  {
    if activated && Current(t, p, key, e)
    then t.(entries := t.entries[e := t.entries[e].(state := Active)])
    else t.(entries := t.entries[e := t.entries[e].(state := Failed)],
            routes := if key in t.routes && t.routes[key] == e then t.routes - {key} else t.routes)
  }

  // ------------------------------------------- deactivateRoute and prepareRouteForStreaming

  /** `findRouteLocked`: the exact key, else (for an empty address) any route to that
      peer. Which one an unordered map yields first is not determined. */
  predicate Finds(keys: set<RouteKey>, p: ProviderId, peer: string, address: string, found: Option<RouteKey>) {
    var exact := RouteKey(p, peer, address);
    if exact in keys then found == Some(exact)
    else if address != "" then found == None
    else match found
      case Some(k) => k in keys && k.providerId == p && k.peerId == peer
      case None => forall k :: k in keys ==> !(k.providerId == p && k.peerId == peer)
  }

  /** What the section of `deactivateRoute` decides about the route it found. */
  datatype ReleaseKind = Ignored | Decremented | Erased(target: RouteTarget)

  function ReleaseVerdict(t: Table, found: Option<RouteKey>): ReleaseKind
    requires t.WellFormed() && (found.Some? ==> found.value in t.routes)
  {
    if found == None || t.At(found.value).state != Active then Ignored
    else if t.At(found.value).references > 1 then Decremented
    else Erased(t.At(found.value).target)
  }

  function Release(t: Table, found: Option<RouteKey>): Table
    requires t.WellFormed() && (found.Some? ==> found.value in t.routes)
  {
    match ReleaseVerdict(t, found)
    case Ignored => t
    case Decremented =>
      var e := t.routes[found.value];
      t.(entries := t.entries[e := t.entries[e].(references := t.entries[e].references - 1)])
    case Erased(_) => t.(routes := t.routes - {found.value})
  }

  // ---------------------------------------------------------------- provider selection

  /** The section of `stopActiveProviderLocked`. */
  function Stop(t: Table): Table {
    Fail(t, RoutesOf(t, t.active)).(active := "", generation := t.generation + 1)
  }

  /** The section that publishes a started provider; `setActiveProviderId` is the same. */
  function Publish(t: Table, id: ProviderId): Table {
    t.(active := id, generation := t.generation + 1)
  }
}
