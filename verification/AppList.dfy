/**
 `xml_applist`: handlers build a list of apps newest first, which is then reversed in place and
 numbered in document order.
 */
module AppList {
  import opened Wrappers
  import opened XmlSearch

  /** A text buffer: just allocated and not yet terminated, or holding a string. */
  datatype Buffer = Raw | Str(text: string)

  datatype AppInfo = AppInfo(id: int, name: Option<Buffer>, uuid: Option<Buffer>)

  const NEW_APP := AppInfo(0, None, None)

  /** `atoi` on a buffer; what it makes of an unterminated one is anybody's guess. */
  type Atoi = Buffer -> int

  // ---------------------------------------------------------------- the fold

  /** `xml_query` as `xml_applist` uses it; `apps` is the list, newest first. */
  datatype AppQuery = AppQuery(memory: Buffer, start: bool, apps: seq<AppInfo>)

  const INITIAL := AppQuery(Str(""), false, [])

  predicate IsField(name: string) {
    name == "ID" || name == "AppTitle" || name == "UUID"
  }

  function Contents(b: Buffer): string {
    match b case Raw => "" case Str(text) => text
  }

  function WithField(atoi: Atoi, app: AppInfo, name: string, memory: Buffer): AppInfo {
    if name == "ID" then app.(id := atoi(memory))
    else if name == "AppTitle" then app.(name := Some(memory))
    else if name == "UUID" then app.(uuid := Some(memory))
    else app
  }

  function AppStep(atoi: Atoi, q: AppQuery, e: Event): AppQuery {
    match e
    case Start(name) =>
      if name == "App" then q.(apps := [NEW_APP] + q.apps)
      else if IsField(name) then q.(memory := Raw, start := true)
      else q
    case End(name) =>
      if !q.start || q.apps == [] then q
      else q.(apps := [WithField(atoi, q.apps[0], name, q.memory)] + q.apps[1..], start := false)
    case Text(text) =>
      if q.start then q.(memory := Str(Contents(q.memory) + text)) else q
  }

  function AppFold(atoi: Atoi, q: AppQuery, events: seq<Event>): AppQuery {
    if events == [] then q
    else AppStep(atoi, AppFold(atoi, q, events[..|events| - 1]), events[|events| - 1])
  }

  function Reverse<T>(s: seq<T>): (r: seq<T>)
    ensures |r| == |s|
  {
    if s == [] then [] else Reverse(s[1..]) + [s[0]]
  }

  lemma {:induction false} ReverseAppend<T>(s: seq<T>, x: T)
    ensures Reverse(s + [x]) == [x] + Reverse(s)
    decreases |s|
  {
    if s == [] {
      assert s + [x] == [x] && [x][1..] == [];
    } else {
      assert (s + [x])[1..] == s[1..] + [x];
      ReverseAppend(s[1..], x);
    }
  }

  // ---------------------------------------------------------------- the list in memory

  class App {
    var id: int
    var name: Option<Buffer>
    var uuid: Option<Buffer>
    var serverOrder: int
    var next: App?

    constructor (next: App?)
      ensures Info() == NEW_APP && serverOrder == 0 && this.next == next
    {
      id, name, uuid, serverOrder := 0, None, None, 0;
      this.next := next;
    }

    function Info(): AppInfo
      reads this`id, this`name, this`uuid
    {
      AppInfo(id, name, uuid)
    }
  }

  ghost function Next(list: seq<App>, i: nat): App? {
    if i < |list| then list[i] else null
  }

  /** `list` is what one reaches from `head` through `next`. */
  ghost predicate Chain(list: seq<App>, head: App?)
    reads list
  {
    && (forall i, j :: 0 <= i < j < |list| ==> list[i] != list[j])
    && head == Next(list, 0)
    && forall i :: 0 <= i < |list| ==> LeadsOn(list, i)
  }

  ghost predicate LeadsOn(list: seq<App>, i: nat)
    requires i < |list|
    reads {list[i]}`next
  {
    list[i].next == Next(list, i + 1)
  }

  ghost function Infos(list: seq<App>): (infos: seq<AppInfo>)
    reads list
    ensures |infos| == |list|
  {
    seq(|list|, i requires 0 <= i < |list| reads list => list[i].Info())
  }

  class XmlApplistQuery {
    var memory: Buffer
    var start: bool
    var data: App?

    constructor ()
      ensures memory == Str("") && !start && data == null
    {
      memory, start, data := Str(""), false, null;
    }

    /** What the handlers work on, given the list that `data` leads to. */
    ghost function State(list: seq<App>): AppQuery
      reads this, list
    {
      AppQuery(memory, start, Infos(list))
    }

    method StartElement(ghost atoi: Atoi, ghost list: seq<App>, name: string) returns (ghost newList: seq<App>)
      requires Chain(list, data)
      modifies this
      ensures Chain(newList, data) && forall i :: 0 <= i < |newList| ==> newList[i] in list || fresh(newList[i])
      ensures State(newList) == AppStep(atoi, old(State(list)), Start(name))
    {
      newList := list;
      if name == "App" {
        var app := new App(data);
        data := app;
        newList := [app] + list;
        forall i | 0 <= i < |newList|
          ensures LeadsOn(newList, i)
        {
          if i > 0 {
            assert LeadsOn(list, i - 1);
          }
        }
      } else if IsField(name) {
        memory := Raw;
        start := true;
      }
    }

    method EndElement(atoi: Atoi, ghost list: seq<App>, name: string)
      requires Chain(list, data)
      modifies this`start, list`id, list`name, list`uuid
      ensures Chain(list, data)
      ensures State(list) == AppStep(atoi, old(State(list)), End(name))
    {
      if start {
        if data == null {
          return;
        }
        if name == "ID" {
          data.id := atoi(memory);
        } else if name == "AppTitle" {
          data.name := Some(memory);
        } else if name == "UUID" {
          data.uuid := Some(memory);
        }
        start := false;
      }
    }

    method WriteData(ghost atoi: Atoi, ghost list: seq<App>, text: string)
      modifies this`memory
      ensures State(list) == AppStep(atoi, old(State(list)), Text(text))
    {
      if start {
        memory := Str(Contents(memory) + text);
      }
    }
  }

  /** The reversal in place. */
  method ReverseList(ghost list: seq<App>, head: App?) returns (ordered: App?)
    requires Chain(list, head)
    modifies list`next
    ensures Chain(Reverse(list), ordered)
  {
    var reversed: App? := head;
    ordered := null;
    ghost var k := 0;
    while reversed != null
      invariant 0 <= k <= |list| && reversed == Next(list, k) && ordered == Previous(list, k)
      invariant forall i :: 0 <= i < k ==> LeadsBack(list, i)
      invariant forall i :: k <= i < |list| ==> LeadsOn(list, i)
      decreases |list| - k
    {
      assert LeadsOn(list, k);
      var next := reversed.next;
      reversed.next := ordered;
      ordered := reversed;
      reversed := next;
      k := k + 1;
    }
    ChainIsReversed(list, ordered);
  }

  ghost predicate LeadsBack(list: seq<App>, i: nat)
    requires i < |list|
    reads {list[i]}`next
  {
    list[i].next == Previous(list, i)
  }

  ghost function Previous(list: seq<App>, i: nat): App?
    requires i <= |list|
  {
    if i == 0 then null else list[i - 1]
  }

  lemma {:induction false} ReverseAt<T>(s: seq<T>, i: nat)
    requires i < |s|
    ensures Reverse(s)[i] == s[|s| - 1 - i]
    decreases |s|
  {
    if i < |s| - 1 {
      ReverseAt(s[1..], i);
    }
  }

  lemma {:induction false} ChainIsReversed(list: seq<App>, ordered: App?)
    requires forall i, j :: 0 <= i < j < |list| ==> list[i] != list[j]
    requires ordered == Previous(list, |list|)
    requires forall i :: 0 <= i < |list| ==> LeadsBack(list, i)
    ensures Chain(Reverse(list), ordered)
  {
    var r, n := Reverse(list), |list|;
    forall i | 0 <= i < n
      ensures r[i] == list[n - 1 - i]
    {
      ReverseAt(list, i);
    }
    forall i | 0 <= i < n
      ensures LeadsOn(r, i)
    {
      assert r[i] == list[n - 1 - i] && LeadsBack(list, n - 1 - i);
      if i + 1 < n {
        assert r[i + 1] == list[n - 2 - i];
      }
    }
  }

  /** Numbers the apps along the list. */
  method NumberList(ghost list: seq<App>, head: App?)
    requires Chain(list, head)
    modifies list`serverOrder
    ensures Chain(list, head)
    ensures forall i :: 0 <= i < |list| ==> list[i].serverOrder == i
  {
    var order, item := 0, head;
    while item != null
      invariant 0 <= order <= |list| && item == Next(list, order)
      invariant forall i :: 0 <= i < order ==> list[i].serverOrder == i
      decreases |list| - order
    {
      assert LeadsOn(list, order);
      item.serverOrder := order;
      order := order + 1;
      item := item.next;
    }
  }

  lemma {:induction false} InfosReverse(list: seq<App>)
    ensures Infos(Reverse(list)) == Reverse(Infos(list))
    decreases |list|
  {
    if list != [] {
      InfosReverse(list[1..]);
      assert Infos(list)[1..] == Infos(list[1..]);
      assert Infos(Reverse(list[1..]) + [list[0]]) == Infos(Reverse(list[1..])) + [list[0].Info()];
    }
  }

  lemma SameElements(list: seq<App>)
    ensures forall i :: 0 <= i < |list| ==> Reverse(list)[i] in list
  {
    forall i | 0 <= i < |list|
      ensures Reverse(list)[i] in list
    {
      ReverseAt(list, i);
    }
  }

  /** `xml_applist` on a document that parses: the apps in document order, numbered from 0. */
  method XmlApplist(atoi: Atoi, events: seq<Event>) returns (appList: App?)
    ensures Lists(appList, Reverse(AppFold(atoi, INITIAL, events).apps), 0)
  {
    ghost var list: seq<App>;
    appList, list := HandleEvents(atoi, events);
    appList, list := OrderList(list, appList);
    ChainLists(list, 0);
    assert Infos(list)[0..] == Infos(list);
  }

  /** From `head` on through `next` these apps follow, numbered from `order`, and no others. */
  ghost predicate Lists(head: App?, infos: seq<AppInfo>, order: nat)
    reads *
    decreases |infos|
  {
    if infos == [] then head == null
    else
      && head != null && head.Info() == infos[0] && head.serverOrder == order
      && Lists(head.next, infos[1..], order + 1)
  }

  lemma {:induction false} ChainLists(list: seq<App>, i: nat)
    requires Chain(list, Next(list, 0)) && i <= |list|
    requires forall j :: 0 <= j < |list| ==> list[j].serverOrder == j
    ensures Lists(Next(list, i), Infos(list)[i..], i)
    decreases |list| - i
  {
    if i < |list| {
      assert LeadsOn(list, i) && Infos(list)[i..][1..] == Infos(list)[i + 1..];
      ChainLists(list, i + 1);
    }
  }

  /** Reversal and numbering. */
  method OrderList(ghost newest: seq<App>, head: App?) returns (ordered: App?, ghost list: seq<App>)
    requires Chain(newest, head)
    modifies newest`next, newest`serverOrder
    ensures list == Reverse(newest) && Chain(list, ordered)
    ensures Infos(list) == Reverse(old(Infos(newest)))
    ensures forall i :: 0 <= i < |list| ==> list[i].serverOrder == i
  {
    list := Reverse(newest);
    SameElements(newest);
    InfosReverse(newest);
    ordered := ReverseList(newest, head);
    NumberList(list, ordered);
    assert Infos(list) == old(Infos(list));
  }

  /** The parser's run over the handlers. */
  method HandleEvents(atoi: Atoi, events: seq<Event>) returns (data: App?, ghost list: seq<App>)
    ensures Chain(list, data) && fresh(list)
    ensures Infos(list) == AppFold(atoi, INITIAL, events).apps
  {
    var query := new XmlApplistQuery();
    list := [];
    for i := 0 to |events|
      invariant Chain(list, query.data) && fresh(list)
      invariant query.State(list) == AppFold(atoi, INITIAL, events[..i])
    {
      assert events[..i + 1][..i] == events[..i];
      match events[i]
      case Start(name) => list := query.StartElement(atoi, list, name);
      case End(name) => query.EndElement(atoi, list, name);
      case Text(text) => query.WriteData(atoi, list, text);
    }
    assert events[..|events|] == events;
    data := query.data;
  }

  // ---------------------------------------------------------------- documents

  /** No element among these: text only. */
  predicate Bare(forest: seq<Xml>) {
    forall i :: 0 <= i < |forest| ==> forest[i].Chars?
  }

  /** The text of a field; without any the buffer stays as it was allocated. */
  function FieldText(forest: seq<Xml>): Buffer {
    if forest == [] then Raw else Str(AllTextOf(forest))
  }

  /** What a document does to the list, newest first: every App starts a new app, and every field
      without an element inside it sets that field of the newest app. */
  function Visited(atoi: Atoi, apps: seq<AppInfo>, forest: seq<Xml>): seq<AppInfo>
    decreases forest
  {
    if forest == [] then apps else Visited(atoi, VisitedOne(atoi, apps, forest[0]), forest[1..])
  }

  function VisitedOne(atoi: Atoi, apps: seq<AppInfo>, x: Xml): seq<AppInfo>
    decreases x
  {
    match x
    case Chars(_) => apps
    case Element(name, children) =>
      var inside := Visited(atoi, if name == "App" then [NEW_APP] + apps else apps, children);
      if IsField(name) && Bare(children) && inside != []
      then [WithField(atoi, inside[0], name, FieldText(children))] + inside[1..]
      else inside
  }

  lemma {:induction false} FoldInTwo(atoi: Atoi, q: AppQuery, a: seq<Event>, b: seq<Event>)
    ensures AppFold(atoi, q, a + b) == AppFold(atoi, AppFold(atoi, q, a), b)
    decreases |b|
  {
    if b == [] {
      assert a + b == a;
    } else {
      FoldInTwo(atoi, q, a, b[..|b| - 1]);
      assert (a + b)[..|a + b| - 1] == a + b[..|b| - 1];
    }
  }

  lemma FoldOne(atoi: Atoi, q: AppQuery, e: Event)
    ensures AppFold(atoi, q, [e]) == AppStep(atoi, q, e)
  {
    assert [e][..0] == [];
  }

  /** What the fold over a forest leaves behind. */
  ghost predicate Folds(atoi: Atoi, q: AppQuery, forest: seq<Xml>, r: AppQuery) {
    && r.apps == Visited(atoi, q.apps, forest)
    && (!Bare(forest) ==> !r.start || r.apps == [])
    && (Bare(forest) ==>
          && r.start == q.start && r.apps == q.apps
          && (q.start ==>
                r.memory == if forest == [] then q.memory else Str(Contents(q.memory) + AllTextOf(forest))))
  }

  lemma {:induction false} FoldVisits(atoi: Atoi, q: AppQuery, forest: seq<Xml>)
    ensures Folds(atoi, q, forest, AppFold(atoi, q, EventsOfAll(forest)))
    decreases forest
  {
    if forest != [] {
      var x, rest := forest[0], forest[1..];
      var between := AppFold(atoi, q, EventsOf(x));
      FoldInTwo(atoi, q, EventsOf(x), EventsOfAll(rest));
      FoldVisitsOne(atoi, q, x);
      FoldVisits(atoi, between, rest);
      assert Bare(forest) <==> x.Chars? && Bare(rest);
      if x.Chars? {
        assert Contents(q.memory) + x.text + AllTextOf(rest) == Contents(q.memory) + (x.text + AllTextOf(rest));
      }
    }
  }

  lemma {:induction false} FoldVisitsOne(atoi: Atoi, q: AppQuery, x: Xml)
    ensures
      var r := AppFold(atoi, q, EventsOf(x));
      match x
      case Chars(text) => r == AppStep(atoi, q, Text(text))
      case Element(_, _) => r.apps == VisitedOne(atoi, q.apps, x) && (!r.start || r.apps == [])
    decreases x
  {
    match x
    case Chars(text) =>
      FoldOne(atoi, q, Text(text));
    case Element(name, children) =>
      var begun := AppStep(atoi, q, Start(name));
      var inside := AppFold(atoi, begun, EventsOfAll(children));
      FoldInTwo(atoi, q, [Start(name)] + EventsOfAll(children), [End(name)]);
      FoldInTwo(atoi, q, [Start(name)], EventsOfAll(children));
      FoldOne(atoi, q, Start(name));
      FoldVisits(atoi, begun, children);
      FoldOne(atoi, inside, End(name));
      EndVisits(atoi, q, name, children, inside);
  }

  /** The end of an element records a field exactly if it was collected without interruption. */
  lemma EndVisits(atoi: Atoi, q: AppQuery, name: string, children: seq<Xml>, inside: AppQuery)
    requires Folds(atoi, AppStep(atoi, q, Start(name)), children, inside)
    ensures
      var r := AppStep(atoi, inside, End(name));
      r.apps == VisitedOne(atoi, q.apps, Element(name, children)) && (!r.start || r.apps == [])
  {
    if inside.apps != [] {
      assert [inside.apps[0]] + inside.apps[1..] == inside.apps;
    }
    assert Contents(Raw) + AllTextOf(children) == AllTextOf(children);
  }

  /** On every document whatsoever the handlers build the list that its structure describes. */
  lemma ListsWhatDocumentDescribes(atoi: Atoi, document: seq<Xml>)
    ensures AppFold(atoi, INITIAL, EventsOfAll(document)).apps == Visited(atoi, [], document)
  {
    FoldVisits(atoi, INITIAL, document);
  }

  // ---------------------------------------------------------------- a server's list

  /** No app among these elements, at any depth. */
  predicate WithoutApps(forest: seq<Xml>)
    decreases forest
  {
    forest == [] || (WithoutAppsOne(forest[0]) && WithoutApps(forest[1..]))
  }

  predicate WithoutAppsOne(x: Xml)
    decreases x
  {
    match x
    case Chars(_) => true
    case Element(name, children) => name != "App" && WithoutApps(children)
  }

  /** Neither apps nor fields. */
  predicate Plain(forest: seq<Xml>)
    decreases forest
  {
    forest == [] || (PlainOne(forest[0]) && Plain(forest[1..]))
  }

  predicate PlainOne(x: Xml)
    decreases x
  {
    match x
    case Chars(_) => true
    case Element(name, children) => name != "App" && !IsField(name) && Plain(children)
  }

  /** An app after these children: of fields of one name the last counts. */
  function Described(atoi: Atoi, app: AppInfo, forest: seq<Xml>): AppInfo
    decreases forest
  {
    if forest == [] then app else Described(atoi, DescribedOne(atoi, app, forest[0]), forest[1..])
  }

  function DescribedOne(atoi: Atoi, app: AppInfo, x: Xml): AppInfo
    decreases x
  {
    match x
    case Chars(_) => app
    case Element(name, children) =>
      if IsField(name) && Bare(children) then WithField(atoi, app, name, FieldText(children))
      else Described(atoi, app, children)
  }

  lemma {:induction false} BareChangesNothing(atoi: Atoi, apps: seq<AppInfo>, forest: seq<Xml>)
    requires Bare(forest)
    ensures Visited(atoi, apps, forest) == apps
    decreases forest
  {
    if forest != [] {
      BareChangesNothing(atoi, apps, forest[1..]);
    }
  }

  /** Without new apps the newest one is described, and the others stay. */
  lemma {:induction false} VisitedDescribes(atoi: Atoi, apps: seq<AppInfo>, forest: seq<Xml>)
    requires WithoutApps(forest) && apps != []
    ensures Visited(atoi, apps, forest) == [Described(atoi, apps[0], forest)] + apps[1..]
    decreases forest
  {
    if forest == [] {
      assert [apps[0]] + apps[1..] == apps;
    } else {
      VisitedDescribesOne(atoi, apps, forest[0]);
      VisitedDescribes(atoi, VisitedOne(atoi, apps, forest[0]), forest[1..]);
    }
  }

  lemma {:induction false} VisitedDescribesOne(atoi: Atoi, apps: seq<AppInfo>, x: Xml)
    requires WithoutAppsOne(x) && apps != []
    ensures VisitedOne(atoi, apps, x) == [DescribedOne(atoi, apps[0], x)] + apps[1..]
    decreases x
  {
    match x
    case Chars(_) =>
      assert [apps[0]] + apps[1..] == apps;
    case Element(name, children) =>
      if IsField(name) && Bare(children) {
        BareChangesNothing(atoi, apps, children);
      } else {
        VisitedDescribes(atoi, apps, children);
      }
  }

  lemma {:induction false} PlainIsIgnored(atoi: Atoi, apps: seq<AppInfo>, app: AppInfo, forest: seq<Xml>)
    requires Plain(forest)
    ensures Visited(atoi, apps, forest) == apps && Described(atoi, app, forest) == app
    decreases forest
  {
    if forest != [] {
      if forest[0].Element? {
        PlainIsIgnored(atoi, apps, app, forest[0].children);
      }
      PlainIsIgnored(atoi, apps, app, forest[1..]);
    }
  }

  /** A field is recorded if and only if it has no element inside it. */
  lemma FieldNeedsBareText(atoi: Atoi, app: AppInfo, tag: string, children: seq<Xml>)
    requires IsField(tag) && Plain(children)
    ensures DescribedOne(atoi, app, Element(tag, children)) ==
            if Bare(children) then WithField(atoi, app, tag, FieldText(children)) else app
  {
    PlainIsIgnored(atoi, [], app, children);
  }

  /** A server's list: apps that hold no other apps, and between them nothing that matters. */
  predicate ServerList(entries: seq<Xml>) {
    forall i :: 0 <= i < |entries| ==>
      if entries[i].Element? && entries[i].name == "App" then WithoutApps(entries[i].children) else PlainOne(entries[i])
  }

  /** The text of the last element of this name, at any depth, that has no element inside it. */
  function LastBare(tag: string, forest: seq<Xml>): Option<Buffer>
    decreases forest
  {
    if forest == [] then None
    else
      var later := LastBare(tag, forest[1..]);
      if later.Some? then later else LastBareIn(tag, forest[0])
  }

  function LastBareIn(tag: string, x: Xml): Option<Buffer>
    decreases x
  {
    match x
    case Chars(_) => None
    case Element(name, children) =>
      if name == tag && Bare(children) then Some(FieldText(children)) else LastBare(tag, children)
  }

  /** What the fields among these elements make of an app: the id is that of the last bare ID, the name
      the text of the last bare AppTitle and the uuid that of the last bare UUID. */
  ghost predicate TellsOf(atoi: Atoi, app: AppInfo, forest: seq<Xml>, after: AppInfo) {
    && after.id == (match LastBare("ID", forest) case Some(text) => atoi(text) case None => app.id)
    && after.name == (match LastBare("AppTitle", forest) case Some(text) => Some(text) case None => app.name)
    && after.uuid == (match LastBare("UUID", forest) case Some(text) => Some(text) case None => app.uuid)
  }

  lemma {:induction false} BareHoldsNoElement(tag: string, forest: seq<Xml>)
    requires Bare(forest)
    ensures LastBare(tag, forest) == None
    decreases forest
  {
    if forest != [] {
      BareHoldsNoElement(tag, forest[1..]);
    }
  }

  /** The fields of an app are the texts of its last bare elements of their names. */
  lemma {:induction false} DescribedByLastFields(atoi: Atoi, app: AppInfo, forest: seq<Xml>)
    ensures TellsOf(atoi, app, forest, Described(atoi, app, forest))
    decreases forest
  {
    if forest != [] {
      var between := DescribedOne(atoi, app, forest[0]);
      if forest[0].Element? {
        DescribedByLastFieldsOf(atoi, app, forest[0]);
      }
      DescribedByLastFields(atoi, between, forest[1..]);
    }
  }

  lemma {:induction false} DescribedByLastFieldsOf(atoi: Atoi, app: AppInfo, x: Xml)
    requires x.Element?
    ensures
      var after := DescribedOne(atoi, app, x);
      && after.id == (match LastBareIn("ID", x) case Some(text) => atoi(text) case None => app.id)
      && after.name == (match LastBareIn("AppTitle", x) case Some(text) => Some(text) case None => app.name)
      && after.uuid == (match LastBareIn("UUID", x) case Some(text) => Some(text) case None => app.uuid)
    decreases x
  {
    if Bare(x.children) {
      BareHoldsNoElement("ID", x.children);
      BareHoldsNoElement("AppTitle", x.children);
      BareHoldsNoElement("UUID", x.children);
    }
    DescribedByLastFields(atoi, app, x.children);
  }

  /** The app that these children describe: its fields are the texts of the last bare elements of their
      names; without one the id is 0 and the other two are missing. */
  function AppOf(atoi: Atoi, children: seq<Xml>): AppInfo {
    var id := LastBare("ID", children);
    AppInfo(if id.Some? then atoi(id.value) else 0, LastBare("AppTitle", children), LastBare("UUID", children))
  }

  /** The apps of a list, in document order. */
  function AppsOf(atoi: Atoi, entries: seq<Xml>): seq<AppInfo> {
    if entries == [] then []
    else
      var rest := AppsOf(atoi, entries[1..]);
      if entries[0].Element? && entries[0].name == "App" then [AppOf(atoi, entries[0].children)] + rest else rest
  }

  /** An App adds what its children describe. */
  lemma VisitedApp(atoi: Atoi, apps: seq<AppInfo>, x: Xml)
    requires x.Element? && x.name == "App" && WithoutApps(x.children)
    ensures VisitedOne(atoi, apps, x) == [AppOf(atoi, x.children)] + apps
  {
    VisitedDescribes(atoi, [NEW_APP] + apps, x.children);
    DescribedByLastFields(atoi, NEW_APP, x.children);
    assert ([NEW_APP] + apps)[1..] == apps;
  }

  lemma {:induction false} VisitedEntries(atoi: Atoi, apps: seq<AppInfo>, entries: seq<Xml>)
    requires ServerList(entries)
    ensures Reverse(Visited(atoi, apps, entries)) == Reverse(apps) + AppsOf(atoi, entries)
    decreases |entries|
  {
    if entries != [] {
      var x, rest := entries[0], entries[1..];
      assert forall i :: 0 <= i < |rest| ==> rest[i] == entries[i + 1];
      if x.Element? && x.name == "App" {
        var newer := [AppOf(atoi, x.children)] + apps;
        VisitedApp(atoi, apps, x);
        assert newer[1..] == apps;
        VisitedEntries(atoi, newer, rest);
      } else {
        if x.Element? {
          PlainIsIgnored(atoi, apps, NEW_APP, x.children);
        }
        VisitedEntries(atoi, apps, rest);
      }
    }
  }

  /** On a server's list the result is its apps in document order, each with the last fields among its
      children. */
  lemma ListsAppsInOrder(atoi: Atoi, root: string, entries: seq<Xml>)
    requires root != "App" && !IsField(root) && ServerList(entries)
    ensures Reverse(AppFold(atoi, INITIAL, EventsOf(Element(root, entries))).apps) == AppsOf(atoi, entries)
  {
    var document := [Element(root, entries)];
    assert document[1..] == [] && EventsOfAll(document) == EventsOf(document[0]) + [];
    assert EventsOfAll(document) == EventsOf(document[0]);
    ListsWhatDocumentDescribes(atoi, document);
    assert Visited(atoi, [], document) == VisitedOne(atoi, [], document[0]) == Visited(atoi, [], entries);
    VisitedEntries(atoi, [], entries);
  }
}
