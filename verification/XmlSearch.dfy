/**
 `xml_search` and `xml_search_all`: folds over the events of an XML parser that collect the text
 inside the elements of one name. The parser itself is represented by the events it delivers;
 text may arrive in any number of pieces.
 */
module XmlSearch {

  datatype Event = Start(name: string) | End(name: string) | Text(text: string)

  // ---------------------------------------------------------------- the two folds

  /** `xml_query` as `xml_search` uses it. */
  datatype Query = Query(start: int, memory: string)

  function SearchStep(q: Query, e: Event, node: string): Query {
    match e
    case Start(name) => if name == node then q.(start := q.start + 1) else q
    case End(name) => if name == node then q.(start := q.start - 1) else q
    case Text(text) => if q.start > 0 then q.(memory := q.memory + text) else q
  }

  function Searched(events: seq<Event>, node: string): Query {
    if events == [] then Query(0, "")
    else SearchStep(Searched(events[..|events| - 1], node), events[|events| - 1], node)
  }

  /** `xml_array_query`. */
  datatype ArrayQuery = ArrayQuery(depth: nat, current: string, values: seq<string>)

  function ArrayStep(q: ArrayQuery, e: Event, node: string): ArrayQuery {
    match e
    case Start(name) =>
      if name != node then q
      else q.(depth := q.depth + 1, current := if q.depth == 0 then "" else q.current)
    case End(name) =>
      if name != node || q.depth == 0 then q
      else q.(depth := q.depth - 1, values := if q.depth == 1 then q.values + [q.current] else q.values)
    case Text(text) => if q.depth > 0 then q.(current := q.current + text) else q
  }

  function Collected(events: seq<Event>, node: string): ArrayQuery {
    if events == [] then ArrayQuery(0, "", [])
    else ArrayStep(Collected(events[..|events| - 1], node), events[|events| - 1], node)
  }

  /** The start of a string as C sees it. */
  function CString(s: string): string {
    if s == "" || s[0] == '\0' then "" else [s[0]] + CString(s[1..])
  }

  class XmlQuery {
    var memory: string
    var start: int
    const node: string

    constructor (node: string)
      ensures this.node == node && State() == Query(0, "")
    {
      this.node := node;
      memory, start := "", 0;
    }

    ghost function State(): Query
      reads this
    {
      Query(start, memory)
    }

    method StartElement(name: string)
      modifies this`start
      ensures State() == SearchStep(old(State()), Start(name), node)
    {
      if node == name {
        start := start + 1;
      }
    }

    method EndElement(name: string)
      modifies this`start
      ensures State() == SearchStep(old(State()), End(name), node)
    {
      if node == name {
        start := start - 1;
      }
    }

    method WriteData(text: string)
      modifies this`memory
      ensures State() == SearchStep(old(State()), Text(text), node)
    {
      if start > 0 {
        memory := memory + text;
      }
    }
  }

  /** `xml_search` on a document that parses. */
  method XmlSearch(events: seq<Event>, node: string) returns (result: string)
    ensures result == CString(Searched(events, node).memory)
  {
    var search := new XmlQuery(node);
    for i := 0 to |events|
      invariant search.State() == Searched(events[..i], node) && search.node == node
    {
      assert events[..i + 1][..i] == events[..i];
      match events[i]
      case Start(name) => search.StartElement(name);
      case End(name) => search.EndElement(name);
      case Text(text) => search.WriteData(text);
    }
    assert events[..|events|] == events;
    result := CString(search.memory);
  }

  class XmlArrayQuery {
    const node: string
    var values: seq<string>
    var current: string
    var depth: nat

    constructor (node: string)
      ensures this.node == node && State() == ArrayQuery(0, "", [])
    {
      this.node := node;
      values, current, depth := [], "", 0;
    }

    ghost function State(): ArrayQuery
      reads this
    {
      ArrayQuery(depth, current, values)
    }

    method ArrayStart(name: string)
      modifies this
      ensures State() == ArrayStep(old(State()), Start(name), node)
    {
      if node == name {
        if depth == 0 {
          current := "";
        }
        depth := depth + 1;
      }
    }

    method ArrayEnd(name: string)
      modifies this
      ensures State() == ArrayStep(old(State()), End(name), node)
    {
      if node == name && depth > 0 {
        depth := depth - 1;
        if depth == 0 {
          values := values + [current];
        }
      }
    }

    method ArrayText(text: string)
      modifies this
      ensures State() == ArrayStep(old(State()), Text(text), node)
    {
      if depth > 0 {
        current := current + text;
      }
    }
  }

  /** `xml_search_all` on a document that parses. */
  method XmlSearchAll(events: seq<Event>, node: string) returns (results: seq<string>)
    ensures results == Collected(events, node).values
  {
    var query := new XmlArrayQuery(node);
    for i := 0 to |events|
      invariant query.State() == Collected(events[..i], node) && query.node == node
    {
      assert events[..i + 1][..i] == events[..i];
      match events[i]
      case Start(name) => query.ArrayStart(name);
      case End(name) => query.ArrayEnd(name);
      case Text(text) => query.ArrayText(text);
    }
    assert events[..|events|] == events;
    results := query.values;
  }

  // ---------------------------------------------------------------- one in terms of the other

  function Join(values: seq<string>): string {
    if values == [] then "" else Join(values[..|values| - 1]) + values[|values| - 1]
  }

  function Depth(events: seq<Event>, node: string): int {
    Searched(events, node).start
  }

  /** No element of this name is closed that was not open. */
  ghost predicate NeverNegative(events: seq<Event>, node: string) {
    forall k :: 0 <= k <= |events| ==> Depth(events[..k], node) >= 0
  }

  ghost predicate Balanced(events: seq<Event>, node: string) {
    NeverNegative(events, node) && Depth(events, node) == 0
  }

  lemma PrefixIsNeverNegative(events: seq<Event>, node: string)
    requires NeverNegative(events, node) && events != []
    ensures NeverNegative(events[..|events| - 1], node)
  {
    var front := events[..|events| - 1];
    forall k | 0 <= k <= |front|
      ensures Depth(front[..k], node) >= 0
    {
      assert front[..k] == events[..k];
    }
  }

  /** Both queries see the same depth and the same text, `xml_search_all` cut into values. */
  ghost predicate Agree(q: Query, a: ArrayQuery) {
    q.start == a.depth && q.memory == Join(a.values) + if a.depth > 0 then a.current else ""
  }

  lemma StepAgrees(q: Query, a: ArrayQuery, e: Event, node: string)
    requires Agree(q, a) && SearchStep(q, e, node).start >= 0
    ensures Agree(SearchStep(q, e, node), ArrayStep(a, e, node))
  {
    var after := ArrayStep(a, e, node);
    if e == End(node) && a.depth == 1 {
      assert after.values[..|after.values| - 1] == a.values;
    } else if e.Text? && a.depth > 0 {
      assert Join(a.values) + a.current + e.text == Join(a.values) + (a.current + e.text);
    }
  }

  lemma {:induction false} FoldsAgree(events: seq<Event>, node: string)
    requires NeverNegative(events, node)
    ensures Agree(Searched(events, node), Collected(events, node))
  {
    if events != [] {
      var front, e := events[..|events| - 1], events[|events| - 1];
      PrefixIsNeverNegative(events, node);
      FoldsAgree(front, node);
      assert events[..|events|] == events;
      StepAgrees(Searched(front, node), Collected(front, node), e, node);
    }
  }

  /** On every balanced stream `xml_search` yields the concatenation of what `xml_search_all` lists. */
  lemma SearchJoinsSearchAll(events: seq<Event>, node: string)
    requires Balanced(events, node)
    ensures Searched(events, node).memory == Join(Collected(events, node).values)
  {
    FoldsAgree(events, node);
  }

  // ---------------------------------------------------------------- how text is cut does not matter

  /** The same stream with text character by character. */
  function PerCharacter(events: seq<Event>): seq<Event> {
    if events == [] then []
    else
      var front, e := PerCharacter(events[..|events| - 1]), events[|events| - 1];
      if e.Text? then front + Characters(e.text) else front + [e]
  }

  function Characters(text: string): seq<Event> {
    if text == "" then [] else Characters(text[..|text| - 1]) + [Text([text[|text| - 1]])]
  }

  lemma TextsAddUp(q: Query, a: ArrayQuery, t: string, u: string, node: string)
    ensures SearchStep(SearchStep(q, Text(t), node), Text(u), node) == SearchStep(q, Text(t + u), node)
    ensures ArrayStep(ArrayStep(a, Text(t), node), Text(u), node) == ArrayStep(a, Text(t + u), node)
  {
    assert q.memory + t + u == q.memory + (t + u) && a.current + t + u == a.current + (t + u);
  }

  lemma {:induction false} CharactersAddUp(before: seq<Event>, text: string, node: string)
    ensures Searched(before + Characters(text), node) == SearchStep(Searched(before, node), Text(text), node)
    ensures Collected(before + Characters(text), node) == ArrayStep(Collected(before, node), Text(text), node)
    decreases |text|
  {
    if text == "" {
      assert before + Characters(text) == before;
      assert Searched(before, node).memory + "" == Searched(before, node).memory;
      assert Collected(before, node).current + "" == Collected(before, node).current;
    } else {
      var t, c := text[..|text| - 1], [text[|text| - 1]];
      var all := before + Characters(text);
      CharactersAddUp(before, t, node);
      assert all[..|all| - 1] == before + Characters(t) && all[|all| - 1] == Text(c);
      TextsAddUp(Searched(before, node), Collected(before, node), t, c, node);
      assert t + c == text;
    }
  }

  lemma {:induction false} CutsDoNotMatter(events: seq<Event>, node: string)
    ensures Searched(events, node) == Searched(PerCharacter(events), node)
    ensures Collected(events, node) == Collected(PerCharacter(events), node)
  {
    if events != [] {
      var front, e := events[..|events| - 1], events[|events| - 1];
      CutsDoNotMatter(front, node);
      if e.Text? {
        CharactersAddUp(PerCharacter(front), e.text, node);
      } else {
        assert (PerCharacter(front) + [e])[..|PerCharacter(front)|] == PerCharacter(front);
      }
    }
  }

  /** Streams that differ only in how their text is cut give the same results. */
  lemma ResultsIgnoreCuts(events: seq<Event>, others: seq<Event>, node: string)
    requires PerCharacter(events) == PerCharacter(others)
    ensures Searched(events, node) == Searched(others, node) && Collected(events, node) == Collected(others, node)
  {
    CutsDoNotMatter(events, node);
    CutsDoNotMatter(others, node);
  }

  // ---------------------------------------------------------------- documents

  datatype Xml = Element(name: string, children: seq<Xml>) | Chars(text: string)

  function EventsOf(xml: Xml): seq<Event> {
    match xml
    case Chars(text) => [Text(text)]
    case Element(name, children) => [Start(name)] + EventsOfAll(children) + [End(name)]
  }

  function EventsOfAll(forest: seq<Xml>): seq<Event> {
    if forest == [] then [] else EventsOf(forest[0]) + EventsOfAll(forest[1..])
  }

  function AllText(xml: Xml): string {
    match xml
    case Chars(text) => text
    case Element(_, children) => AllTextOf(children)
  }

  function AllTextOf(forest: seq<Xml>): string {
    if forest == [] then "" else AllText(forest[0]) + AllTextOf(forest[1..])
  }

  /** The text of every outermost element of this name, in document order. */
  function Outermost(forest: seq<Xml>, node: string): seq<string> {
    if forest == [] then []
    else
      var rest := Outermost(forest[1..], node);
      match forest[0]
      case Chars(_) => rest
      case Element(name, children) =>
        if name == node then [AllTextOf(children)] + rest else Outermost(children, node) + rest
  }

  /** What a fold makes of a stream that follows another. */
  function CollectedFrom(q: ArrayQuery, events: seq<Event>, node: string): ArrayQuery {
    if events == [] then q
    else ArrayStep(CollectedFrom(q, events[..|events| - 1], node), events[|events| - 1], node)
  }

  lemma {:induction false} CollectedInTwo(q: ArrayQuery, a: seq<Event>, b: seq<Event>, node: string)
    ensures CollectedFrom(q, a + b, node) == CollectedFrom(CollectedFrom(q, a, node), b, node)
    decreases |b|
  {
    if b == [] {
      assert a + b == a;
    } else {
      CollectedInTwo(q, a, b[..|b| - 1], node);
      assert (a + b)[..|a + b| - 1] == a + b[..|b| - 1];
    }
  }

  /** Inside an element of the name, a forest only adds its text. */
  lemma {:induction false} InsideCollectsText(q: ArrayQuery, forest: seq<Xml>, node: string)
    requires q.depth > 0
    ensures CollectedFrom(q, EventsOfAll(forest), node) == q.(current := q.current + AllTextOf(forest))
    decreases forest
  {
    if forest != [] {
      var x, rest := forest[0], forest[1..];
      var after := q.(current := q.current + AllText(x));
      assert CollectedFrom(q, EventsOf(x) + EventsOfAll(rest), node) ==
             CollectedFrom(after, EventsOfAll(rest), node) by {
        CollectedInTwo(q, EventsOf(x), EventsOfAll(rest), node);
        InsideCollectsOne(q, x, node);
      }
      InsideCollectsText(after, rest, node);
      assert q.current + AllText(x) + AllTextOf(rest) == q.current + (AllText(x) + AllTextOf(rest));
    }
  }

  lemma {:induction false} InsideCollectsOne(q: ArrayQuery, x: Xml, node: string)
    requires q.depth > 0
    ensures CollectedFrom(q, EventsOf(x), node) == q.(current := q.current + AllText(x))
    decreases x
  {
    match x
    case Chars(text) =>
      CollectedOne(q, Text(text), node);
    case Element(name, children) =>
      var within := ArrayStep(q, Start(name), node);
      CollectedInTwo(q, [Start(name)] + EventsOfAll(children), [End(name)], node);
      CollectedInTwo(q, [Start(name)], EventsOfAll(children), node);
      CollectedOne(q, Start(name), node);
      InsideCollectsText(within, children, node);
      CollectedOne(within.(current := within.current + AllTextOf(children)), End(name), node);
  }

  lemma CollectedOne(q: ArrayQuery, e: Event, node: string)
    ensures CollectedFrom(q, [e], node) == ArrayStep(q, e, node)
  {
    assert [e][..0] == [];
  }

  /** Outside, a forest adds its outermost elements; `current` is left over. */
  lemma {:induction false} OutsideCollectsElements(q: ArrayQuery, forest: seq<Xml>, node: string)
    requires q.depth == 0
    ensures
      var r := CollectedFrom(q, EventsOfAll(forest), node);
      r.depth == 0 && r.values == q.values + Outermost(forest, node)
    decreases forest
  {
    if forest != [] {
      var x, rest := forest[0], forest[1..];
      CollectedInTwo(q, EventsOf(x), EventsOfAll(rest), node);
      OutsideCollectsOne(q, x, node);
      OutsideCollectsElements(CollectedFrom(q, EventsOf(x), node), rest, node);
      assert forest == [x] + rest;
    }
  }

  lemma {:induction false} OutsideCollectsOne(q: ArrayQuery, x: Xml, node: string)
    requires q.depth == 0
    ensures
      var r := CollectedFrom(q, EventsOf(x), node);
      && r.depth == 0
      && r.values == q.values +
           if x.Chars? then [] else if x.name == node then [AllTextOf(x.children)] else Outermost(x.children, node)
    decreases x
  {
    match x
    case Chars(text) =>
      CollectedOne(q, Text(text), node);
    case Element(name, children) =>
      var within := ArrayStep(q, Start(name), node);
      CollectedInTwo(q, [Start(name)] + EventsOfAll(children), [End(name)], node);
      CollectedInTwo(q, [Start(name)], EventsOfAll(children), node);
      CollectedOne(q, Start(name), node);
      if name == node {
        InsideCollectsText(within, children, node);
        assert within.current + AllTextOf(children) == AllTextOf(children);
      } else {
        OutsideCollectsElements(within, children, node);
      }
      CollectedOne(CollectedFrom(within, EventsOfAll(children), node), End(name), node);
  }

  lemma {:induction false} CollectedFromStart(events: seq<Event>, node: string)
    ensures CollectedFrom(ArrayQuery(0, "", []), events, node) == Collected(events, node)
  {
    if events != [] {
      CollectedFromStart(events[..|events| - 1], node);
    }
  }

  /** On a document, `xml_search_all` lists the text of the outermost elements of the name. */
  lemma SearchAllFindsOutermost(forest: seq<Xml>, node: string)
    ensures Collected(EventsOfAll(forest), node).values == Outermost(forest, node)
  {
    CollectedFromStart(EventsOfAll(forest), node);
    OutsideCollectsElements(ArrayQuery(0, "", []), forest, node);
  }

  // ---------------------------------------------------------------- documents are balanced

  /** How far a stretch of events opens elements of the name. */
  function Opens(events: seq<Event>, node: string): int {
    if events == [] then 0
    else Opens(events[..|events| - 1], node) + Change(events[|events| - 1], node)
  }

  function Change(e: Event, node: string): int {
    if e == Start(node) then 1 else if e == End(node) then -1 else 0
  }

  lemma {:induction false} DepthIsOpens(events: seq<Event>, node: string)
    ensures Depth(events, node) == Opens(events, node)
  {
    if events != [] {
      DepthIsOpens(events[..|events| - 1], node);
    }
  }

  lemma {:induction false} OpensInTwo(a: seq<Event>, b: seq<Event>, node: string)
    ensures Opens(a + b, node) == Opens(a, node) + Opens(b, node)
    decreases |b|
  {
    if b == [] {
      assert a + b == a;
    } else {
      OpensInTwo(a, b[..|b| - 1], node);
      assert (a + b)[..|a + b| - 1] == a + b[..|b| - 1];
    }
  }

  /** A stretch that never closes more than it within, and closes all of it. */
  ghost predicate Nested(events: seq<Event>, node: string) {
    Opens(events, node) == 0 && forall k :: 0 <= k <= |events| ==> Opens(events[..k], node) >= 0
  }

  lemma NestedInTwo(a: seq<Event>, b: seq<Event>, node: string)
    requires Nested(a, node) && Nested(b, node)
    ensures Nested(a + b, node)
  {
    OpensInTwo(a, b, node);
    forall k | 0 <= k <= |a + b|
      ensures Opens((a + b)[..k], node) >= 0
    {
      if k <= |a| {
        assert (a + b)[..k] == a[..k];
      } else {
        assert (a + b)[..k] == a + b[..k - |a|];
        OpensInTwo(a, b[..k - |a|], node);
      }
    }
  }

  lemma NestedInElement(name: string, inner: seq<Event>, node: string)
    requires Nested(inner, node)
    ensures Nested([Start(name)] + inner + [End(name)], node)
  {
    var open, close := [Start(name)], [End(name)];
    var all := open + inner + close;
    OpensInTwo(open, inner, node);
    OpensInTwo(open + inner, close, node);
    assert open[..0] == [] && close[..0] == [];
    forall k | 0 <= k <= |all|
      ensures Opens(all[..k], node) >= 0
    {
      if k == 0 {
        assert all[..k] == [];
      } else if k < |all| {
        assert all[..k] == open + inner[..k - 1];
        OpensInTwo(open, inner[..k - 1], node);
      } else {
        assert all[..k] == all;
      }
    }
  }

  lemma {:induction false} DocumentsAreNested(forest: seq<Xml>, node: string)
    ensures Nested(EventsOfAll(forest), node)
    decreases forest
  {
    if forest != [] {
      DocumentIsNested(forest[0], node);
      DocumentsAreNested(forest[1..], node);
      NestedInTwo(EventsOf(forest[0]), EventsOfAll(forest[1..]), node);
    }
  }

  lemma {:induction false} DocumentIsNested(x: Xml, node: string)
    ensures Nested(EventsOf(x), node)
    decreases x
  {
    match x
    case Chars(text) =>
      assert [Text(text)][..0] == [] && [Text(text)][..1] == [Text(text)];
    case Element(name, children) =>
      DocumentsAreNested(children, node);
      NestedInElement(name, EventsOfAll(children), node);
  }

  /** On a document, `xml_search` yields all text that lies in an element of the name. */
  lemma SearchFindsOutermost(forest: seq<Xml>, node: string)
    ensures Balanced(EventsOfAll(forest), node)
    ensures Searched(EventsOfAll(forest), node).memory == Join(Outermost(forest, node))
  {
    var events := EventsOfAll(forest);
    DocumentsAreNested(forest, node);
    forall k | 0 <= k <= |events|
      ensures Depth(events[..k], node) >= 0
    {
      DepthIsOpens(events[..k], node);
    }
    DepthIsOpens(events, node);
    SearchJoinsSearchAll(events, node);
    SearchAllFindsOutermost(forest, node);
  }
}
