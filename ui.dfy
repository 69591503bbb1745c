/**
 * The view layer (src/lib/ui.js): which nodes the search and detail views
 * add and remove, and the loading-state bookkeeping around each fetch.
 *
 * A container element is a `Container` object whose direct children are a
 * sequence of `Dom.Node` values; `buttonDisabled` is the `disabled`
 * attribute of the submit button of the search form it holds. Each
 * `searchAndRender` / `renderDetails` call runs as one atomic sequence:
 * loading on, the fetch outcome (a parameter), loading off, append.
 */
module Ui {
  import opened Wrappers
  import opened Dom
  import Api

  const LoadingClass := "loading"
  const ResultsClass := "results"
  const BackClass := "back"

  /** The classes of the nodes a search replaces or clears. */
  const Transient: set<string> := {ResultsClass, BackClass, LoadingClass}

  /** The loading message `setLoading` appends. */
  function LoadingNode(): (n: Node)
    ensures ClassOf(n) == LoadingClass && TextOf(n) == "Sæki gögn..."
  {
    assert TextOfAll([Text("Sæki gögn...")]) == "Sæki gögn..." + TextOfAll([]);
    Elem("div", map["class" := LoadingClass], [Text("Sæki gögn...")])
  }

  /** The "back" link appended after every settled render. */
  function BackNode(): (n: Node)
    ensures ClassOf(n) == BackClass && TextOf(n) == "Til baka"
    ensures n.children[0].Elem? && n.children[0].tag == "a" && n.children[0].attrs == map["href" := "/"]
  {
    assert TextOfAll([Text("Til baka")]) == "Til baka" + TextOfAll([]);
    assert TextOfAll([Elem("a", map["href" := "/"], [Text("Til baka")])]) ==
      TextOf(Elem("a", map["href" := "/"], [Text("Til baka")])) + TextOfAll([]);
    Elem("div", map["class" := BackClass], [Elem("a", map["href" := "/"], [Text("Til baka")])])
  }

  /** A paragraph or heading with a class and text children. */
  function Para(tag: string, cls: string, texts: seq<string>): (n: Node)
    requires 1 <= |texts| <= 2
    ensures n.Elem? && n.tag == tag && ClassOf(n) == cls
    ensures TextOf(n) == if |texts| == 1 then texts[0] else texts[0] + texts[1]
  {
    var children := seq(|texts|, k requires 0 <= k < |texts| => Text(texts[k]));
    var rest := if |texts| == 1 then "" else texts[1];
    assert TextOfAll(children[1..]) == rest by {
      if |texts| == 2 {
        assert children[1..][0] == Text(texts[1]) && children[1..][1..] == [];
      } else {
        assert children[1..] == [];
      }
    }
    assert TextOfAll(children) == texts[0] + rest;
    assert TextOf(Elem(tag, map["class" := cls], children)) == TextOfAll(children);
    Elem(tag, map["class" := cls], children)
  }

  // ---------------------------------------------------------------------
  // Loading state
  // ---------------------------------------------------------------------

  /** The children after `setLoading`: a loading node is added only when none is found. */
  function WithLoading(nodes: seq<Node>): (r: seq<Node>)
    ensures Has(r, LoadingClass)
    ensures nodes <= r && |r| <= |nodes| + 1
  {
    if Has(nodes, LoadingClass) then nodes
    else
      var added := nodes + [LoadingNode()];
      assert ClassOf(added[|nodes|]) == LoadingClass;
      added
  }

  /** `setLoading` is idempotent. */
  lemma WithLoadingIdempotent(nodes: seq<Node>)
    ensures WithLoading(WithLoading(nodes)) == WithLoading(nodes)
  {
    if !Has(nodes, LoadingClass) {
      var n := nodes + [LoadingNode()];
      assert ClassOf(n[|nodes|]) == LoadingClass;
    }
  }

  /** After `setLoading` there is a loading node, and only one if there was at most one. */
  lemma WithLoadingCount(nodes: seq<Node>)
    requires Count(nodes, LoadingClass) <= 1
    ensures Count(WithLoading(nodes), LoadingClass) == 1
  {
    HasIffCount(nodes, LoadingClass);
    if !Has(nodes, LoadingClass) {
      CountAppend(nodes, [LoadingNode()], LoadingClass);
      assert [LoadingNode()][1..] == [];
    }
  }

  /**
   * `setLoading` followed by `setNotLoading` leaves the children as
   * `setNotLoading` alone would: the loading node it adds is the one removed.
   */
  lemma LoadingCycle(nodes: seq<Node>)
    ensures RemoveFirst(WithLoading(nodes), LoadingClass) == RemoveFirst(nodes, LoadingClass)
  {
    if !Has(nodes, LoadingClass) {
      var n := nodes + [LoadingNode()];
      assert IsFirst(n, LoadingClass, |nodes|);
      assert n[..|nodes|] == nodes && n[|nodes| + 1..] == [];
    }
  }

  /** A loading cycle on children with at most one loading node leaves none. */
  lemma LoadingCycleClears(nodes: seq<Node>)
    requires Count(nodes, LoadingClass) <= 1
    ensures RemoveFirst(WithLoading(nodes), LoadingClass) == FilterOut(nodes, {LoadingClass})
    ensures Count(RemoveFirst(WithLoading(nodes), LoadingClass), LoadingClass) == 0
  {
    LoadingCycle(nodes);
    RemoveFirstOnly(nodes, LoadingClass);
    CountFilterOut(nodes, {LoadingClass}, LoadingClass);
  }

  // ---------------------------------------------------------------------
  // Search results
  // ---------------------------------------------------------------------

  /** `${status}` in a template literal: the name, or "" for the empty array. */
  function StatusString(s: Api.StatusText): (r: string)
    ensures s.EmptyArray? ==> r == ""
    ensures s.Named? ==> r == s.name
  {
    match s
    case Named(name) => name
    case EmptyArray => ""
  }

  /** The list item for one search result. */
  function ResultItem(s: Api.LaunchSummary): (n: Node)
    ensures n.Elem? && n.tag == "li" && ClassOf(n) == "results_result"
    ensures |n.children| == 1 && n.children[0].Elem? && |n.children[0].children| == 3
    ensures var heading := n.children[0].children[0];
      heading.Elem? && ClassOf(heading) == "result_name" &&
      heading.children == [Elem("a", map["href" := "/?id=" + s.id], [Text(s.name)])]
    ensures var parts := n.children[0].children;
      parts[0].tag == "h3" &&
      ClassOf(parts[1]) == "result_status" && TextOf(parts[1]) == "🚀 " + StatusString(s.status) &&
      ClassOf(parts[2]) == "result_mission" && TextOf(parts[2]) == "Mission: " + s.mission
    ensures TextOf(n) == s.name + "🚀 " + StatusString(s.status) + "Mission: " + s.mission
  {
    var link := Elem("a", map["href" := "/?id=" + s.id], [Text(s.name)]);
    var heading := Elem("h3", map["class" := "result_name"], [link]);
    var status := Para("p", "result_status", ["🚀 " + StatusString(s.status)]);
    var mission := Para("p", "result_mission", ["Mission: " + s.mission]);
    var div := Elem("div", map["class" := "result"], [heading, status, mission]);
    TextOfOne(Text(s.name));
    TextOfOne(link);
    assert TextOf(heading) == s.name;
    TextOfThree(heading, status, mission);
    TextOfOne(div);
    assert TextOf(div) == s.name + ("🚀 " + StatusString(s.status)) + ("Mission: " + s.mission);
    Elem("li", map["class" := "results_result"], [div])
  }

  /** A list item holding only a message. */
  function MessageItem(message: string): (n: Node)
  {
    Elem("li", map[], [Text(message)])
  }

  /** The message for a failed search. */
  function ErrorMessage(query: string): string
  {
    "Villa við leit að " + query
  }

  /** The message for a search without results. */
  function NoResultsMessage(query: string): string
  {
    "Engar niðurstöður fyrir leit að " + query
  }

  /** The items `createSearchResults` puts in its list. */
  function ResultItems(results: Option<seq<Api.LaunchSummary>>, query: string): (r: seq<Node>)
    ensures |r| == if results.Some? && results.value != [] then |results.value| else 1
    ensures forall k :: 0 <= k < |r| ==> r[k].Elem? && r[k].tag == "li"
  {
    match results
    case None => [MessageItem(ErrorMessage(query))]
    case Some(rs) =>
      if rs == [] then [MessageItem(NoResultsMessage(query))]
      else seq(|rs|, k requires 0 <= k < |rs| => ResultItem(rs[k]))
  }

  /** The `ul.results` list `createSearchResults` returns. */
  function ResultsList(results: Option<seq<Api.LaunchSummary>>, query: string): (n: Node)
    ensures n.Elem? && n.tag == "ul" && ClassOf(n) == ResultsClass
    ensures |n.children| >= 1 && forall k :: 0 <= k < |n.children| ==> n.children[k].Elem? && n.children[k].tag == "li"
  {
    Elem("ul", map["class" := ResultsClass], ResultItems(results, query))
  }

  /** A failed search and an empty search are told apart, whatever the query. */
  lemma ErrorDiffersFromNoResults(query: string)
    ensures ResultsList(None, query) != ResultsList(Some([]), query)
  {
    assert ErrorMessage(query)[0] == 'V';
    assert NoResultsMessage(query)[0] == 'E';
    assert MessageItem(ErrorMessage(query)) != MessageItem(NoResultsMessage(query));
  }

  /**
   * `createSearchResults`: an error item for a failed search, a "no
   * results" item for an empty one, otherwise one item per result in order.
   */
  method CreateSearchResults(results: Option<seq<Api.LaunchSummary>>, query: string) returns (list: Node)
    ensures list.Elem? && list.tag == "ul" && ClassOf(list) == ResultsClass
    ensures results.None? ==> list.children == [MessageItem(ErrorMessage(query))]
    ensures results == Some([]) ==> list.children == [MessageItem(NoResultsMessage(query))]
    ensures results.Some? && results.value != [] ==>
      |list.children| == |results.value| &&
      forall k :: 0 <= k < |results.value| ==> list.children[k] == ResultItem(results.value[k])
    ensures list == ResultsList(results, query)
  {
    var items: seq<Node> := [];
    if results.None? {
      items := [MessageItem(ErrorMessage(query))];
    } else if |results.value| == 0 {
      items := [MessageItem(NoResultsMessage(query))];
    } else {
      var rs := results.value;
      for i := 0 to |rs|
        invariant |items| == i
        invariant forall k :: 0 <= k < i ==> items[k] == ResultItem(rs[k])
      {
        items := items + [ResultItem(rs[i])];
      }
      assert items == ResultItems(results, query);
    }
    list := Elem("ul", map["class" := ResultsClass], items);
  }

  /**
   * The children of `main` after `searchAndRender`: the first results list
   * and the first back node are removed, a loading cycle runs, then the new
   * list and a new back node are appended.
   */
  function ReplaceResults(nodes: seq<Node>, list: Node): (r: seq<Node>)
    ensures |r| >= 2 && r[|r| - 2] == list && r[|r| - 1] == BackNode()
  {
    var cleared := RemoveFirst(RemoveFirst(nodes, ResultsClass), BackClass);
    RemoveFirst(WithLoading(cleared), LoadingClass) + [list, BackNode()]
  }

  /** At most one results list, back node and loading node. */
  predicate WellFormed(nodes: seq<Node>)
  {
    Count(nodes, ResultsClass) <= 1 && Count(nodes, BackClass) <= 1 && Count(nodes, LoadingClass) <= 1
  }

  /**
   * On well-formed children, a search keeps every other node (heading,
   * form, ...) in order, drops the old results, back and loading nodes, and
   * ends with the new list followed by a new back node.
   */
  lemma {:induction false} ReplaceResultsShape(nodes: seq<Node>, list: Node)
    requires WellFormed(nodes)
    ensures ReplaceResults(nodes, list) == FilterOut(nodes, Transient) + [list, BackNode()]
  {
    var a := RemoveFirst(nodes, ResultsClass);
    RemoveFirstOnly(nodes, ResultsClass);
    CountFilterOut(nodes, {ResultsClass}, BackClass);
    CountFilterOut(nodes, {ResultsClass}, LoadingClass);
    var b := RemoveFirst(a, BackClass);
    RemoveFirstOnly(a, BackClass);
    FilterOutTwice(nodes, {ResultsClass}, {BackClass});
    CountFilterOut(nodes, {ResultsClass, BackClass}, LoadingClass);
    assert {ResultsClass} + {BackClass} == {ResultsClass, BackClass};
    LoadingCycleClears(b);
    FilterOutTwice(nodes, {ResultsClass, BackClass}, {LoadingClass});
    assert {ResultsClass, BackClass} + {LoadingClass} == Transient;
  }

  /**
   * After a search on well-formed children: no loading node, exactly one
   * results list and one back node, the list directly before the back node
   * at the end; so the children stay well-formed.
   */
  lemma SearchSettles(nodes: seq<Node>, list: Node)
    requires WellFormed(nodes) && ClassOf(list) == ResultsClass
    ensures var r := ReplaceResults(nodes, list);
      Count(r, LoadingClass) == 0 && Count(r, ResultsClass) == 1 && Count(r, BackClass) == 1 &&
      |r| >= 2 && r[|r| - 2] == list && r[|r| - 1] == BackNode() &&
      WellFormed(r)
  {
    ReplaceResultsShape(nodes, list);
    var kept := FilterOut(nodes, Transient);
    var tail := [list, BackNode()];
    assert ClassOf(BackNode()) == BackClass;
    assert tail[1..] == [BackNode()] && [BackNode()][1..] == [];
    assert Count(tail, ResultsClass) == 1 && Count(tail, BackClass) == 1 && Count(tail, LoadingClass) == 0;
    CountFilterOut(nodes, Transient, ResultsClass);
    CountFilterOut(nodes, Transient, BackClass);
    CountFilterOut(nodes, Transient, LoadingClass);
    CountAppend(kept, tail, ResultsClass);
    CountAppend(kept, tail, BackClass);
    CountAppend(kept, tail, LoadingClass);
  }

  // ---------------------------------------------------------------------
  // Detail view
  // ---------------------------------------------------------------------

  /** `renderDetails` reads `status.name` and `mission.name` without a guard. */
  predicate Renderable(d: Api.LaunchDetail)
  {
    d.status.Some? && d.mission.Some?
  }

  /**
   * A line of the launch window (`prefix` is "Gluggi opnast:   " for the
   * start, "Gluggi Lokast:   " for the end).
   */
  function WindowLine(cls: string, prefix: string, time: Option<string>): (n: Node)
    ensures ClassOf(n) == cls
    ensures TextOf(n) == if Api.Truthy(time) then prefix + time.value else "Not found."
  {
    if Api.Truthy(time) then Para("p", cls, [prefix, time.value])
    else Para("p", cls, ["Not found."])
  }

  /** The status or mission heading (`prefix` is "Staða: " or "Geimferð: "). */
  function NameHeading(cls: string, prefix: string, name: Option<string>): (n: Node)
    ensures ClassOf(n) == cls
    ensures TextOf(n) == prefix + if Api.Truthy(name) then name.value else "Not found"
  {
    if Api.Truthy(name) then Para("h3", cls, [prefix, name.value])
    else Para("h3", cls, [prefix + "Not found"])
  }

  /** The paragraph for a status or mission description. */
  function DescriptionLine(cls: string, description: Option<string>): (n: Node)
    ensures ClassOf(n) == cls
    ensures TextOf(n) == if Api.Truthy(description) then description.value else "Engin lýsing fannst"
  {
    if Api.Truthy(description) then Para("p", cls, [description.value])
    else Para("p", cls, ["Engin lýsing fannst"])
  }

  /** The launch image, or a placeholder paragraph. */
  function ImageNode(image: Option<string>): (n: Node)
    ensures Api.Truthy(image) ==> n == Elem("img", map["src" := image.value], [])
    ensures !Api.Truthy(image) ==> ClassOf(n) == "noImg" && TextOf(n) == "Staða: Not found"
  {
    if Api.Truthy(image) then Elem("img", map["src" := image.value], [])
    else Para("p", "noImg", ["Staða: Not found"])
  }

  /** The `main` element `renderDetails` fills for a launch. */
  function DetailView(d: Api.LaunchDetail): (n: Node)
    requires Renderable(d)
    ensures n.Elem? && n.tag == "main" && |n.children| == 7
    ensures ClassOf(n.children[0]) == "launch" && ClassOf(n.children[1]) == "timehead" &&
      ClassOf(n.children[2]) == "timelist" && ClassOf(n.children[3]) == "allStatus" &&
      ClassOf(n.children[4]) == "allMiss" && n.children[6] == BackNode()
  {
    Elem("main", map[], [
      Elem("div", map["class" := "launch"], [
        Elem("h2", map["class" := "launchTitle"], if d.name.Some? then [Text(d.name.value)] else [])]),
      Para("h3", "timehead", ["Skot gluggi"]),
      Elem("ul", map["class" := "timelist"], [
        WindowLine("gluggO", "Gluggi opnast:   ", d.windowStart),
        WindowLine("gluggL", "Gluggi Lokast:   ", d.windowEnd)]),
      Elem("div", map["class" := "allStatus"], [
        NameHeading("status", "Staða: ", d.status.value.name),
        DescriptionLine("status", d.status.value.description)]),
      Elem("div", map["class" := "allMiss"], [
        NameHeading("missName", "Geimferð: ", d.mission.value.name),
        DescriptionLine("missDes", d.mission.value.description)]),
      ImageNode(d.image),
      BackNode()])
  }

  /** The error paragraph for a launch that could not be fetched. */
  function NotFoundParagraph(id: string): (n: Node)
    ensures n.Elem? && n.tag == "p" && ClassOf(n) == "error"
    ensures TextOf(n) == "Úps, einhvað fór úrskeiðis. Ekkert skot fannst með þessu id: " + id
  {
    Para("p", "error", ["Úps, einhvað fór úrskeiðis. Ekkert skot fannst með þessu id: " + id])
  }

  /** What `renderDetails` appends once the fetch has settled. */
  function DetailNodes(result: Option<Api.LaunchDetail>, id: string): (r: seq<Node>)
    requires result.Some? ==> Renderable(result.value)
    ensures result.None? ==> |r| == 2 && ClassOf(r[0]) == "error" && r[1] == BackNode()
    ensures result.Some? ==> |r| == 1 && r[0].Elem? && r[0].tag == "main"
    ensures result.Some? ==> r == [DetailView(result.value)]
  {
    match result
    case None => [NotFoundParagraph(id), BackNode()]
    case Some(d) => [DetailView(d)]
  }

  /**
   * A launch that could not be fetched gets only an error paragraph naming
   * the id, followed by the back node: no launch content.
   */
  lemma NotFoundShape(id: string)
    ensures var ns := DetailNodes(None, id);
      |ns| == 2 && ClassOf(ns[0]) == "error" && ns[1] == BackNode() &&
      TextOf(ns[0]) == "Úps, einhvað fór úrskeiðis. Ekkert skot fannst með þessu id: " + id &&
      forall k :: 0 <= k < |ns| ==> !(ns[k].Elem? && ns[k].tag == "main")
  {
    var ns := DetailNodes(None, id);
    assert ClassOf(ns[0]) == "error" && ClassOf(ns[1]) == BackClass;
    var p := NotFoundParagraph(id);
    assert p.children[0] == Text("Úps, einhvað fór úrskeiðis. Ekkert skot fannst með þessu id: " + id);
    assert p.children[1..] == [];
  }

  /**
   * A fetched launch gets one `main` element: the title block first, the
   * window, status, mission and image sections, and the back node last.
   */
  lemma DetailViewShape(d: Api.LaunchDetail)
    requires Renderable(d)
    ensures var n := DetailView(d);
      n.tag == "main" && |n.children| == 7 && ClassOf(n.children[0]) == "launch" &&
      n.children[0].children == [
        Elem("h2", map["class" := "launchTitle"], if d.name.Some? then [Text(d.name.value)] else [])] &&
      n.children[1] == Para("h3", "timehead", ["Skot gluggi"]) &&
      n.children[3].children == [
        NameHeading("status", "Staða: ", d.status.value.name),
        DescriptionLine("status", d.status.value.description)] &&
      n.children[4].children == [
        NameHeading("missName", "Geimferð: ", d.mission.value.name),
        DescriptionLine("missDes", d.mission.value.description)] &&
      n.children[6] == BackNode() &&
      n.children[2].children == [
        WindowLine("gluggO", "Gluggi opnast:   ", d.windowStart),
        WindowLine("gluggL", "Gluggi Lokast:   ", d.windowEnd)] &&
      n.children[5] == ImageNode(d.image)
  {
  }

  /**
   * The detail view settles: whatever the outcome, the loading node
   * `renderDetails` added is gone and the earlier children are kept in order.
   */
  lemma DetailsSettle(nodes: seq<Node>, result: Option<Api.LaunchDetail>, id: string)
    requires Count(nodes, LoadingClass) <= 1
    requires result.Some? ==> Renderable(result.value)
    ensures var r := RemoveFirst(WithLoading(nodes), LoadingClass) + DetailNodes(result, id);
      r == FilterOut(nodes, {LoadingClass}) + DetailNodes(result, id) &&
      Count(r, LoadingClass) == 0
  {
    LoadingCycleClears(nodes);
    var tail := DetailNodes(result, id);
    CountAppend(FilterOut(nodes, {LoadingClass}), tail, LoadingClass);
    if result.None? {
      assert tail[1..] == [BackNode()] && [BackNode()][1..] == [];
    } else {
      assert tail[1..] == [];
    }
  }

  // ---------------------------------------------------------------------
  // Containers and the two render procedures
  // ---------------------------------------------------------------------

  class Container {
    var children: seq<Node>
    var buttonDisabled: bool

    constructor (children: seq<Node>)
      ensures this.children == children && !buttonDisabled
    {
      this.children := children;
      buttonDisabled := false;
    }

    /** `parentElement.appendChild(node)`. */
    method Append(node: Node)
      modifies this
      ensures children == old(children) + [node]
      ensures buttonDisabled == old(buttonDisabled)
    {
      children := children + [node];
    }

    /** `querySelector('.cls')` and, when something is found, `remove()`. */
    method RemoveFirstOf(cls: string)
      modifies this
      ensures children == RemoveFirst(old(children), cls)
      ensures buttonDisabled == old(buttonDisabled)
    {
      children := RemoveFirst(children, cls);
    }

    /**
     * `setLoading`: add a loading node unless one is found; with a search
     * form, disable its button.
     */
    method SetLoading(hasForm: bool)
      modifies this
      ensures children == WithLoading(old(children))
      ensures buttonDisabled == (hasForm || old(buttonDisabled))
    {
      if !Has(children, LoadingClass) {
        Append(LoadingNode());
      }
      if hasForm {
        buttonDisabled := true;
      }
    }

    /**
     * `setNotLoading`: remove the loading node found; with a search form,
     * re-enable its button.
     */
    method SetNotLoading(hasForm: bool)
      modifies this
      ensures children == RemoveFirst(old(children), LoadingClass)
      ensures buttonDisabled == (old(buttonDisabled) && !hasForm)
    {
      RemoveFirstOf(LoadingClass);
      if hasForm {
        buttonDisabled := false;
      }
    }

    /**
     * `renderDetails` on this (parent) element for the launch `id`, given
     * what the fetch answered. The button is untouched: no form is passed.
     */
    method RenderDetails(outcome: Option<Api.LaunchPayload>, id: string)
      requires Api.GetLaunch(outcome).Some? ==> Renderable(Api.GetLaunch(outcome).value)
      modifies this
      ensures children ==
        RemoveFirst(WithLoading(old(children)), LoadingClass) + DetailNodes(Api.GetLaunch(outcome), id)
      ensures buttonDisabled == old(buttonDisabled)
    {
      SetLoading(false);
      var result := Api.GetLaunch(outcome);
      SetNotLoading(false);
      match result {
        case None =>
          Append(NotFoundParagraph(id));
          Append(BackNode());
        case Some(d) =>
          Append(DetailView(d));
      }
    }
  }

  /**
   * `searchAndRender` for `query`, given what the fetch answered; `main` is
   * what `querySelector('main')` found, `null` when nothing was found (and
   * then nothing changes). The search form is always passed.
   */
  method SearchAndRender(main: Container?, outcome: Option<Api.SearchPayload>, query: string)
    requires Api.SearchWellFormed(outcome)
    modifies main
    ensures main != null ==>
      main.children == ReplaceResults(old(main.children), ResultsList(Api.SearchLaunches(outcome), query))
    ensures main != null ==> !main.buttonDisabled
  {
    if main == null {
      return;
    }
    main.RemoveFirstOf(ResultsClass);
    main.RemoveFirstOf(BackClass);
    main.SetLoading(true);
    var results := Api.SearchLaunches(outcome);
    main.SetNotLoading(true);
    var list := CreateSearchResults(results, query);
    main.Append(list);
    main.Append(BackNode());
  }
}
