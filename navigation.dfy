/** Tab navigation: the `.nav-item` elements with their `data-view` attribute
    and `active` class, the `.view-container` elements with their id and
    `hidden` class, and the page title. */
module Navigation {
  import opened Options

  datatype NavItem = NavItem(view: Option<string>, active: bool)

  datatype ViewContainer = ViewContainer(id: string, hidden: bool)

  /** The view name a nav item names: a missing `data-view` attribute is
      `null`, which a template literal turns into the text `null`. */
  function ViewName(item: NavItem): (name: string)
    ensures item.view.Some? ==> name == item.view.value
    ensures item.view.None? ==> name == "null"
  {
    item.view.GetOr("null")
  }

  /** The title table of the click handler. */
  const Titles: map<string, string> := map[
    "overview" := "Dashboard Overview",
    "analytics" := "Analytics",
    "data" := "Data View",
    "settings" := "Settings"]

  /** `titles[viewName] || 'Dashboard'`: the table's entry, or `Dashboard` for
      any view the table does not name. */
  function TitleFor(view: string): (title: string)
    ensures view in Titles ==> title == Titles[view]
    ensures title == "Dashboard" <==> view !in Titles
  {
    if view in Titles && Titles[view] != "" then Titles[view] else "Dashboard"
  }

  /** How many of the flags are set. */
  function CountTrue(flags: seq<bool>): nat {
    if flags == [] then 0
    else CountTrue(flags[..|flags| - 1]) + (if flags[|flags| - 1] then 1 else 0)
  }

  lemma {:induction false} CountTrueNone(flags: seq<bool>)
    requires forall j :: 0 <= j < |flags| ==> !flags[j]
    ensures CountTrue(flags) == 0
  {
    if flags != [] {
      var front := flags[..|flags| - 1];
      assert forall j :: 0 <= j < |front| ==> front[j] == flags[j];
      CountTrueNone(front);
    }
  }

  /** Exactly one flag set at `i` counts as one. */
  lemma {:induction false} CountTrueOne(flags: seq<bool>, i: nat)
    requires i < |flags|
    requires forall j :: 0 <= j < |flags| ==> (flags[j] <==> j == i)
    ensures CountTrue(flags) == 1
  {
    var front := flags[..|flags| - 1];
    assert forall j :: 0 <= j < |front| ==> front[j] == flags[j];
    if i == |flags| - 1 {
      CountTrueNone(front);
    } else {
      CountTrueOne(front, i);
    }
  }

  function ActiveFlags(items: seq<NavItem>): seq<bool> {
    seq(|items|, j requires 0 <= j < |items| => items[j].active)
  }

  function VisibleFlags(views: seq<ViewContainer>): seq<bool> {
    seq(|views|, j requires 0 <= j < |views| => !views[j].hidden)
  }

  /** The nav items after a click on item `i`: every `active` class removed,
      then added back to item `i`. */
  function Selected(items: seq<NavItem>, i: nat): (r: seq<NavItem>)
    requires i < |items|
    ensures |r| == |items|
    ensures forall j :: 0 <= j < |items| ==> r[j].view == items[j].view
    ensures forall j :: 0 <= j < |items| ==> (r[j].active <==> j == i)
    ensures CountTrue(ActiveFlags(r)) == 1
    ensures r[i].active
  {
    var r := seq(|items|, j requires 0 <= j < |items| => items[j].(active := j == i));
    CountTrueOne(ActiveFlags(r), i);
    r
  }

  /** Clicking the active item again changes nothing. */
  lemma SelectedIdempotent(items: seq<NavItem>, i: nat)
    requires i < |items|
    ensures Selected(Selected(items, i), i) == Selected(items, i)
  {
  }

  /** `document.getElementById(id)` among the view containers: the position of
      the first one with that id, or `|views|` when there is none. */
  function FirstWithId(views: seq<ViewContainer>, id: string): (k: nat)
    ensures k <= |views|
    ensures forall j :: 0 <= j < k ==> views[j].id != id
    ensures k < |views| ==> views[k].id == id
  {
    if views == [] || views[0].id == id then 0 else 1 + FirstWithId(views[1..], id)
  }

  /** The lookup depends on the ids only, not on which views are hidden. */
  lemma {:induction false} FirstWithIdSameIds(a: seq<ViewContainer>, b: seq<ViewContainer>, id: string)
    requires |a| == |b| && forall j :: 0 <= j < |a| ==> a[j].id == b[j].id
    ensures FirstWithId(a, id) == FirstWithId(b, id)
  {
    if a != [] && a[0].id != id {
      FirstWithIdSameIds(a[1..], b[1..], id);
    }
  }

  /** The view containers after a click naming `id`: all hidden, then the
      first container with that id (if any) shown again. */
  function Shown(views: seq<ViewContainer>, id: string): (r: seq<ViewContainer>)
    ensures |r| == |views|
    ensures forall j :: 0 <= j < |views| ==> r[j].id == views[j].id
    ensures forall j :: 0 <= j < |views| ==> (r[j].hidden <==> j != FirstWithId(views, id))
    ensures FirstWithId(views, id) < |views| ==>
      CountTrue(VisibleFlags(r)) == 1 && !r[FirstWithId(views, id)].hidden
    ensures FirstWithId(views, id) == |views| ==> CountTrue(VisibleFlags(r)) == 0
  {
    var k := FirstWithId(views, id);
    var r := seq(|views|, j requires 0 <= j < |views| => views[j].(hidden := j != k));
    if k < |views| then
      CountTrueOne(VisibleFlags(r), k);
      r
    else
      CountTrueNone(VisibleFlags(r));
      r
  }

  /** The one view left visible is a container with the clicked id. */
  lemma ShownViewHasId(views: seq<ViewContainer>, id: string, j: nat)
    requires j < |views| && !Shown(views, id)[j].hidden
    ensures views[j].id == id && j == FirstWithId(views, id)
  {
  }

  /** Selecting the same view again changes nothing. */
  lemma ShownIdempotent(views: seq<ViewContainer>, id: string)
    ensures Shown(Shown(views, id), id) == Shown(views, id)
  {
    FirstWithIdSameIds(Shown(views, id), views, id);
  }

  lemma TitleExamples()
    ensures TitleFor("overview") == "Dashboard Overview"
    ensures TitleFor("data") == "Data View"
    ensures TitleFor("reports") == "Dashboard"
  {
  }
}
