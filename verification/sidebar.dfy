/**
  The navigation sidebar: which menus are expanded, the auto-expansion of
  the Media menu on its child routes, and which link is marked active.
 */
module Sidebar {
  import opened JsStrings

  /** `expandedMenus`: a missing entry reads as `undefined`, i.e. collapsed. */
  type Menus = map<string, bool>

  const Media := "media"

  const Initial: Menus := map[Media := false]

  predicate Expanded(m: Menus, menu: string) {
    menu in m && m[menu]
  }

  /** Routes under which the Media menu opens by itself. */
  predicate MediaRoute(path: string) {
    StartsWith(path, "/news") || StartsWith(path, "/events") || StartsWith(path, "/gallery")
  }

  /** The effect on a new path: open Media on its child routes, otherwise leave everything. */
  function AutoExpand(m: Menus, path: string): (m': Menus)
    ensures MediaRoute(path) ==> Expanded(m', Media)
    ensures forall menu :: Expanded(m, menu) ==> Expanded(m', menu)
    ensures forall menu :: menu != Media ==> (menu in m' <==> menu in m) && (menu in m ==> m'[menu] == m[menu])
    ensures !MediaRoute(path) ==> m' == m
  {
    if MediaRoute(path) then m[Media := true] else m
  }

  /** Following further routes never closes a menu and re-running the effect changes nothing. */
  lemma AutoExpandNeverCollapses(m: Menus, p1: string, p2: string)
    ensures AutoExpand(AutoExpand(m, p1), p1) == AutoExpand(m, p1)
    ensures Expanded(AutoExpand(m, p1), Media) ==> Expanded(AutoExpand(AutoExpand(m, p1), p2), Media)
  {
  }

  /** `toggleMenu(menu)`: flips the named entry (a missing one becomes `true`) and nothing else. */
  function ToggleMenu(m: Menus, menu: string): (m': Menus)
    ensures Expanded(m', menu) <==> !Expanded(m, menu)
    ensures menu in m'
    ensures forall k :: k != menu ==> (k in m' <==> k in m) && (k in m ==> m'[k] == m[k])
  {
    m[menu := !Expanded(m, menu)]
  }

  /** Toggling twice restores the menu's state (a missing entry comes back as explicitly collapsed). */
  lemma ToggleTwice(m: Menus, menu: string)
    ensures Expanded(ToggleMenu(ToggleMenu(m, menu), menu), menu) == Expanded(m, menu)
    ensures menu in m ==> ToggleMenu(ToggleMenu(m, menu), menu) == m
  {
  }

  // ---------------------------------------------------------------------
  // Links
  // ---------------------------------------------------------------------

  const TopLinks: seq<string> := ["/dashboard", "/researches", "/projects", "/publications", "/services", "/staffmanagement"]
  const MediaLinks: seq<string> := ["/news", "/events", "/gallery"]

  /** A rendered link and whether it carries the "active" class. */
  datatype Item = Item(link: string, active: bool)

  function Mark(links: seq<string>, path: string): (items: seq<Item>)
    ensures |items| == |links|
    ensures forall i :: 0 <= i < |links| ==> items[i] == Item(links[i], links[i] == path)
  {
    seq(|links|, i requires 0 <= i < |links| => Item(links[i], links[i] == path))
  }

  /** The links in page order: Dashboard, the Media children while Media is expanded, then the rest. */
  function Names(m: Menus): seq<string> {
    if Expanded(m, Media) then [TopLinks[0]] + MediaLinks + TopLinks[1..] else TopLinks
  }

  predicate Distinct(xs: seq<string>) {
    forall i, j :: 0 <= i < j < |xs| ==> xs[i] != xs[j]
  }

  lemma NamesDistinct(m: Menus)
    ensures Distinct(Names(m))
  {
    if Expanded(m, Media) {
      assert Names(m) == AllLinks;
      AllLinksDistinct();
    } else {
      TopLinksDistinct();
    }
  }

  const AllLinks: seq<string> := [TopLinks[0]] + MediaLinks + TopLinks[1..]

  lemma TopLinksDistinct()
    ensures Distinct(TopLinks)
  {
  }

  lemma AllLinksDistinct()
    ensures Distinct(AllLinks)
  {
    assert AllLinks == ["/dashboard", "/news", "/events", "/gallery", "/researches", "/projects", "/publications", "/services", "/staffmanagement"];
  }

  /**
    The links rendered for `path`: Dashboard, then the Media children only
    while Media is expanded, then the remaining top-level links. A link is
    active exactly when the path equals it.
   */
  function Links(m: Menus, path: string): (items: seq<Item>)
    ensures |items| == |Names(m)| && forall i :: 0 <= i < |items| ==> items[i] == Item(Names(m)[i], Names(m)[i] == path)
  {
    Mark(Names(m), path)
  }

  /** The Media children are rendered exactly while Media is expanded; the top-level links always are. */
  lemma SubmenuShownIffExpanded(m: Menus, path: string, l: string)
    ensures l in MediaLinks ==> (Item(l, l == path) in Links(m, path) <==> Expanded(m, Media))
    ensures l in TopLinks ==> Item(l, l == path) in Links(m, path)
  {
    var items := Links(m, path);
    if l in TopLinks {
      var i :| 0 <= i < |TopLinks| && TopLinks[i] == l;
      if Expanded(m, Media) {
        var k := if i == 0 then 0 else i + 3;
        assert Names(m)[k] == l;
        assert items[k] == Item(l, l == path);
      } else {
        assert items[i] == Item(l, l == path);
      }
    }
    if l in MediaLinks {
      var i :| 0 <= i < 3 && MediaLinks[i] == l;
      if Expanded(m, Media) {
        assert items[i + 1] == Item(l, l == path);
      } else {
        assert forall k :: 0 <= k < |items| ==> items[k].link in TopLinks;
      }
    }
  }

  /** At most one rendered link is active, since the links are distinct. */
  lemma AtMostOneActive(m: Menus, path: string, i: int, j: int)
    requires 0 <= i < |Links(m, path)| && 0 <= j < |Links(m, path)|
    requires Links(m, path)[i].active && Links(m, path)[j].active
    ensures i == j
  {
    NamesDistinct(m);
  }

  /** Arriving on a Media child route shows that route's link, marked active. */
  lemma ChildRouteShown(m: Menus, path: string)
    requires path in MediaLinks
    ensures Item(path, true) in Links(AutoExpand(m, path), path)
  {
    assert StartsWith(path, path);
    SubmenuShownIffExpanded(AutoExpand(m, path), path, path);
  }
}
