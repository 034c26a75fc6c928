/**
 * The side navigation bar: which menu item a route selects, the expansion
 * of items whose sub-pages are visited, the click handler (toggle and
 * navigate), and the admin-only filter. Icons and rendering are left out.
 */
module NavBar {
  import opened Base
  import opened Strings
  import opened Seqs

  datatype SubItem = SubItem(name: string, url: string)

  /** A menu item; `subItems` is absent for a plain link. */
  datatype NavItem = NavItem(name: string, url: string, adminOnly: bool, subItems: Option<seq<SubItem>>, expanded: bool)

  /** The item selected when no item matches the route. */
  const FALLBACK_SELECTION := "系统管理"

  /** The menu as configured: system management (admin only), customer acquisition with five pages, devices. */
  const MENU: seq<NavItem> := [
    NavItem("系统管理", "/manage", true, None, false),
    NavItem("智能获客", "/xhs", false, Some([
      SubItem("数据采集", "/xhs/collect"),
      SubItem("数据筛选", "/xhs/filter"),
      SubItem("数据分析", "/xhs/analyze"),
      SubItem("触达用户", "/xhs/templates"),
      SubItem("私信管理", "/xhs/generate")]), false),
    NavItem("设备管理", "/devices", false, None, false)
  ]

  /** The route with one trailing `/` removed. */
  function TrimSlash(path: string): (r: string)
    ensures |path| > 0 && path[|path| - 1] == '/' ==> r + "/" == path
    ensures !(|path| > 0 && path[|path| - 1] == '/') ==> r == path
  {
    if |path| > 0 && path[|path| - 1] == '/' then path[..|path| - 1] else path
  }

  /** Whether some sub-item's url satisfies `p`. */
  predicate SomeSub(item: NavItem, p: string -> bool)
  {
    item.subItems.Some? && exists k :: 0 <= k < |item.subItems.value| && p(item.subItems.value[k].url)
  }

  /**
   * An item matches the trimmed route when the route is its url, starts with
   * its url (except for `/dashboard`), or is one of its sub-item urls.
   */
  predicate Matches(item: NavItem, path: string)
  {
    path == item.url
    || (StartsWith(path, item.url) && item.url != "/dashboard")
    || SomeSub(item, (u: string) => u == path)
  }

  /** The name of the first matching item, or the fallback. */
  function SelectedFor(items: seq<NavItem>, path: string): (r: string)
    ensures (forall i :: 0 <= i < |items| ==> !Matches(items[i], TrimSlash(path))) ==> r == FALLBACK_SELECTION
  {
    var p := TrimSlash(path);
    match Find((item: NavItem) => Matches(item, p), items)
    case Some(item) => item.name
    case None => FALLBACK_SELECTION
  }

  /** When some item matches, the selection is the name of the first one that does. */
  lemma SelectedIsFirstMatch(items: seq<NavItem>, path: string)
    requires exists i :: 0 <= i < |items| && Matches(items[i], TrimSlash(path))
    ensures exists i :: (0 <= i < |items| && Matches(items[i], TrimSlash(path))
      && SelectedFor(items, path) == items[i].name
      && forall j :: 0 <= j < i ==> !Matches(items[j], TrimSlash(path)))
  {
    var p := TrimSlash(path);
    var keep := (item: NavItem) => Matches(item, p);
    var i :| 0 <= i < |items| && Matches(items[i], p);
    assert items[i] in items && keep(items[i]);
    FindIsFirst(keep, items);
  }

  /** A sub-page route, with or without its trailing slash, selects the item owning it. */
  lemma SubPageSelectsCustomerAcquisition(path: string)
    requires TrimSlash(path) == "/xhs/collect"
    ensures SelectedFor(MENU, path) == "智能获客"
  {
    var p := TrimSlash(path);
    assert !StartsWith(p, "/manage") by {
      assert p[1] != "/manage"[1];
    }
    assert StartsWith(p, "/xhs") by {
      assert p[..4] == "/xhs";
    }
    assert !Matches(MENU[0], p);
    assert Matches(MENU[1], p);
    SelectedIsFirstMatch(MENU, path);
  }

  /** A sub-item is visited when the raw route is its url or lies below it. */
  predicate ShouldExpand(item: NavItem, path: string)
  {
    SomeSub(item, (u: string) => path == u || StartsWith(path, u + "/"))
  }

  /** On a route change every item owning the visited page is expanded; nothing is collapsed. */
  function ExpandForRoute(items: seq<NavItem>, path: string): (r: seq<NavItem>)
    ensures |r| == |items|
    ensures forall i :: 0 <= i < |items| ==> r[i] == items[i].(expanded := r[i].expanded)
    ensures forall i :: 0 <= i < |items| ==> (r[i].expanded <==> items[i].expanded || ShouldExpand(items[i], path))
  {
    Map((item: NavItem) => if ShouldExpand(item, path) then item.(expanded := true) else item, items)
  }

  /** Visiting the same route twice expands nothing more. */
  lemma ExpandIdempotent(items: seq<NavItem>, path: string)
    ensures ExpandForRoute(ExpandForRoute(items, path), path) == ExpandForRoute(items, path)
  {
    var once := ExpandForRoute(items, path);
    var twice := ExpandForRoute(once, path);
    forall i | 0 <= i < |items| ensures twice[i] == once[i] {
      assert once[i].subItems == items[i].subItems;
      assert ShouldExpand(once[i], path) == ShouldExpand(items[i], path);
    }
  }

  /** What a click does: the new menu, the selected name, and the route navigated to, if any. */
  datatype ClickResult = ClickResult(items: seq<NavItem>, selected: string, navigate: Option<string>)

  predicate HasSubItems(item: NavItem)
  {
    item.subItems.Some? && |item.subItems.value| > 0
  }

  /**
   * Clicking an item selects it. An item with sub-items has its expansion
   * toggled (every item of that name) and navigates only when it was
   * collapsed; any other item just navigates.
   */
  function Click(items: seq<NavItem>, item: NavItem): (r: ClickResult)
    ensures r.selected == item.name
    ensures r.navigate == (if !HasSubItems(item) || !item.expanded then Some(item.url) else None)
    ensures |r.items| == |items|
    ensures !HasSubItems(item) ==> r.items == items
    ensures HasSubItems(item) ==> forall i :: 0 <= i < |items| ==>
      r.items[i] == (if items[i].name == item.name then items[i].(expanded := !items[i].expanded) else items[i])
  {
    if HasSubItems(item) then
      var toggled := Map((m: NavItem) => if m.name == item.name then m.(expanded := !m.expanded) else m, items);
      ClickResult(toggled, item.name, if !item.expanded then Some(item.url) else None)
    else
      ClickResult(items, item.name, Some(item.url))
  }

  /** Clicking an item with sub-items twice restores the menu, and exactly one of the two clicks navigates. */
  lemma ClickTwiceRestores(items: seq<NavItem>, i: nat)
    requires i < |items| && HasSubItems(items[i])
    ensures var first := Click(items, items[i]);
      var second := Click(first.items, first.items[i]);
      second.items == items && (first.navigate.Some? != second.navigate.Some?)
  {
    var first := Click(items, items[i]);
    var second := Click(first.items, first.items[i]);
    assert first.items[i].name == items[i].name;
    assert HasSubItems(first.items[i]);
    forall k | 0 <= k < |items| ensures second.items[k] == items[k] {
      assert first.items[k].name == items[k].name;
    }
  }

  /** The items shown: those not reserved for administrators, or all of them for an administrator. */
  function Visible(items: seq<NavItem>, isAdmin: bool): (r: seq<NavItem>)
    ensures IsSubseq(r, items)
    ensures forall x :: x in r <==> x in items && (!x.adminOnly || isAdmin)
    ensures forall x :: multiset(r)[x] == if !x.adminOnly || isAdmin then multiset(items)[x] else 0
  {
    var keep := (item: NavItem) => !item.adminOnly || (item.adminOnly && isAdmin);
    FilterMultiset(keep, items);
    Filter(keep, items)
  }

  /** An administrator sees the whole menu. */
  lemma AdminSeesAll(items: seq<NavItem>)
    ensures Visible(items, true) == items
  {
    FilterAll((item: NavItem) => !item.adminOnly || (item.adminOnly && true), items);
  }

  /** Other users see the menu without system management. */
  lemma UserMenu()
    ensures Visible(MENU, false) == MENU[1..]
  {
    var keep := (item: NavItem) => !item.adminOnly || (item.adminOnly && false);
    assert MENU == [MENU[0]] + MENU[1..];
    FilterAll(keep, MENU[1..]);
  }
}
