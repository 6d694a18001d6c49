/** The state logic of `components/shared/navbar.tsx`: which navigation
    item is active for the current path, the click handler that activates
    an item at once, and the map of item elements kept for the slider. */
module Navbar {
  import opened Wrappers
  import opened Strings
  import opened Seqs
  import opened Navigation

  /** `pathname || '/'`: an absent or empty pathname is the root. */
  function CurrentPath(pathname: Option<string>): (path: string)
    ensures path != ""
    ensures pathname.Some? && pathname.value != "" ==> path == pathname.value
    ensures pathname.None? || pathname.value == "" ==> path == RootHref
  {
    match pathname
    case Some(p) => if p == "" then RootHref else p
    case None => RootHref
  }

  /** The root item matches only "/" itself; any other item matches its
      href and every path below it. */
  function ItemMatches(item: NavigationItem, path: string): (matches: bool)
    ensures matches ==> StartsWith(path, item.href)
    ensures matches && |path| > |item.href| ==> item.href != RootHref && path[|item.href|] == '/'
    ensures matches <==> StartsWith(path, item.href) &&
                         (|path| == |item.href| || (item.href != RootHref && path[|item.href|] == '/'))
  {
    assert StartsWith(path, item.href) && |path| > |item.href| && path[|item.href|] == '/' ==>
           path[..|item.href + "/"|] == item.href + "/";
    if item.href == RootHref then path == RootHref
    else path == item.href || StartsWith(path, item.href + "/")
  }

  /** The first item of the table that matches the path. */
  function MatchingItem(path: string): (found: Option<NavigationItem>)
    ensures found.Some? ==> found.value in NavigationItems && ItemMatches(found.value, path)
    ensures found.None? <==> forall i :: 0 <= i < |NavigationItems| ==> !ItemMatches(NavigationItems[i], path)
  {
    Find(NavigationItems, item => ItemMatches(item, path))
  }

  /** The id the navbar marks active for a pathname: the matching item's,
      or "home" when none matches. */
  function ActiveNavFor(pathname: Option<string>): (id: string)
    ensures IsNavigationId(id)
  {
    match MatchingItem(CurrentPath(pathname))
    case Some(item) => item.id
    case None => HomeId
  }

  /** The only index a path can be matched at: the root for "/", otherwise
      the item whose href shares the path's second character. */
  function CandidateIndex(path: string): nat {
    if path == RootHref then 0
    else if |path| >= 2 && path[1] == NavigationItems[1].href[1] then 1
    else 2
  }

  lemma MatchIsCandidate(path: string, k: nat)
    requires k < |NavigationItems|
    ensures ItemMatches(NavigationItems[k], path) ==> CandidateIndex(path) == k
  {
    if ItemMatches(NavigationItems[k], path) && k != 0 {
      var h := NavigationItems[k].href;
      if path != h {
        assert path[..|h + "/"|] == h + "/";
        assert path[1] == (h + "/")[1];
      }
    }
  }

  /** No path is matched by two items of the table. */
  lemma AtMostOneMatch(path: string, i: nat, j: nat)
    requires i < |NavigationItems| && j < |NavigationItems|
    requires ItemMatches(NavigationItems[i], path) && ItemMatches(NavigationItems[j], path)
    ensures i == j
  {
    MatchIsCandidate(path, i);
    MatchIsCandidate(path, j);
  }

  /** The active id is that of the one item matching the path, or "home"
      when no item matches. */
  lemma ActiveNavIsTheMatch(pathname: Option<string>)
    ensures var path := CurrentPath(pathname);
      && (forall i :: 0 <= i < |NavigationItems| && ItemMatches(NavigationItems[i], path) ==>
            ActiveNavFor(pathname) == NavigationItems[i].id)
      && ((forall i :: 0 <= i < |NavigationItems| ==> !ItemMatches(NavigationItems[i], path)) ==>
            ActiveNavFor(pathname) == HomeId)
  {
    var path := CurrentPath(pathname);
    forall i | 0 <= i < |NavigationItems| && ItemMatches(NavigationItems[i], path)
      ensures ActiveNavFor(pathname) == NavigationItems[i].id
    {
      forall j, k | 0 <= j < |NavigationItems| && 0 <= k < |NavigationItems| &&
                    ItemMatches(NavigationItems[j], path) && ItemMatches(NavigationItems[k], path)
        ensures j == k
      {
        AtMostOneMatch(path, j, k);
      }
      FindUnique(NavigationItems, item => ItemMatches(item, path), i);
    }
  }

  /** The root item matches exactly the path "/", and an absent or empty
      pathname counts as "/". */
  lemma RootMatchesOnlySlash(path: string)
    ensures ItemMatches(NavigationItems[0], path) <==> path == "/"
    ensures ActiveNavFor(None) == HomeId && ActiveNavFor(Some("")) == HomeId
  {
    assert ItemMatches(NavigationItems[0], "/");
    FindUnique(NavigationItems, item => ItemMatches(item, "/"), 0) by {
      forall j, k | 0 <= j < |NavigationItems| && 0 <= k < |NavigationItems| &&
                    ItemMatches(NavigationItems[j], "/") && ItemMatches(NavigationItems[k], "/")
        ensures j == k
      {
        AtMostOneMatch("/", j, k);
      }
    }
  }

  /** Every non-root item is active on its own href and on every path below
      it. */
  lemma HrefAndSubPathsActivateItem(k: nat, rest: string)
    requires 0 < k < |NavigationItems|
    ensures ActiveNavFor(Some(NavigationItems[k].href)) == NavigationItems[k].id
    ensures ActiveNavFor(Some(NavigationItems[k].href + "/" + rest)) == NavigationItems[k].id
  {
    var href := NavigationItems[k].href;
    var sub := href + "/" + rest;
    assert ItemMatches(NavigationItems[k], href);
    assert sub[..|href + "/"|] == href + "/";
    assert ItemMatches(NavigationItems[k], sub);
    ActiveNavIsTheMatch(Some(href));
    ActiveNavIsTheMatch(Some(sub));
  }

  /** Sub-paths match at a slash boundary only: "/upload/x" selects the
      upload item, "/uploads" does not. */
  lemma SubPathBoundary()
    ensures ItemMatches(NavigationItems[1], "/upload")
    ensures ItemMatches(NavigationItems[1], "/upload/report.pdf")
    ensures !ItemMatches(NavigationItems[1], "/uploads")
    ensures ActiveNavFor(Some("/uploads")) == HomeId
  {
    var sub := "/upload/report.pdf";
    assert sub[..|"/upload/"|] == "/upload/";
    var path := "/uploads";
    assert path[7] != "/upload/"[7];
    assert path[1] != NavigationItems[2].href[1];
    assert forall i :: 0 <= i < |NavigationItems| ==> !ItemMatches(NavigationItems[i], path);
  }

  /** An element of the page, identified by reference. */
  type ElementRef = nat

  /** The navbar's state: the active item id, and the element each item
      registered through its `ref` callback. */
  class Navbar {
    var activeNav: string
    var navItemsRef: map<string, Option<ElementRef>>

    /** The active id is always one of the table's ids. */
    ghost predicate Valid()
      reads this
    {
      IsNavigationId(activeNav)
    }

    /** `useState('home')` and an empty `useRef({})`. */
    constructor ()
      ensures Valid() && activeNav == HomeId && navItemsRef == map[]
    {
      assert NavigationItems[0].id == HomeId;
      activeNav := HomeId;
      navItemsRef := map[];
    }

    /** The element the slider measures: the one registered for the active
        item, if any. */
    function ActiveElement(): (e: Option<ElementRef>)
      reads this
      ensures e.Some? ==> activeNav in navItemsRef && navItemsRef[activeNav] == e
      ensures activeNav in navItemsRef ==> e == navItemsRef[activeNav]
    {
      if activeNav in navItemsRef then navItemsRef[activeNav] else None
    }

    /** The item styled as active: the one whose id is `activeNav`. */
    function IsActiveItem(index: nat): (active: bool)
      reads this
      ensures active ==> index < |NavigationItems| && IsNavigationId(activeNav)
    {
      index < |NavigationItems| && NavigationItems[index].id == activeNav
    }

    /** The effect that runs when the pathname or the locale changes. */
    method SyncWithPathname(pathname: Option<string>)
      modifies this
      ensures Valid()
      ensures activeNav == ActiveNavFor(pathname) && navItemsRef == old(navItemsRef)
    {
      var item := MatchingItem(CurrentPath(pathname));
      if item.Some? {
        activeNav := item.value.id;
      } else {
        activeNav := HomeId;
      }
    }

    /** The click handler of item `index`: the item becomes active at once,
      before navigation completes. */
    method ClickItem(index: nat)
      requires index < |NavigationItems|
      modifies this
      ensures Valid()
      ensures activeNav == NavigationItems[index].id && navItemsRef == old(navItemsRef)
    {
      activeNav := NavigationItems[index].id;
    }

    /** The `ref` callback of an item: records (or clears) its element. */
    method SetItemRef(id: string, element: Option<ElementRef>)
      requires Valid()
      modifies this
      ensures Valid()
      ensures navItemsRef == old(navItemsRef)[id := element] && activeNav == old(activeNav)
    {
      navItemsRef := navItemsRef[id := element];
    }
  }

  /** In a valid navbar exactly one item is styled active. */
  lemma ExactlyOneActiveItem(n: Navbar)
    requires n.Valid()
    ensures exists i :: n.IsActiveItem(i)
    ensures forall i, j :: n.IsActiveItem(i) && n.IsActiveItem(j) ==> i == j
  {
    TableShape();
    var i :| 0 <= i < |NavigationItems| && NavigationItems[i].id == n.activeNav;
    assert n.IsActiveItem(i);
  }
}
