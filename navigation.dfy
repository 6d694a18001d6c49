/** The navigation table of `constants/navigation.ts`, and the facts about
    it that the navbar's matcher relies on. */
module Navigation {
  import opened Strings

  /** The icon shown next to an item (a `lucide-react` component). */
  datatype NavIcon = Sparkles | UploadIcon | Mail

  /** An entry of the table; `caption` is the source's `label` field. */
  datatype NavigationItem = NavigationItem(id: string, caption: string, icon: NavIcon, href: string)

  const RootHref := "/"
  const HomeId := "home"

  /** `navigationItems`, in table order (the commented-out chat and pricing
      entries are not part of it). */
  const NavigationItems: seq<NavigationItem> := [
    NavigationItem("home", "Home", Sparkles, "/"),
    NavigationItem("upload", "Upload", UploadIcon, "/upload"),
    NavigationItem("contact", "Contact", Mail, "/contact")
  ]

  predicate IsNavigationId(id: string) {
    exists i :: 0 <= i < |NavigationItems| && NavigationItems[i].id == id
  }

  /** Three items, in the order home, upload, contact, with distinct ids. */
  lemma TableShape()
    ensures |NavigationItems| == 3
    ensures NavigationItems[0].id == "home" && NavigationItems[1].id == "upload" && NavigationItems[2].id == "contact"
    ensures forall i, j :: 0 <= i < j < |NavigationItems| ==> NavigationItems[i].id != NavigationItems[j].id
  {
  }

  /** Exactly one item is the root, and it is the home item that the
      matcher falls back to. */
  lemma RootIsHome()
    ensures forall i :: 0 <= i < |NavigationItems| ==>
              (NavigationItems[i].href == RootHref <==> i == 0)
    ensures NavigationItems[0].id == HomeId && IsNavigationId(HomeId)
  {
  }

  /** Every href is absolute, and no non-root href ends in a slash. */
  lemma HrefsWellFormed()
    ensures forall i :: 0 <= i < |NavigationItems| ==>
              var h := NavigationItems[i].href;
              StartsWith(h, "/") && (h != RootHref ==> h[|h| - 1] != '/')
  {
  }

  /** No non-root item's `href + "/"` starts another item's href, so the
      "path or sub-path" rule never lets two items claim one path. */
  lemma NoHrefNestsAnother()
    ensures forall i, j ::
              0 <= i < |NavigationItems| && 0 <= j < |NavigationItems| && i != j && NavigationItems[i].href != RootHref
              ==> !StartsWith(NavigationItems[j].href, NavigationItems[i].href + "/")
  {
    assert NavigationItems[2].href[1] != (NavigationItems[1].href + "/")[1];
  }
}
