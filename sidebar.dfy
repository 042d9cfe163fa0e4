/** The navigation sidebar (components/layout/Sidebar.tsx): its entries and which of them is highlighted. */
module Sidebar {
  import opened Text

  datatype NavItem = NavItem(name: string, href: string)

  /** The entries every visitor sees, in order. */
  const BaseNavigation: seq<NavItem> := [
    NavItem("Dashboard", "/"),
    NavItem("Products", "/products"),
    NavItem("Add Product", "/products/new")
  ]

  const AddAdmin := NavItem("Add Admin", "/admin/new")

  /** The `navigation` array: the three base entries, and `Add Admin` pushed onto it for a signed-in user; each entry is highlighted on its own page. */
  method BuildNavigation(signedIn: bool) returns (navigation: seq<NavItem>)
    ensures |navigation| == if signedIn then 4 else 3
    ensures navigation[..3] == BaseNavigation
    ensures signedIn ==> navigation[3] == AddAdmin
    ensures forall i, j :: 0 <= i < j < |navigation| ==> navigation[i].href != navigation[j].href
    ensures forall i, j :: 0 <= i < j < |navigation| ==> navigation[i].name != navigation[j].name
    ensures forall i :: 0 <= i < |navigation| ==> IsActive(navigation[i].href, navigation[i].href)
  {
    navigation := BaseNavigation;
    if signedIn {
      navigation := navigation + [AddAdmin];
    }
  }

  /** `isActive`: the dashboard only on `/` itself, any other entry on every path that starts with its href. */
  predicate IsActive(path: string, pathname: string) {
    if path == "/" then pathname == path else path <= pathname
  }

  /** The dashboard entry is highlighted on `/` and nowhere else. */
  lemma DashboardOnlyAtRoot(pathname: string)
    ensures IsActive("/", pathname) <==> pathname == "/"
  {
  }

  /** On the new-product page both Products and Add Product are highlighted, and the dashboard not. */
  lemma NewProductPageHighlightsTwo()
    ensures IsActive("/products", "/products/new") && IsActive("/products/new", "/products/new")
    ensures !IsActive("/", "/products/new") && !IsActive("/admin/new", "/products/new")
  {
    assert |"/products/new"| != |"/"|;
    assert "/admin/new"[1] != "/products/new"[1];
  }

  /** The test is on characters, not path segments: `/products` is also highlighted on `/products-archive`. */
  lemma PrefixIsNotSegment()
    ensures IsActive("/products", "/products-archive")
  {
  }

  /** An entry other than the dashboard stays highlighted on every deeper path. */
  lemma {:induction false} ActiveOnDeeperPaths(path: string, pathname: string, deeper: string)
    requires path != "/" && IsActive(path, pathname)
    ensures IsActive(path, pathname + deeper)
  {
    assert (pathname + deeper)[..|path|] == pathname[..|path|];
  }
}
