/**
 * The menu router's closed set of routes and the pathname normaliser
 * (src/lib/menu-routes.ts).
 */
module MenuRoutes {
  import opened Optional
  import opened Strings

  datatype MenuItem = MenuItem(name: string, path: string)

  /** The four menu entries, in menu order. */
  const MenuItems: seq<MenuItem> := [
    MenuItem("Home", "/"),
    MenuItem("Work", "/work"),
    MenuItem("About", "/about"),
    MenuItem("Contact", "/contact")
  ]

  /** The set of menu paths, built from the menu entries. */
  const MenuRouteSet: set<string> := set item | item in MenuItems :: item.path

  /** Membership in the set of menu paths, spelled out (see MenuRouteSetContents). */
  predicate IsMenuRoute(s: string) {
    s == "/" || s == "/work" || s == "/about" || s == "/contact"
  }

  /** The `MenuRoute` string-literal union type. */
  type MenuRoute = s: string | IsMenuRoute(s) witness "/"

  lemma MenuRouteSetContents()
    ensures forall s :: s in MenuRouteSet <==> IsMenuRoute(s)
  {
    assert MenuItems[0] in MenuItems && MenuItems[1] in MenuItems;
    assert MenuItems[2] in MenuItems && MenuItems[3] in MenuItems;
    assert MenuItems[0].path == "/";
    assert MenuItems[1].path == "/work";
    assert MenuItems[2].path == "/about";
    assert MenuItems[3].path == "/contact";
  }

  /**
   * The empty path and "/" become "/"; otherwise exactly one trailing
   * slash, if present, is dropped.
   */
  function TrimTrailingSlash(pathname: string): (r: string)
    ensures pathname == [] || pathname == "/" ==> r == "/"
    ensures pathname != [] && pathname != "/" && !EndsWith(pathname, '/') ==> r == pathname
    ensures pathname != [] && pathname != "/" && EndsWith(pathname, '/') ==> r + "/" == pathname
  {
    if pathname == [] || pathname == "/" then "/"
    else if EndsWith(pathname, '/') then pathname[..|pathname| - 1]
    else pathname
  }

  /**
   * Maps any pathname to a menu route: the trimmed path when it is one of
   * the four routes, "/" otherwise.
   */
  function NormalizeMenuRoute(pathname: string): (r: MenuRoute)
    ensures r in {"/", "/work", "/about", "/contact"}
    ensures IsMenuRoute(pathname) ==> r == pathname
    ensures r != "/" ==> pathname == r || pathname == r + "/"
    ensures !IsMenuRoute(pathname) && !(EndsWith(pathname, '/') && IsMenuRoute(pathname[..|pathname| - 1])) ==> r == "/"
  {
    var normalized := TrimTrailingSlash(pathname);
    MenuRouteSetContents();
    if normalized in MenuRouteSet then normalized else "/"
  }

  /**
   * The route for the current location; `None` stands for a context with
   * no `window` (server-side rendering).
   */
  function GetCurrentMenuRoute(location: Option<string>): (r: MenuRoute)
    ensures location.None? ==> r == "/"
    ensures location.Some? && IsMenuRoute(location.value) ==> r == location.value
    ensures location.Some? ==> r == NormalizeMenuRoute(location.value)
  {
    match location
    case None => "/"
    case Some(pathname) => NormalizeMenuRoute(pathname)
  }

  /** Every menu path is a fixed point of the normaliser. */
  lemma MenuRoutesAreFixedPoints()
    ensures NormalizeMenuRoute("/") == "/"
    ensures NormalizeMenuRoute("/work") == "/work"
    ensures NormalizeMenuRoute("/about") == "/about"
    ensures NormalizeMenuRoute("/contact") == "/contact"
  {
  }

  lemma EmptyAndRootNormaliseToRoot()
    ensures NormalizeMenuRoute("") == "/"
    ensures NormalizeMenuRoute("/") == "/"
  {
  }

  /** One trailing slash is dropped from each menu path. */
  lemma SingleTrailingSlashTrimmed()
    ensures NormalizeMenuRoute("/work/") == "/work"
    ensures NormalizeMenuRoute("/about/") == "/about"
    ensures NormalizeMenuRoute("/contact/") == "/contact"
  {
    NormalizeCharacterisation("/work/", "/work");
    NormalizeCharacterisation("/about/", "/about");
    NormalizeCharacterisation("/contact/", "/contact");
  }

  /** Only one slash is trimmed, so a doubled trailing slash is not a menu path. */
  lemma DoubleTrailingSlashFallsBack()
    ensures NormalizeMenuRoute("/work//") == "/"
    ensures NormalizeMenuRoute("/about//") == "/"
    ensures NormalizeMenuRoute("/contact//") == "/"
  {
    assert |"/work//"| == 7;
    NormalizeCharacterisation("/work//", "/work");
    NormalizeCharacterisation("/work//", "/about");
    NormalizeCharacterisation("/work//", "/contact");
    NormalizeCharacterisation("/about//", "/work");
    NormalizeCharacterisation("/about//", "/about");
    NormalizeCharacterisation("/about//", "/contact");
    NormalizeCharacterisation("/contact//", "/work");
    NormalizeCharacterisation("/contact//", "/about");
    NormalizeCharacterisation("/contact//", "/contact");
  }

  /** A pathname normalises to a non-root route exactly when it is that route, optionally with one trailing slash. */
  lemma NormalizeCharacterisation(pathname: string, route: string)
    requires route in {"/work", "/about", "/contact"}
    ensures NormalizeMenuRoute(pathname) == route <==> (pathname == route || pathname == route + "/")
  {
    if pathname == route + "/" {
      assert pathname[..|pathname| - 1] == route;
    }
  }

  /** Normalising twice is the same as normalising once. */
  lemma NormalizeIdempotent(pathname: string)
    ensures NormalizeMenuRoute(NormalizeMenuRoute(pathname)) == NormalizeMenuRoute(pathname)
  {
  }
}
