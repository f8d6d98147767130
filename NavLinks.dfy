/** The navigation links of components/NavLinks/DesktopNavLinks.tsx and
    components/NavLinks/MobileNavLinks.tsx: both highlight a link with the
    same `isActive` rule, and the mobile one also closes the menu when it is
    followed and renders nothing while the menu is closed. */
module NavLinks {
  import opened Common
  import opened Text

  /** `isActive` of both link components, for the current `pathname`
      (`None` while it is null) and the link's `href`. */
  predicate IsActive(pathname: Option<string>, href: string) {
    (pathname == Some("/") && href == "/")
    || pathname == Some(href)
    || (pathname.Some? && StartsWith(pathname.value, href + "/"))
  }

  /** The first disjunct adds nothing: the rule is "equal, or a child". */
  lemma RootDisjunctSubsumed(pathname: Option<string>, href: string)
    ensures IsActive(pathname, href) <==>
      pathname == Some(href) || (pathname.Some? && StartsWith(pathname.value, href + "/"))
  {
  }

  /** A link is active on its own page. */
  lemma EqualIsActive(href: string)
    ensures IsActive(Some(href), href)
  {
  }

  /** Without a pathname no link is active. */
  lemma NoneNeverActive(href: string)
    ensures !IsActive(None, href)
  {
  }

  /** A link is active on a path extending its `href` exactly when the rest
      is empty or starts a new segment: child routes light their parent up
      and a sibling sharing a prefix (`/todosX` for `/todos`) does not. */
  lemma ActiveExtensionIff(href: string, rest: string)
    ensures IsActive(Some(href + rest), href) <==> rest == "" || rest[0] == '/'
  {
    var p := href + rest;
    if rest != "" && rest[0] == '/' {
      assert p[..|href + "/"|] == href + "/";
    }
    if rest == "" {
      assert p == href;
    }
    if StartsWith(p, href + "/") {
      assert p[|href|] == (href + "/")[|href|];
    }
    if p == href {
      assert |rest| == 0;
    }
  }

  /** Every path a link is active on starts with the link's `href`. */
  lemma ActiveExtendsHref(path: string, href: string)
    requires IsActive(Some(path), href)
    ensures StartsWith(path, href)
    ensures IsActive(Some(path), href) <==> path == href || (|path| > |href| && path[|href|] == '/')
  {
    if StartsWith(path, href + "/") {
      assert path[..|href|] == (href + "/")[..|href|] == href;
    }
    assert path == href + path[|href|..];
    ActiveExtensionIff(href, path[|href|..]);
  }

  lemma SiblingNotActive()
    ensures !IsActive(Some("/todosX"), "/todos")
    ensures IsActive(Some("/todos/1"), "/todos")
  {
    ActiveExtensionIff("/todos", "X");
    ActiveExtensionIff("/todos", "/1");
    assert "/todos" + "X" == "/todosX";
    assert "/todos" + "/1" == "/todos/1";
  }

  /** The home link is active only on the home page and on paths starting
      with `//`. */
  lemma HomeLinkIff(path: string)
    ensures IsActive(Some(path), "/") <==> path == "/" || StartsWith(path, "//")
  {
  }

  /** What one link renders: its caption, target and highlighting. */
  datatype LinkView = LinkView(caption: string, href: string, active: bool)

  /** The desktop link, always rendered. */
  function DesktopLink(pathname: Option<string>, href: string, caption: string): (v: LinkView)
    ensures v.href == href && v.caption == caption
    ensures v.active <==> IsActive(pathname, href)
  {
    LinkView(caption, href, IsActive(pathname, href))
  }

  /** The mobile link: nothing while the menu is closed. */
  function MobileLink(menuOpen: bool, pathname: Option<string>, href: string, caption: string): (v: Option<LinkView>)
    ensures v.None? <==> !menuOpen
    ensures v.Some? ==> v.value == DesktopLink(pathname, href, caption)
  {
    if menuOpen then Some(LinkView(caption, href, IsActive(pathname, href))) else None
  }

  /** The navigation state a click acts on: whether the mobile menu is open
      and the routes pushed so far. */
  datatype NavState = NavState(menuOpen: bool, pushed: seq<string>)

  /** The mobile `onClick`: pushes the route and closes the menu. */
  function MobileClick(s: NavState, href: string): (r: NavState)
    ensures r.pushed == s.pushed + [href] && !r.menuOpen
  {
    NavState(false, s.pushed + [href])
  }

  /** After a mobile link is followed, no mobile link is rendered. */
  lemma ClickHidesMobileLinks(s: NavState, href: string, pathname: Option<string>, other: string, caption: string)
    ensures MobileLink(MobileClick(s, href).menuOpen, pathname, other, caption).None?
  {
  }
}
