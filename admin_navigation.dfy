/** The admin navigation bar: the fixed link list, the active-link rule, and the mobile menu. */
module AdminNavigation {
  import opened Strings

  datatype NavLink = NavLink(href: string, text: string)

  /** `adminNavLinks`, in display order. */
  const AdminNavLinks := [
    NavLink("/admin", "Dashboard"),
    NavLink("/admin/page-builder", "Page Builder"),
    NavLink("/admin/projects", "Projects"),
    NavLink("/admin/gallery", "Gallery"),
    NavLink("/admin/content", "Content"),
    NavLink("/admin/messages", "Messages"),
    NavLink("/admin/settings", "Settings")
  ]

  /** `isActive(href)`: the dashboard only on its own path, every other link on any path it begins. */
  function IsActive(pathname: string, href: string): (r: bool)
    ensures href == "/admin" ==> (r <==> pathname == "/admin")
    ensures href != "/admin" ==> (r <==> |href| <= |pathname| && pathname[..|href|] == href)
  {
    if href == "/admin" then pathname == "/admin" else StartsWith(pathname, href)
  }

  /** Any path that extends a link's address, even without a `/`, makes that link active. */
  lemma PrefixIsEnough(href: string, rest: string)
    requires href != "/admin"
    ensures IsActive(href + rest, href)
  {
    assert (href + rest)[..|href|] == href;
  }

  /** The dashboard is not active on its sub-pages. */
  lemma DashboardOnlyExact(pathname: string)
    requires pathname != "/admin"
    ensures !IsActive(pathname, AdminNavLinks[0].href)
  {
  }

  /** The link a path can activate, told apart by the characters after `/admin/`. */
  function LinkFor(pathname: string): (r: nat)
    ensures r <= |AdminNavLinks|
    ensures r == 0 <==> pathname == "/admin"
  {
    if pathname == "/admin" then 0
    else if |pathname| <= 8 then 7
    else if pathname[7] == 'p' && pathname[8] == 'a' then 1
    else if pathname[7] == 'p' && pathname[8] == 'r' then 2
    else if pathname[7] == 'g' then 3
    else if pathname[7] == 'c' then 4
    else if pathname[7] == 'm' then 5
    else if pathname[7] == 's' then 6
    else 7
  }

  /** An active link is the one `LinkFor` names. */
  lemma ActiveIsLinkFor(pathname: string, i: nat)
    requires i < |AdminNavLinks| && IsActive(pathname, AdminNavLinks[i].href)
    ensures i == LinkFor(pathname)
  {
    var h := AdminNavLinks[i].href;
    if i > 0 {
      assert pathname[..|h|][7] == pathname[7] && pathname[..|h|][8] == pathname[8];
      assert |pathname| >= |h| > 8;
    }
  }

  /** At most one link is highlighted for any path. */
  lemma AtMostOneActive(pathname: string, i: nat, j: nat)
    requires i < |AdminNavLinks| && IsActive(pathname, AdminNavLinks[i].href)
    requires j < |AdminNavLinks| && IsActive(pathname, AdminNavLinks[j].href)
    ensures i == j
  {
    ActiveIsLinkFor(pathname, i);
    ActiveIsLinkFor(pathname, j);
  }

  /**
   * What the user did in the bar: the menu button, a link or the sign-out
   * button inside the mobile menu, or the sign-out button of the desktop bar.
   */
  datatype Action = ToggleMenu | ClickMobileLink | ClickSignOut | ClickDesktopSignOut

  /**
   * The menu state after an action: the toggle flips it, every click in the
   * mobile menu closes it, and the desktop sign-out leaves it as it was.
   */
  function MenuAfter(open: bool, a: Action): (r: bool)
    ensures a.ToggleMenu? ==> r == !open
    ensures a.ClickMobileLink? || a.ClickSignOut? ==> !r
    ensures a.ClickDesktopSignOut? ==> r == open
  {
    match a
    case ToggleMenu => !open
    case ClickDesktopSignOut => open
    case _ => false
  }

  lemma ToggleTwiceRestores(open: bool)
    ensures MenuAfter(MenuAfter(open, ToggleMenu), ToggleMenu) == open
  {
  }

  class Navigation {
    var isMenuOpen: bool

    constructor ()
      ensures !isMenuOpen
    {
      isMenuOpen := false;
    }

    /** Handles one action; `signOut` says whether sign-out was requested. */
    method Handle(a: Action) returns (signOut: bool)
      modifies this
      ensures isMenuOpen == MenuAfter(old(isMenuOpen), a)
      ensures signOut <==> a.ClickSignOut? || a.ClickDesktopSignOut?
    {
      match a {
        case ToggleMenu => isMenuOpen := !isMenuOpen;
        case ClickMobileLink => isMenuOpen := false;
        case ClickSignOut => isMenuOpen := false;
        case ClickDesktopSignOut =>
      }
      signOut := a.ClickSignOut? || a.ClickDesktopSignOut?;
    }
  }
}
