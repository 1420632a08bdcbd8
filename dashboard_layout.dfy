/**
 * The layout around every dashboard page: the page title derived from the
 * route, the breadcrumb under it, and the sidebar that folds away on narrow
 * windows.
 */
module DashboardLayout {
  import opened JsStrings

  /** Windows narrower than this many pixels get the mobile layout. */
  const MobileBreakpoint := 768

  /**
   * `getPageTitle`: the root is the dashboard; otherwise the first section
   * whose path occurs anywhere in the route names the page, in the order
   * events, venues, users, settings; anything else is the dashboard.
   */
  function PageTitle(path: string): (t: string)
    ensures path == "/" ==> t == "Dashboard"
    ensures t == "Events Management" <==> path != "/" && Includes(path, "/events")
    ensures t == "Venues Management" <==> path != "/" && !Includes(path, "/events") && Includes(path, "/venues")
    ensures t == "User Management" <==>
      (path != "/" && !Includes(path, "/events") && !Includes(path, "/venues") && Includes(path, "/users"))
    ensures t == "Settings" <==>
      (path != "/" && !Includes(path, "/events") && !Includes(path, "/venues") && !Includes(path, "/users")
       && Includes(path, "/settings"))
    ensures t == "Dashboard" || t == "Events Management" || t == "Venues Management" || t == "User Management" || t == "Settings"
  {
    if path == "/" then "Dashboard"
    else if Includes(path, "/events") then "Events Management"
    else if Includes(path, "/venues") then "Venues Management"
    else if Includes(path, "/users") then "User Management"
    else if Includes(path, "/settings") then "Settings"
    else "Dashboard"
  }

  /** The matches are substring tests, so a venue route that mentions events is titled as an events page. */
  lemma FirstMatchWins()
    ensures PageTitle("/venues/events") == "Events Management"
  {
    var path := "/venues/events";
    assert path != "/" by {
      assert |path| != |"/"|;
    }
    assert Includes(path, "/events") by {
      assert path[7..] == "/events";
      IncludesIffOccurs(path, "/events");
      assert OccursAt(path, "/events", 7);
    }
  }

  /** A route outside the four sections falls back to the dashboard title. */
  lemma UnknownRouteIsDashboard(path: string)
    requires !Includes(path, "/events") && !Includes(path, "/venues") && !Includes(path, "/users")
    requires !Includes(path, "/settings")
    ensures PageTitle(path) == "Dashboard"
  {
  }

  /** The breadcrumb under the heading: "Home", then the page title on every route but the root. */
  function Breadcrumb(path: string): (trail: seq<string>)
    ensures |trail| == 2 <==> path != "/"
    ensures |trail| == 1 <==> path == "/"
    ensures trail[0] == "Home"
  {
    ["Home"] + if path != "/" then [PageTitle(path)] else []
  }

  /** The breadcrumb always ends in the heading's title, or in "Home" on the dashboard itself. */
  lemma BreadcrumbEndsInTitle(path: string)
    ensures var trail := Breadcrumb(path);
      trail[|trail| - 1] == (if |trail| == 1 then "Home" else PageTitle(path))
    ensures |Breadcrumb(path)| == 1 ==> PageTitle(path) == "Dashboard"
  {
  }

  class Layout {
    var sidebarOpen: bool
    var isMobile: bool

    /** The content is pushed aside by the sidebar (`ml-64`) only when it is open on a wide window. */
    predicate ContentShifted()
      reads this
    {
      sidebarOpen && !isMobile
    }

    /** Mounting: the initial state, then the resize handler's initial check against the window width. */
    constructor(width: int)
      ensures isMobile <==> width < MobileBreakpoint
      ensures sidebarOpen <==> !isMobile
    {
      sidebarOpen := true;
      isMobile := false;
      new;
      HandleResize(width);
    }

    /** `handleResize`: a narrow window is mobile with the sidebar closed, a wide one the reverse. */
    method HandleResize(width: int)
      modifies this
      ensures isMobile <==> width < MobileBreakpoint
      ensures sidebarOpen <==> !isMobile
      ensures ContentShifted() <==> width >= MobileBreakpoint
    {
      if width < MobileBreakpoint {
        sidebarOpen := false;
        isMobile := true;
      } else {
        sidebarOpen := true;
        isMobile := false;
      }
    }

    /** Changing route closes the sidebar on mobile and leaves it alone otherwise. */
    method OnNavigate()
      modifies this
      ensures isMobile == old(isMobile)
      ensures sidebarOpen == (old(sidebarOpen) && !old(isMobile))
      ensures ContentShifted() == old(ContentShifted())
    {
      if isMobile {
        sidebarOpen := false;
      }
    }

    /** The navigation bar's toggle flips the sidebar. */
    method ToggleSidebar()
      modifies this
      ensures sidebarOpen == !old(sidebarOpen) && isMobile == old(isMobile)
    {
      sidebarOpen := !sidebarOpen;
    }
  }
}
