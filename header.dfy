/**
 * The navigation bar's active-link test (frontend/src/components/Header.tsx).
 * `usePathname()` is a parameter that may be `null`.
 */
module Header {
  import opened Wrappers
  import opened Text

  const Dashboard := "/dashboard"

  /** `isActive(href)`: the path is the link, or, for any link but the dashboard, starts with it. */
  function IsActive(pathname: Option<string>, href: string): (r: bool)
    ensures r ==> pathname.Some? && StartsWith(pathname.value, href)
    ensures pathname == Some(href) ==> r
    ensures href == Dashboard ==> (r <==> pathname == Some(href))
  {
    pathname == Some(href) || (href != Dashboard && pathname.Some? && StartsWith(pathname.value, href))
  }

  /** The path equal to a link makes it active. */
  lemma ExactActive(href: string)
    ensures IsActive(Some(href), href)
  {
  }

  /**
   * Every link but the dashboard is active on any path it is a string prefix
   * of, with or without a `/` after it.
   */
  lemma PrefixActive(pathname: string, href: string)
    requires href != Dashboard
    ensures IsActive(Some(pathname), href) <==> StartsWith(pathname, href)
  {
  }

  /** The dashboard link is active only on exactly "/dashboard". */
  lemma DashboardExactOnly(pathname: Option<string>)
    ensures IsActive(pathname, Dashboard) <==> pathname == Some(Dashboard)
  {
  }

  /** Without a path no link is active. */
  lemma NoPathNoActive(href: string)
    ensures !IsActive(None, href)
  {
  }

  /** "/settings-x" activates the "/settings" link: the test is on characters, not path segments. */
  lemma SegmentBlind()
    ensures IsActive(Some("/settings-x"), "/settings")
    ensures !IsActive(Some("/dashboard/x"), Dashboard)
  {
    assert "/settings-x"[..|"/settings"|] == "/settings";
    assert "/dashboard/x" != Dashboard;
  }
}
