/** The dashboard layout's navigation: which item is highlighted for the current
    path, and the count badges fed by the nav-counts endpoint. */
module Layout {
  import opened Common
  import opened Text
  import Dashboard

  datatype CountKey = InboxKey | BookingsKey

  datatype NavItem = NavItem(href: string, caption: string, countKey: Option<CountKey>)

  /** The navigation items, in menu order. */
  const NavItems: seq<NavItem> := [
    NavItem("/dashboard", "Overview", None),
    NavItem("/dashboard/inbox", "Inbox", Some(InboxKey)),
    NavItem("/dashboard/bookings", "Bookings", Some(BookingsKey)),
    NavItem("/dashboard/forms", "Forms", None),
    NavItem("/dashboard/inventory", "Inventory", None),
    NavItem("/dashboard/settings", "Settings", None)
  ]

  /** isActive: the path is the item's own, or (except for the overview) lies under it;
      an item is highlighted only when its path begins the current one. */
  predicate IsActive(pathname: string, href: string): (active: bool)
    ensures pathname == href ==> active
    ensures active ==> StartsWith(pathname, href)
  {
    assert StartsWith(pathname, href + "/") ==> pathname[..|href|] == (href + "/")[..|href|];
    pathname == href || (href != "/dashboard" && StartsWith(pathname, href + "/"))
  }

  /** The overview is highlighted only on its own path. */
  lemma OverviewExactOnly(pathname: string)
    ensures IsActive(pathname, "/dashboard") <==> pathname == "/dashboard"
  {
  }

  /** Every path below an item highlights it (other than the overview). */
  lemma NestedPathActive(href: string, rest: string)
    requires href != "/dashboard"
    ensures IsActive(href + "/" + rest, href)
  {
    var p := href + "/" + rest;
    assert p[..|href + "/"|] == href + "/";
  }

  /** A path that only shares the item's prefix, like "/dashboard/inboxes", does not. */
  lemma SiblingPathInactive(href: string, c: char, rest: string)
    requires c != '/'
    ensures !IsActive(href + [c] + rest, href)
  {
    var p := href + [c] + rest;
    assert p[|href|] == c;
  }

  /** Two section paths (each item's path followed by "/") part at some position
      both reach. */
  lemma SectionsDiverge(j: nat, k: nat) returns (i: nat)
    requires 1 <= j < |NavItems| && 1 <= k < |NavItems| && j != k
    ensures i < |NavItems[j].href + "/"| && i < |NavItems[k].href + "/"|
    ensures (NavItems[j].href + "/")[i] != (NavItems[k].href + "/")[i]
  {
    if (j == 1 && k == 4) || (j == 4 && k == 1) {
      i := 13;
    } else {
      i := 11;
    }
  }

  /** On a path below an item, the highlighted item is that one and no other. */
  lemma OneItemPerSection(k: nat, rest: string)
    requires 1 <= k < |NavItems|
    ensures forall j :: 0 <= j < |NavItems| ==>
      (IsActive(NavItems[k].href + "/" + rest, NavItems[j].href) <==> j == k)
  {
    var p := NavItems[k].href + "/" + rest;
    NestedPathActive(NavItems[k].href, rest);
    forall j | 0 <= j < |NavItems| && j != k ensures !IsActive(p, NavItems[j].href) {
      var h := NavItems[j].href;
      if j == 0 {
        assert |p| > |h|;
      } else {
        var i := SectionsDiverge(j, k);
        assert p[i] == (NavItems[k].href + "/")[i];
      }
    }
  }

  /** The badge count: the fetched count for items with a count key, else 0. */
  function BadgeCount(item: NavItem, counts: Dashboard.NavCounts): (n: nat)
    ensures item.countKey.None? ==> n == 0
    ensures n <= counts.inbox + counts.bookings
  {
    match item.countKey
    case None => 0
    case Some(InboxKey) => counts.inbox
    case Some(BookingsKey) => counts.bookings
  }

  /** On the menu, the inbox item shows the inbox count, the bookings item the
      bookings count, and every other item none. */
  lemma MenuBadges(counts: Dashboard.NavCounts)
    ensures BadgeCount(NavItems[1], counts) == counts.inbox
    ensures BadgeCount(NavItems[2], counts) == counts.bookings
    ensures forall i :: 0 <= i < |NavItems| && i != 1 && i != 2 ==> BadgeCount(NavItems[i], counts) == 0
  {
  }

  /** The badge text: the count itself, capped at "99+". */
  function BadgeText(count: nat): (s: string)
    ensures count > 99 <==> s == "99+"
    ensures count <= 99 ==> s == NatToString(count) && |s| <= 2
  {
    if count > 99 then "99+" else NatToString(count)
  }

  /** The counts after a refresh: the fetched ones, or zeros when the fetch failed. */
  function Refreshed(fetched: Option<Dashboard.NavCounts>): (counts: Dashboard.NavCounts)
    ensures fetched.None? ==> counts == Dashboard.NavCounts(0, 0)
    ensures fetched.Some? ==> counts == fetched.value
  {
    fetched.GetOr(Dashboard.NavCounts(0, 0))
  }

  /** After a failed refresh every badge reads "0". */
  lemma FailedRefreshShowsZero(item: NavItem)
    ensures BadgeText(BadgeCount(item, Refreshed(None))) == "0"
  {
  }

  /** The badge an item renders: nothing before the first refresh has settled and
      nothing for an item without a count key; otherwise the badge text of its count. */
  function ShownBadge(item: NavItem, counts: Dashboard.NavCounts, countsLoaded: bool): (badge: Option<string>)
    ensures badge.Some? <==> countsLoaded && item.countKey.Some?
    ensures badge.Some? ==> badge.value == BadgeText(BadgeCount(item, counts))
  {
    if countsLoaded && item.countKey.Some? then Some(BadgeText(BadgeCount(item, counts))) else None
  }

  /** Once a refresh has settled, whether it failed or not, exactly the Inbox and
      Bookings items carry a badge; after a failure both read "0". */
  lemma SettledMenuBadges(fetched: Option<Dashboard.NavCounts>)
    ensures forall i :: 0 <= i < |NavItems| ==>
      (ShownBadge(NavItems[i], Refreshed(fetched), true).Some? <==> i == 1 || i == 2)
    ensures ShownBadge(NavItems[1], Refreshed(fetched), true) == Some(BadgeText(Refreshed(fetched).inbox))
    ensures ShownBadge(NavItems[2], Refreshed(fetched), true) == Some(BadgeText(Refreshed(fetched).bookings))
    ensures fetched.None? ==> ShownBadge(NavItems[1], Refreshed(fetched), true) == Some("0")
  {
    MenuBadges(Refreshed(fetched));
  }
}
