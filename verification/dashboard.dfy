/** The dashboard shell shared by both sections: a sidebar whose items are
    highlighted by the `isActive` rule, and a logout button. */
module Dashboard {
  import opened Toasts
  import opened Seqs
  import opened Text
  import opened Session
  import Routes

  /** A sidebar entry: its label and the pathname it links to. */
  datatype NavItem = NavItem(name: string, path: string)

  /** The admin dashboard's sidebar. */
  const AdminNav: seq<NavItem> := [
    NavItem("City Information", "/admin/city-info"),
    NavItem("Public Services", "/admin/public-services"),
    NavItem("Infrastructure", "/admin/infrastructure")
  ]

  /** The user dashboard's sidebar. */
  const UserNav: seq<NavItem> := [
    NavItem("City Details", "/user/city-details"),
    NavItem("Report Issue", "/user/report-issue"),
    NavItem("Provide Feedback", "/user/feedback")
  ]

  /** `isActive`, clause by clause: the item's path is the current pathname,
      or the item is a section root whose section the pathname starts with.
      Both tests are raw string tests. The `includes` tests are implied by the
      equality tests, so an item is active exactly when it is the current page
      or the root of the section the pathname starts with. */
  predicate IsActive(current: string, item: string)
    ensures IsActive(current, item) <==>
      || current == item
      || (item == "/admin" && StartsWith(current, "/admin"))
      || (item == "/user" && StartsWith(current, "/user"))
  {
    assert StartsWith(item, item);
    || current == item
    || (Contains(item, "/admin") && StartsWith(current, "/admin") && item == "/admin")
    || (Contains(item, "/user") && StartsWith(current, "/user") && item == "/user")
  }

  /** An item that is neither the current page nor a bare section root is
      never highlighted. */
  lemma OnlyRootsMatchByPrefix(current: string, item: string)
    requires current != item && item != "/admin" && item != "/user"
    ensures !IsActive(current, item)
  {
  }

  /** The prefix test does not stop at a segment boundary: "/administrator"
      highlights an "/admin" item. */
  lemma PrefixCrossesSegments()
    ensures IsActive("/administrator", "/admin")
  {
    assert "/administrator"[..6] == "/admin";
  }

  function ActiveIn(current: string): NavItem -> bool {
    (item: NavItem) => IsActive(current, item.path)
  }

  /** The highlighted items, in sidebar order. */
  function ActiveItems(current: string, items: seq<NavItem>): (r: seq<NavItem>)
    ensures forall x :: x in r <==> x in items && IsActive(current, x.path)
  {
    FilterMembership(items, ActiveIn(current));
    Filter(items, ActiveIn(current))
  }

  predicate DistinctPaths(items: seq<NavItem>) {
    forall i, j :: 0 <= i < j < |items| ==> items[i].path != items[j].path
  }

  predicate NoSectionRoot(items: seq<NavItem>) {
    forall i :: 0 <= i < |items| ==> items[i].path != "/admin" && items[i].path != "/user"
  }

  /** With distinct paths and no bare section root, at most one item is
      highlighted, and it is the one whose path is the pathname. */
  lemma {:induction false} AtMostOneActive(current: string, items: seq<NavItem>)
    requires DistinctPaths(items) && NoSectionRoot(items)
    ensures |ActiveItems(current, items)| <= 1
    ensures forall x :: x in ActiveItems(current, items) ==> x.path == current
    decreases |items|
  {
    if |items| > 0 {
      assert IsActive(current, items[0].path) ==> items[0].path == current;
      assert DistinctPaths(items[1..]) && NoSectionRoot(items[1..]);
      AtMostOneActive(current, items[1..]);
      if items[0].path == current {
        forall i | 0 <= i < |items[1..]|
          ensures !ActiveIn(current)(items[1..][i])
        {
          assert items[1..][i] == items[i + 1];
        }
        FilterNone(items[1..], ActiveIn(current));
      }
    }
  }

  /** The admin sidebar has distinct paths and no section root. */
  lemma AdminNavShape()
    ensures DistinctPaths(AdminNav) && NoSectionRoot(AdminNav)
  {
  }

  /** The user sidebar has distinct paths and no section root. */
  lemma UserNavShape()
    ensures DistinctPaths(UserNav) && NoSectionRoot(UserNav)
  {
  }

  /** Neither sidebar ever highlights two items. */
  lemma SidebarsHighlightAtMostOne(current: string)
    ensures |ActiveItems(current, AdminNav)| <= 1
    ensures |ActiveItems(current, UserNav)| <= 1
  {
    AdminNavShape();
    UserNavShape();
    AtMostOneActive(current, AdminNav);
    AtMostOneActive(current, UserNav);
  }

  /** On a section's own root, the sidebars highlight nothing: no item links
      to the bare root. */
  lemma SectionRootsHighlightNothing()
    ensures ActiveItems("/admin", AdminNav) == []
    ensures ActiveItems("/user", UserNav) == []
  {
    AdminNavShape();
    UserNavShape();
    NoneActive("/admin", AdminNav);
    NoneActive("/user", UserNav);
  }

  /** Without a section root among the items, a pathname no item links to
      highlights nothing. */
  lemma NoneActive(current: string, items: seq<NavItem>)
    requires NoSectionRoot(items)
    requires forall i :: 0 <= i < |items| ==> items[i].path != current
    ensures ActiveItems(current, items) == []
  {
    forall i | 0 <= i < |items|
      ensures !ActiveIn(current)(items[i])
    {
      assert !IsActive(current, items[i].path);
    }
    FilterNone(items, ActiveIn(current));
  }

  /** `handleLogout`: both keys are removed whatever the prior session, the
      router is sent to "/", and a success toast is shown. */
  function Logout(s: Session): (r: (Session, Routes.Path, Toast))
    ensures r.0.role.None? && r.0.email.None?
    ensures r.1 == []
    ensures r.2 == Success("Logged out successfully")
  {
    (SignedOut, [], Success("Logged out successfully"))
  }

  /** Logging out twice is logging out once, and either way lands on the
      login page. */
  lemma LogoutIdempotent(s: Session)
    ensures Logout(Logout(s).0) == Logout(s)
    ensures Routes.Resolve(Logout(s).1) == Routes.Screen(Routes.RootOnly, Routes.Login)
  {
  }
}
