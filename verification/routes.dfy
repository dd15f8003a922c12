/** The browser router: a static route tree under "/" with a login index, an
    admin section, a user section and a catch-all. Paths are given as their
    segments ("/admin/city-info" is ["admin", "city-info"]). */
module Routes {
  import opened Optional

  type Path = seq<string>

  /** The layout a page renders inside. Every page sits inside `Root`; the
      section pages additionally sit inside their dashboard. */
  datatype Shell = RootOnly | AdminDashboard | UserDashboard

  datatype PageName =
    | Login
    | CityInfoManagement
    | PublicServicesManagement
    | InfrastructureMonitoring
    | CityDetails
    | ReportIssue
    | ProvideFeedback
    | NotFound

  datatype Screen = Screen(shell: Shell, page: PageName)

  /** What the catch-all renders. */
  const Missing: Screen := Screen(RootOnly, NotFound)

  /** A section: its dashboard, its index page and its named children, each
      child listed under its path segment. */
  datatype Section = Section(shell: Shell, index: PageName, children: seq<(string, PageName)>)

  const AdminSection: Section := Section(AdminDashboard, CityInfoManagement, [
    ("city-info", CityInfoManagement),
    ("public-services", PublicServicesManagement),
    ("infrastructure", InfrastructureMonitoring)
  ])

  const UserSection: Section := Section(UserDashboard, CityDetails, [
    ("city-details", CityDetails),
    ("report-issue", ReportIssue),
    ("feedback", ProvideFeedback)
  ])

  /** The sections under "/", each under its path segment. */
  const Sections: seq<(string, Section)> := [("admin", AdminSection), ("user", UserSection)]

  /** The value of the first entry listed under `segment`; sections and
      children are both found this way. */
  function Lookup<T>(entries: seq<(string, T)>, segment: string): (r: Option<T>)
    ensures r.Some? ==> (segment, r.value) in entries
    ensures r.None? ==> forall i :: 0 <= i < |entries| ==> entries[i].0 != segment
    decreases |entries|
  {
    if |entries| == 0 then None
    else if entries[0].0 == segment then Some(entries[0].1)
    else Lookup(entries[1..], segment)
  }

  /** Route matching: the empty path is the login index; one segment naming a
      section is that section's index; two segments naming a section and one
      of its children is that child; anything else falls to the catch-all,
      which renders inside `Root` only. Nothing but the path is read: there
      is no session input, because the route tree has no guard. */
  function Resolve(path: Path): (screen: Screen)
    ensures screen.page == Login <==> path == []
    ensures screen.shell == RootOnly <==> screen.page == Login || screen.page == NotFound
    ensures screen.shell == AdminDashboard ==> 1 <= |path| <= 2 && path[0] == "admin"
    ensures screen.shell == UserDashboard ==> 1 <= |path| <= 2 && path[0] == "user"
  {
    if |path| == 0 then Screen(RootOnly, Login)
    else
      match Lookup(Sections, path[0])
      case None => Missing
      case Some(s) =>
        if |path| == 1 then Screen(s.shell, s.index)
        else if |path| > 2 then Missing
        else
          match Lookup(s.children, path[1])
          case None => Missing
          case Some(page) => Screen(s.shell, page)
  }

  /** The route tree flattened: every path it matches besides the catch-all. */
  const Table: seq<(Path, Screen)> := [
    ([], Screen(RootOnly, Login)),
    (["admin"], Screen(AdminDashboard, CityInfoManagement)),
    (["admin", "city-info"], Screen(AdminDashboard, CityInfoManagement)),
    (["admin", "public-services"], Screen(AdminDashboard, PublicServicesManagement)),
    (["admin", "infrastructure"], Screen(AdminDashboard, InfrastructureMonitoring)),
    (["user"], Screen(UserDashboard, CityDetails)),
    (["user", "city-details"], Screen(UserDashboard, CityDetails)),
    (["user", "report-issue"], Screen(UserDashboard, ReportIssue)),
    (["user", "feedback"], Screen(UserDashboard, ProvideFeedback))
  ]

  predicate InTable(path: Path) {
    exists i :: 0 <= i < |Table| && Table[i].0 == path
  }

  /** No path appears twice in the table, so a lookup is unambiguous. */
  lemma TablePathsDistinct()
    ensures forall i, j :: 0 <= i < j < |Table| ==> Table[i].0 != Table[j].0
  {
  }

  /** The two sections are found by their segments. */
  lemma FindSections()
    ensures Lookup(Sections, "admin") == Some(AdminSection)
    ensures Lookup(Sections, "user") == Some(UserSection)
  {
    assert Sections[1..] == [("user", UserSection)];
  }

  /** Each admin child is found by its segment. */
  lemma FindAdminChildren()
    ensures Lookup(AdminSection.children, "city-info") == Some(CityInfoManagement)
    ensures Lookup(AdminSection.children, "public-services") == Some(PublicServicesManagement)
    ensures Lookup(AdminSection.children, "infrastructure") == Some(InfrastructureMonitoring)
  {
    var cs := AdminSection.children;
    assert cs[1..] == [cs[1], cs[2]] && cs[1..][1..] == [cs[2]];
  }

  /** Each user child is found by its segment. */
  lemma FindUserChildren()
    ensures Lookup(UserSection.children, "city-details") == Some(CityDetails)
    ensures Lookup(UserSection.children, "report-issue") == Some(ReportIssue)
    ensures Lookup(UserSection.children, "feedback") == Some(ProvideFeedback)
  {
    var cs := UserSection.children;
    assert cs[1..] == [cs[1], cs[2]] && cs[1..][1..] == [cs[2]];
  }

  /** The resolver agrees with the flat table on every entry. */
  lemma ResolveTableEntries()
    ensures forall i :: 0 <= i < |Table| ==> Resolve(Table[i].0) == Table[i].1
  {
    forall i | 0 <= i < |Table|
      ensures Resolve(Table[i].0) == Table[i].1
    {
      if 1 <= i <= 4 {
        AdminRoutes();
      } else if 5 <= i {
        UserRoutes();
      }
    }
  }

  /** The admin section's four paths. */
  lemma AdminRoutes()
    ensures Resolve(["admin"]) == Screen(AdminDashboard, CityInfoManagement)
    ensures Resolve(["admin", "city-info"]) == Screen(AdminDashboard, CityInfoManagement)
    ensures Resolve(["admin", "public-services"]) == Screen(AdminDashboard, PublicServicesManagement)
    ensures Resolve(["admin", "infrastructure"]) == Screen(AdminDashboard, InfrastructureMonitoring)
  {
    FindSections();
    FindAdminChildren();
  }

  /** The user section's four paths. */
  lemma UserRoutes()
    ensures Resolve(["user"]) == Screen(UserDashboard, CityDetails)
    ensures Resolve(["user", "city-details"]) == Screen(UserDashboard, CityDetails)
    ensures Resolve(["user", "report-issue"]) == Screen(UserDashboard, ReportIssue)
    ensures Resolve(["user", "feedback"]) == Screen(UserDashboard, ProvideFeedback)
  {
    FindSections();
    FindUserChildren();
  }

  /** Whatever the resolver finds besides the catch-all is a table entry. */
  lemma ResolvedIsInTable(path: Path)
    requires Resolve(path) != Missing
    ensures exists i :: 0 <= i < |Table| && Table[i].0 == path && Table[i].1 == Resolve(path)
  {
    ResolveTableEntries();
    if |path| == 0 {
      assert Table[0].0 == path;
    } else {
      var s := Lookup(Sections, path[0]).value;
      assert (path[0], s) in Sections;
      if |path| == 1 {
        assert path == [path[0]];
        if s == AdminSection {
          assert Table[1].0 == path;
        } else {
          assert Table[5].0 == path;
        }
      } else {
        assert path == [path[0], path[1]];
        var c := (path[1], Lookup(s.children, path[1]).value);
        assert c in s.children;
        if s == AdminSection {
          AdminEntry(path, c);
        } else {
          UserEntry(path, c);
        }
      }
    }
  }

  lemma AdminEntry(path: Path, c: (string, PageName))
    requires path == ["admin", c.0] && c in AdminSection.children
    ensures exists i :: 0 <= i < |Table| && Table[i].0 == path && Table[i].1 == Screen(AdminDashboard, c.1)
  {
    var cs := AdminSection.children;
    if c == cs[0] {
      assert Table[2].0 == path;
    } else if c == cs[1] {
      assert Table[3].0 == path;
    } else {
      assert Table[4].0 == path;
    }
  }

  lemma UserEntry(path: Path, c: (string, PageName))
    requires path == ["user", c.0] && c in UserSection.children
    ensures exists i :: 0 <= i < |Table| && Table[i].0 == path && Table[i].1 == Screen(UserDashboard, c.1)
  {
    var cs := UserSection.children;
    if c == cs[0] {
      assert Table[6].0 == path;
    } else if c == cs[1] {
      assert Table[7].0 == path;
    } else {
      assert Table[8].0 == path;
    }
  }

  /** Every path outside the table reaches the catch-all; with the two
      lemmas above, the resolver is exactly a table lookup with `Missing` as
      its default. */
  lemma ResolveOutsideTable(path: Path)
    requires !InTable(path)
    ensures Resolve(path) == Missing
  {
    if Resolve(path) != Missing {
      ResolvedIsInTable(path);
    }
  }

  /** The section index and its explicit child name reach the same page. */
  lemma SectionRootsAlias()
    ensures Resolve(["admin"]) == Resolve(["admin", "city-info"]) == Screen(AdminDashboard, CityInfoManagement)
    ensures Resolve(["user"]) == Resolve(["user", "city-details"]) == Screen(UserDashboard, CityDetails)
  {
    AdminRoutes();
    UserRoutes();
  }

  /** A section page reached through a deeper or unknown path is not found,
      and is rendered outside the dashboard. */
  lemma UnknownSectionChild(section: string, rest: Path)
    requires section == "admin" || section == "user"
    requires |rest| >= 2
    ensures Resolve([section] + rest) == Missing
  {
  }
}
