/** The user "Report Issue" page: a list of reported issues, newest first, and
    a draft form whose submit handler validates four fields and prepends a new
    pending issue. */
module ReportIssue {
  import opened Toasts
  import opened Seqs

  datatype Priority = Low | Medium | High

  datatype IssueStatus = Pending | InProgress | Resolved

  datatype Issue = Issue(
    id: string,
    title: string,
    category: string,
    priority: Priority,
    status: IssueStatus,
    description: string,
    location: string,
    reportedDate: string)

  /** The form's `newIssue` state. */
  datatype Draft = Draft(
    title: string,
    category: string,
    priority: Priority,
    description: string,
    location: string)

  /** The draft the page starts with and returns to after a submit. */
  const EmptyDraft: Draft := Draft("", "", Medium, "", "")

  datatype Page = Page(issues: seq<Issue>, draft: Draft)

  const StreetLight: Issue :=
    Issue("1", "Broken Street Light", "Infrastructure", Medium, InProgress,
          "Street light on Main Street is not working", "Main Street, Block 5", "2026-02-20")
  const Pothole: Issue :=
    Issue("2", "Pothole on Highway", "Roads", High, Pending,
          "Large pothole causing traffic issues", "Highway 101, Mile 15", "2026-02-22")

  const Initial: Page := Page([StreetLight, Pothole], EmptyDraft)

  /** The handler's guard: every field but the priority is non-empty. */
  predicate Complete(d: Draft) {
    d.title != "" && d.category != "" && d.description != "" && d.location != ""
  }

  /** `handleSubmit`, with `id` standing for `Date.now().toString()` and `date`
      for today's ISO date. */
  function Submit(p: Page, id: string, date: string): (r: (Page, Toast))
    ensures !Complete(p.draft) ==>
      r.0 == p && r.1 == Error("Please fill in all required fields")
    ensures Complete(p.draft) ==>
      && |r.0.issues| == |p.issues| + 1
      && r.0.issues[1..] == p.issues
      && r.0.issues[0].id == id
      && r.0.issues[0].reportedDate == date
      && r.0.issues[0].status == Pending
      && r.0.issues[0].title == p.draft.title
      && r.0.issues[0].category == p.draft.category
      && r.0.issues[0].priority == p.draft.priority
      && r.0.issues[0].description == p.draft.description
      && r.0.issues[0].location == p.draft.location
      && r.0.draft == EmptyDraft
      && r.1 == Success("Issue reported successfully! We will address it soon.")
  {
    if !Complete(p.draft) then
      (p, Error("Please fill in all required fields"))
    else
      var d := p.draft;
      var issue := Issue(id, d.title, d.category, d.priority, Pending, d.description, d.location, date);
      (Page([issue] + p.issues, EmptyDraft), Success("Issue reported successfully! We will address it soon."))
  }

  /** The form's text inputs. */
  datatype DraftField = Title | Category | Description | Location

  /** An `onChange` of one text input or the category select. */
  function EditDraft(p: Page, field: DraftField, value: string): (r: Page)
    ensures r.issues == p.issues
    ensures r.draft.priority == p.draft.priority
    ensures field == Title ==> r.draft == p.draft.(title := value)
    ensures field == Category ==> r.draft == p.draft.(category := value)
    ensures field == Description ==> r.draft == p.draft.(description := value)
    ensures field == Location ==> r.draft == p.draft.(location := value)
  {
    var d := p.draft;
    var d' := match field
      case Title => d.(title := value)
      case Category => d.(category := value)
      case Description => d.(description := value)
      case Location => d.(location := value);
    p.(draft := d')
  }

  /** The priority select's `onValueChange`. */
  function ChoosePriority(p: Page, priority: Priority): (r: Page)
    ensures r.issues == p.issues
    ensures r.draft == p.draft.(priority := priority)
  {
    p.(draft := p.draft.(priority := priority))
  }

  /** Everything a user can do on the page. */
  datatype Event =
    | Edit(field: DraftField, value: string)
    | Choose(priority: Priority)
    | SubmitForm(id: string, date: string)

  function Step(p: Page, e: Event): Page {
    match e
    case Edit(field, value) => EditDraft(p, field, value)
    case Choose(priority) => ChoosePriority(p, priority)
    case SubmitForm(id, date) => Submit(p, id, date).0
  }

  function Run(p: Page, events: seq<Event>): Page
    decreases |events|
  {
    if |events| == 0 then p else Run(Step(p, events[0]), events[1..])
  }

  /** `after` is `before` with new pending issues in front. */
  predicate Extends(before: seq<Issue>, after: seq<Issue>) {
    IsSuffix(before, after) && forall i :: 0 <= i < |after| - |before| ==> after[i].status == Pending
  }

  lemma ExtendsTransitive(a: seq<Issue>, b: seq<Issue>, c: seq<Issue>)
    requires Extends(a, b) && Extends(b, c)
    ensures Extends(a, c)
  {
    assert c[|c| - |b|..][|b| - |a|..] == c[|c| - |a|..];
    forall i | |c| - |b| <= i < |c| - |a|
      ensures c[i].status == Pending
    {
      assert c[|c| - |b|..][i - (|c| - |b|)] == c[i];
    }
  }

  lemma StepExtends(p: Page, e: Event)
    ensures Extends(p.issues, Step(p, e).issues)
  {
  }

  /** No handler touches an issue once it is listed: whatever the user does,
      the issues present before are still the tail of the list, fields and
      status unchanged, and everything in front of them is a new pending
      issue. */
  lemma {:induction false} RunKeepsReportedIssues(p: Page, events: seq<Event>)
    ensures Extends(p.issues, Run(p, events).issues)
    decreases |events|
  {
    if |events| == 0 {
      assert Extends(p.issues, p.issues);
    } else {
      var q := Step(p, events[0]);
      StepExtends(p, events[0]);
      RunKeepsReportedIssues(q, events[1..]);
      ExtendsTransitive(p.issues, q.issues, Run(q, events[1..]).issues);
    }
  }

  /** The priority is never checked: with the other four fields filled, any
      chosen priority is accepted and recorded. */
  lemma PriorityNeverValidated(p: Page, priority: Priority, id: string, date: string)
    requires Complete(p.draft)
    ensures var r := Submit(ChoosePriority(p, priority), id, date);
            r.1.Success? && r.0.issues[0].priority == priority
  {
  }

  /** Filling in the four fields from a fresh form is enough to report; the
      new issue has medium priority unless one is chosen. */
  lemma ReportFromEmptyDraft(issues: seq<Issue>, title: string, category: string,
                             description: string, location: string, id: string, date: string)
    requires title != "" && category != "" && description != "" && location != ""
    ensures var p := Page(issues, EmptyDraft);
            var filled := Run(p, [Edit(Title, title), Edit(Category, category),
                                  Edit(Description, description), Edit(Location, location)]);
            var r := Submit(filled, id, date);
            r.0 == Page([Issue(id, title, category, Medium, Pending, description, location, date)] + issues,
                        EmptyDraft)
  {
    var p := Page(issues, EmptyDraft);
    var events := [Edit(Title, title), Edit(Category, category),
                   Edit(Description, description), Edit(Location, location)];
    var p1 := EditDraft(p, Title, title);
    var p2 := EditDraft(p1, Category, category);
    var p3 := EditDraft(p2, Description, description);
    var p4 := EditDraft(p3, Location, location);
    assert Run(p4, []) == p4;
    assert Run(p3, events[3..]) == p4 by { assert events[3..][1..] == []; }
    assert Run(p2, events[2..]) == p4 by { assert events[2..][1..] == events[3..]; }
    assert Run(p1, events[1..]) == p4 by { assert events[1..][1..] == events[2..]; }
    assert Run(p, events) == p4;
    assert p4.draft == Draft(title, category, Medium, description, location);
  }

  /** A submit that is missing any one of the four fields is refused. */
  lemma MissingFieldRefused(p: Page, field: DraftField, id: string, date: string)
    ensures Submit(EditDraft(p, field, ""), id, date).0 == EditDraft(p, field, "")
  {
  }
}
