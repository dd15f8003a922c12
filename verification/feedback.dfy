/** The user "Provide Feedback" page: a list of feedback entries, newest
    first, a draft form with a five-star rating widget, and a submit handler
    that refuses a draft without text or without a rating. */
module Feedback {
  import opened Toasts

  datatype FeedbackStatus = Submitted | Reviewed

  datatype Entry = Entry(
    id: string,
    subject: string,
    category: string,
    rating: int,
    message: string,
    submittedDate: string,
    status: FeedbackStatus)

  /** The form's `newFeedback` state; a rating of 0 means no star chosen. */
  datatype Draft = Draft(subject: string, category: string, rating: int, message: string)

  /** The draft the page starts with and returns to after a submit. */
  const EmptyDraft: Draft := Draft("", "", 0, "")

  /** The entries, the draft and `hoveredRating` (0 when no star is hovered). */
  datatype Page = Page(feedbacks: seq<Entry>, draft: Draft, hovered: int)

  const Transportation: Entry :=
    Entry("1", "Excellent Public Transportation", "Transportation", 5,
          "The new bus routes have significantly improved my daily commute. Thank you!",
          "2026-02-15", Reviewed)
  const ParkMaintenance: Entry :=
    Entry("2", "Park Maintenance", "Parks & Recreation", 4,
          "Central Park looks beautiful, but could use more benches.", "2026-02-18", Submitted)

  const Initial: Page := Page([Transportation, ParkMaintenance], EmptyDraft, 0)

  /** The handler's guard: subject, category and message are non-empty and a
      star has been chosen. */
  predicate Acceptable(d: Draft) {
    d.subject != "" && d.category != "" && d.message != "" && d.rating != 0
  }

  /** `handleSubmit`, with `id` standing for `Date.now().toString()` and `date`
      for today's ISO date. */
  function Submit(p: Page, id: string, date: string): (r: (Page, Toast))
    ensures !Acceptable(p.draft) ==>
      r.0 == p && r.1 == Error("Please fill in all required fields and provide a rating")
    ensures Acceptable(p.draft) ==>
      && |r.0.feedbacks| == |p.feedbacks| + 1
      && r.0.feedbacks[1..] == p.feedbacks
      && r.0.feedbacks[0].id == id
      && r.0.feedbacks[0].submittedDate == date
      && r.0.feedbacks[0].status == Submitted
      && r.0.feedbacks[0].subject == p.draft.subject
      && r.0.feedbacks[0].category == p.draft.category
      && r.0.feedbacks[0].rating == p.draft.rating
      && r.0.feedbacks[0].message == p.draft.message
      && r.0.draft == EmptyDraft
      && r.0.hovered == p.hovered
      && r.1 == Success("Thank you for your feedback!")
  {
    if !Acceptable(p.draft) then
      (p, Error("Please fill in all required fields and provide a rating"))
    else
      var d := p.draft;
      var entry := Entry(id, d.subject, d.category, d.rating, d.message, date, Submitted);
      (p.(feedbacks := [entry] + p.feedbacks, draft := EmptyDraft),
       Success("Thank you for your feedback!"))
  }

  /** The form's text inputs and category select. */
  datatype DraftField = Subject | Category | Message

  function EditDraft(p: Page, field: DraftField, value: string): (r: Page)
    ensures r.feedbacks == p.feedbacks && r.hovered == p.hovered
    ensures r.draft.rating == p.draft.rating
    ensures field == Subject ==> r.draft == p.draft.(subject := value)
    ensures field == Category ==> r.draft == p.draft.(category := value)
    ensures field == Message ==> r.draft == p.draft.(message := value)
  {
    var d := p.draft;
    var d' := match field
      case Subject => d.(subject := value)
      case Category => d.(category := value)
      case Message => d.(message := value);
    p.(draft := d')
  }

  /** The stars are numbered 1 to 5. */
  type StarNumber = n: int | 1 <= n <= 5 witness 1

  /** A star's `onClick`; only the form's widget is interactive, the stars
      shown on listed entries ignore clicks. */
  function ClickStar(p: Page, star: StarNumber, interactive: bool): (r: Page)
    ensures interactive ==> r == p.(draft := p.draft.(rating := star))
    ensures !interactive ==> r == p
  {
    if interactive then p.(draft := p.draft.(rating := star)) else p
  }

  /** A star's `onMouseEnter`. */
  function HoverStar(p: Page, star: StarNumber, interactive: bool): (r: Page)
    ensures interactive ==> r == p.(hovered := star)
    ensures !interactive ==> r == p
  {
    if interactive then p.(hovered := star) else p
  }

  /** A star's `onMouseLeave`. */
  function LeaveStar(p: Page, interactive: bool): (r: Page)
    ensures interactive ==> r == p.(hovered := 0)
    ensures !interactive ==> r == p
  {
    if interactive then p.(hovered := 0) else p
  }

  /** Everything a user can do on the page. */
  datatype Event =
    | Edit(field: DraftField, value: string)
    | Click(star: StarNumber, interactive: bool)
    | Hover(star: StarNumber, interactive: bool)
    | Leave(interactive: bool)
    | SubmitForm(id: string, date: string)

  function Step(p: Page, e: Event): Page {
    match e
    case Edit(field, value) => EditDraft(p, field, value)
    case Click(star, interactive) => ClickStar(p, star, interactive)
    case Hover(star, interactive) => HoverStar(p, star, interactive)
    case Leave(interactive) => LeaveStar(p, interactive)
    case SubmitForm(id, date) => Submit(p, id, date).0
  }

  function Run(p: Page, events: seq<Event>): Page
    decreases |events|
  {
    if |events| == 0 then p else Run(Step(p, events[0]), events[1..])
  }

  /** The rating invariant: the draft and hover ratings lie in 0..5 and every
      listed entry carries 1..5 stars. */
  predicate Valid(p: Page) {
    && 0 <= p.draft.rating <= 5
    && 0 <= p.hovered <= 5
    && forall i :: 0 <= i < |p.feedbacks| ==> 1 <= p.feedbacks[i].rating <= 5
  }

  lemma InitialValid()
    ensures Valid(Initial)
  {
  }

  lemma StepKeepsValid(p: Page, e: Event)
    requires Valid(p)
    ensures Valid(Step(p, e))
  {
    if e.SubmitForm? && Acceptable(p.draft) {
      var q := Step(p, e);
      forall i | 0 <= i < |q.feedbacks|
        ensures 1 <= q.feedbacks[i].rating <= 5
      {
        if i > 0 {
          assert q.feedbacks[i] == p.feedbacks[i - 1];
        }
      }
    }
  }

  /** Whatever the user does, the invariant holds: no input can put a rating
      outside 0..5 in the form or outside 1..5 in the list. */
  lemma {:induction false} RunKeepsValid(p: Page, events: seq<Event>)
    requires Valid(p)
    ensures Valid(Run(p, events))
    decreases |events|
  {
    if |events| > 0 {
      StepKeepsValid(p, events[0]);
      RunKeepsValid(Step(p, events[0]), events[1..]);
    }
  }

  /** Choosing a star and filling in the text is enough to submit; the entry
      records the star chosen last. */
  lemma ClickThenSubmit(p: Page, star: StarNumber, id: string, date: string)
    requires p.draft.subject != "" && p.draft.category != "" && p.draft.message != ""
    ensures var r := Submit(ClickStar(p, star, true), id, date);
            r.1.Success? && r.0.feedbacks[0].rating == star
  {
  }

  /** Without a star the submit is refused, however complete the text is. */
  lemma NoStarRefused(p: Page, id: string, date: string)
    requires p.draft.rating == 0
    ensures Submit(p, id, date).0 == p
    ensures Submit(p, id, date).1.Error?
  {
  }

  /** The rating the star widget draws: on the form, the hovered star if any,
      otherwise the chosen one; on a listed entry, that entry's rating. */
  function ShownRating(p: Page, interactive: bool, rating: int): (shown: int)
    ensures Valid(p) && interactive ==> 0 <= shown <= 5
    ensures interactive && p.hovered == 0 ==> shown == p.draft.rating
    ensures interactive && p.hovered != 0 ==> shown == p.hovered
    ensures !interactive ==> shown == rating
  {
    if interactive then (if p.hovered != 0 then p.hovered else p.draft.rating) else rating
  }

  /** `renderStars`: star `k + 1` is filled when it does not exceed the shown
      rating. There are always five stars, and the filled ones form an
      unbroken run from the left. */
  function Stars(shown: int): (stars: seq<bool>)
    ensures |stars| == 5
    ensures forall j, k :: 0 <= j <= k < 5 && stars[k] ==> stars[j]
    ensures stars[0] <==> shown >= 1
  {
    seq(5, k requires 0 <= k < 5 => k + 1 <= shown)
  }

  /** How many stars are filled. */
  function FilledCount(stars: seq<bool>): nat
    decreases |stars|
  {
    if |stars| == 0 then 0 else (if stars[0] then 1 else 0) + FilledCount(stars[1..])
  }

  /** For a shown rating `r` in 0..5 the filled stars are exactly the first
      `r`, so exactly `r` stars are filled. */
  lemma StarsShowRating(r: int)
    requires 0 <= r <= 5
    ensures forall k :: 0 <= k < r ==> Stars(r)[k]
    ensures forall k :: r <= k < 5 ==> !Stars(r)[k]
    ensures FilledCount(Stars(r)) == r
  {
    assert Stars(r) == StarRow(r, 5 - r);
    FilledStarRow(r, 5 - r);
  }

  /** `filled` filled stars followed by `empty` empty ones. */
  function StarRow(filled: nat, empty: nat): (stars: seq<bool>)
    ensures |stars| == filled + empty
  {
    seq(filled + empty, k requires 0 <= k < filled + empty => k < filled)
  }

  lemma {:induction false} FilledStarRow(filled: nat, empty: nat)
    ensures FilledCount(StarRow(filled, empty)) == filled
    decreases filled + empty
  {
    if filled + empty > 0 {
      var stars := StarRow(filled, empty);
      if filled > 0 {
        assert stars[1..] == StarRow(filled - 1, empty);
        FilledStarRow(filled - 1, empty);
      } else {
        assert stars[1..] == StarRow(0, empty - 1);
        FilledStarRow(0, empty - 1);
      }
    }
  }

  /** Hovering previews a rating without choosing it: leaving the star shows
      the chosen rating again and the draft never changed. */
  lemma HoverIsPreview(p: Page, star: StarNumber)
    ensures ShownRating(HoverStar(p, star, true), true, 0) == star
    ensures HoverStar(p, star, true).draft == p.draft
    ensures ShownRating(LeaveStar(HoverStar(p, star, true), true), true, 0) == p.draft.rating
  {
  }
}
