/** The admin "Public Services Management" page: a directory of services that
    the administrator can append to, delete from, and whose status can be
    switched. Each handler is a pure transition of the page state. */
module PublicServices {
  import opened Optional
  import opened Toasts
  import opened Seqs

  datatype Status = Operational | Maintenance | Offline

  datatype Service = Service(
    id: string,
    name: string,
    category: string,
    status: Status,
    location: string,
    contact: string,
    hours: string,
    description: string)

  /** The add dialog's `Partial<Service>`: every field may still be missing.
      The dialog never sets an id; one is supplied when the service is added. */
  datatype Draft = Draft(
    name: Option<string>,
    category: Option<string>,
    status: Option<Status>,
    location: Option<string>,
    contact: Option<string>,
    hours: Option<string>,
    description: Option<string>)

  /** The draft the page starts with and returns to after an add. */
  const FreshDraft: Draft := Draft(None, None, Some(Operational), None, None, None, None)

  datatype Page = Page(services: seq<Service>, draft: Draft, dialogOpen: bool)

  const CityHospital: Service :=
    Service("1", "City Hospital", "Healthcare", Operational, "123 Medical Drive",
            "(555) 123-4567", "24/7", "Emergency and general medical services")
  const PoliceStation: Service :=
    Service("2", "Central Police Station", "Public Safety", Operational, "456 Safety Boulevard",
            "(555) 987-6543", "24/7", "Law enforcement and emergency response")
  const FireDepartment: Service :=
    Service("3", "Fire Department HQ", "Public Safety", Operational, "789 Fire Lane",
            "(555) 246-8135", "24/7", "Fire prevention and emergency services")
  const Library: Service :=
    Service("4", "City Library", "Education", Operational, "321 Knowledge Street",
            "(555) 369-2580", "Mon-Sat 9AM-9PM", "Public library with extensive collection")
  const WaterPlant: Service :=
    Service("5", "Water Treatment Plant", "Utilities", Maintenance, "654 River Road",
            "(555) 147-2589", "24/7", "Water purification and distribution")

  /** The directory the page starts with. */
  const Seed: seq<Service> := [CityHospital, PoliceStation, FireDepartment, Library, WaterPlant]

  const Initial: Page := Page(Seed, FreshDraft, false)

  /** JavaScript truthiness of an optional string: present and non-empty. */
  predicate Filled(field: Option<string>) {
    field.Some? && field.value != ""
  }

  /** The fields the add handler insists on. */
  predicate Addable(d: Draft) {
    Filled(d.name) && Filled(d.category)
  }

  /** The record the add handler builds from a draft that passed validation. */
  function NewService(d: Draft, id: string): (s: Service)
    requires Addable(d)
    ensures s.id == id
    ensures Some(s.name) == d.name && Some(s.category) == d.category
    ensures d.status.None? ==> s.status == Operational
    ensures d.status.Some? ==> s.status == d.status.value
    ensures s.location == (if d.location.Some? then d.location.value else "")
    ensures s.contact == (if d.contact.Some? then d.contact.value else "")
    ensures s.hours == (if d.hours.Some? then d.hours.value else "")
    ensures s.description == (if d.description.Some? then d.description.value else "")
  {
    Service(id, d.name.value, d.category.value, Fallback(d.status, Operational),
            Fallback(d.location, ""), Fallback(d.contact, ""), Fallback(d.hours, ""),
            Fallback(d.description, ""))
  }

  /** The handler's `field || fallback` on a draft field. The fallbacks for
      the text fields are "", so an empty entry and a missing one read alike. */
  function Fallback<T>(field: Option<T>, fallback: T): T {
    if field.Some? then field.value else fallback
  }

  /** `handleAddService`, with `id` standing for `Date.now().toString()`. */
  function AddService(p: Page, id: string): (r: (Page, Toast))
    ensures !Addable(p.draft) ==> r.0 == p && r.1 == NoToast
    ensures Addable(p.draft) ==>
      && |r.0.services| == |p.services| + 1
      && r.0.services[..|p.services|] == p.services
      && r.0.services[|p.services|] == NewService(p.draft, id)
      && r.0.draft == FreshDraft
      && !r.0.dialogOpen
      && r.1 == Success("Service added successfully")
  {
    if Addable(p.draft) then
      (Page(p.services + [NewService(p.draft, id)], FreshDraft, false),
       Success("Service added successfully"))
    else
      (p, NoToast)
  }

  /** The filter predicate of `handleDeleteService`. */
  function OtherId(id: string): Service -> bool {
    (s: Service) => s.id != id
  }

  /** `handleDeleteService`: every record carrying `id` goes, the rest stay in
      order. Ids come from a clock and need not be unique. */
  function DeleteService(p: Page, id: string): (r: (Page, Toast))
    ensures forall s :: s in r.0.services <==> s in p.services && s.id != id
    ensures IsSubsequence(r.0.services, p.services)
    ensures r.0.draft == p.draft && r.0.dialogOpen == p.dialogOpen
    ensures r.1 == Success("Service deleted")
  {
    FilterMembership(p.services, OtherId(id));
    FilterIsSubsequence(p.services, OtherId(id));
    (p.(services := Filter(p.services, OtherId(id))), Success("Service deleted"))
  }

  /** Deleting an id no record carries leaves the list identical. */
  lemma DeleteAbsent(p: Page, id: string)
    requires forall s :: s in p.services ==> s.id != id
    ensures DeleteService(p, id).0 == p
  {
    FilterAll(p.services, OtherId(id));
  }

  /** The records a delete of `id` removes. */
  function SameId(id: string): Service -> bool {
    (s: Service) => s.id == id
  }

  /** How many records carry `id`. */
  function CountId(services: seq<Service>, id: string): nat {
    |Filter(services, SameId(id))|
  }

  /** Delete shrinks the list by the number of records carrying the id: by
      exactly one when the id is unique, by none when it is absent. */
  lemma DeleteRemovesEveryCopy(p: Page, id: string)
    ensures |DeleteService(p, id).0.services| == |p.services| - CountId(p.services, id)
    ensures CountId(p.services, id) == 1 ==> |DeleteService(p, id).0.services| == |p.services| - 1
  {
    FilterPartition(p.services, SameId(id), OtherId(id));
  }

  /** The record `s` after `handleStatusChange(id, status)` has looked at it. */
  function Restatus(s: Service, id: string, status: Status): Service {
    if s.id == id then s.(status := status) else s
  }

  /** Every record after `handleStatusChange(id, status)` has looked at it. */
  function RestatusAll(services: seq<Service>, id: string, status: Status): (r: seq<Service>)
    ensures |r| == |services|
    ensures forall i :: 0 <= i < |services| ==> r[i] == Restatus(services[i], id, status)
  {
    seq(|services|, i requires 0 <= i < |services| => Restatus(services[i], id, status))
  }

  /** `handleStatusChange`: the list keeps its length and order; a record
      carrying `id` gets the new status and keeps every other field; the
      other records are untouched. */
  function ChangeStatus(p: Page, id: string, status: Status): (r: (Page, Toast))
    ensures |r.0.services| == |p.services|
    ensures forall i :: 0 <= i < |p.services| ==>
      && r.0.services[i].(status := p.services[i].status) == p.services[i]
      && (p.services[i].id == id ==> r.0.services[i].status == status)
      && (p.services[i].id != id ==> r.0.services[i] == p.services[i])
    ensures r.0.draft == p.draft && r.0.dialogOpen == p.dialogOpen
    ensures r.1 == Success("Status updated")
  {
    (p.(services := RestatusAll(p.services, id, status)), Success("Status updated"))
  }

  /** Changing a status twice to the same value is the same as once. */
  lemma ChangeStatusIdempotent(p: Page, id: string, status: Status)
    ensures ChangeStatus(ChangeStatus(p, id, status).0, id, status).0 == ChangeStatus(p, id, status).0
  {
    var once := ChangeStatus(p, id, status).0;
    var twice := ChangeStatus(once, id, status).0;
    assert twice.services == once.services;
  }

  /** An id no record carries leaves the list identical. */
  lemma ChangeStatusAbsent(p: Page, id: string, status: Status)
    requires forall s :: s in p.services ==> s.id != id
    ensures ChangeStatus(p, id, status).0 == p
  {
    var r := ChangeStatus(p, id, status).0;
    forall i | 0 <= i < |p.services|
      ensures r.services[i] == p.services[i]
    {
      assert p.services[i] in p.services;
    }
    assert r.services == p.services;
  }

  /** Deleting an id discards any status change made to it before. */
  lemma DeleteAfterChangeStatus(p: Page, id: string, status: Status)
    ensures DeleteService(ChangeStatus(p, id, status).0, id).0 == DeleteService(p, id).0
  {
    RestatusThenDelete(p.services, id, status);
  }

  lemma {:induction false} RestatusThenDelete(services: seq<Service>, id: string, status: Status)
    ensures Filter(RestatusAll(services, id, status), OtherId(id)) == Filter(services, OtherId(id))
    decreases |services|
  {
    if |services| > 0 {
      var changed := RestatusAll(services, id, status);
      var rest := RestatusAll(services[1..], id, status);
      assert changed == [changed[0]] + rest;
      RestatusThenDelete(services[1..], id, status);
    }
  }

  /** The draft fields the dialog's inputs write. */
  datatype DraftField = Name | Category | Location | Contact | Hours | Description

  /** An `onChange` of one dialog input: that field becomes the typed text. */
  function EditDraft(p: Page, field: DraftField, value: string): (r: Page)
    ensures r.services == p.services && r.dialogOpen == p.dialogOpen
    ensures r.draft.status == p.draft.status
    ensures field == Name ==> r.draft == p.draft.(name := Some(value))
    ensures field == Category ==> r.draft == p.draft.(category := Some(value))
    ensures field == Location ==> r.draft == p.draft.(location := Some(value))
    ensures field == Contact ==> r.draft == p.draft.(contact := Some(value))
    ensures field == Hours ==> r.draft == p.draft.(hours := Some(value))
    ensures field == Description ==> r.draft == p.draft.(description := Some(value))
  {
    var d := p.draft;
    var d' := match field
      case Name => d.(name := Some(value))
      case Category => d.(category := Some(value))
      case Location => d.(location := Some(value))
      case Contact => d.(contact := Some(value))
      case Hours => d.(hours := Some(value))
      case Description => d.(description := Some(value));
    p.(draft := d')
  }

  /** The dialog's `onOpenChange`: opening or closing keeps the draft. */
  function SetDialogOpen(p: Page, open: bool): (r: Page)
    ensures r.dialogOpen == open
    ensures r.services == p.services && r.draft == p.draft
  {
    p.(dialogOpen := open)
  }

  /** A rejected add emits nothing and is invisible: the dialog stays open. */
  lemma RejectedAddKeepsDialog(p: Page, id: string)
    requires p.dialogOpen && !Addable(p.draft)
    ensures AddService(p, id).0.dialogOpen
    ensures AddService(p, id).0.services == p.services
  {
  }

  /** Filling in name and category from the fresh draft is enough to add;
      the new record is operational with empty optional fields. */
  lemma AddFromFreshDraft(services: seq<Service>, name: string, category: string, id: string)
    requires name != "" && category != ""
    ensures var p := EditDraft(EditDraft(Page(services, FreshDraft, true), Name, name), Category, category);
            var r := AddService(p, id).0;
            r.services == services + [Service(id, name, category, Operational, "", "", "", "")]
  {
  }
}
