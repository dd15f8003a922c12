/** The admin "City Information Management" page: a record of city facts that
    can be edited only after the Edit button has switched the page into edit
    mode; the same button then saves and switches back. */
module CityInfo {
  import opened Toasts

  datatype CityData = CityData(
    name: string,
    population: string,
    area: string,
    mayor: string,
    established: string,
    description: string,
    timezone: string,
    website: string)

  const Seed: CityData := CityData(
    "Metropolitan City",
    "2,500,000",
    "1,500 sq km",
    "Jane Smith",
    "1850",
    "A vibrant metropolitan city known for its cultural diversity, thriving economy, and modern "
      + "infrastructure. Home to leading technology companies, world-class universities, and "
      + "historic landmarks.",
    "GMT-5",
    "www.metropolitancity.gov")

  /** `isEditing` and `cityData`. */
  datatype Page = Page(editing: bool, data: CityData)

  /** The page opens in viewing mode with the seed record. */
  const Initial: Page := Page(false, Seed)

  /** The page's eight inputs. */
  datatype Field = Name | Population | Area | Mayor | Established | Description | Timezone | Website

  function Get(d: CityData, f: Field): string {
    match f
    case Name => d.name
    case Population => d.population
    case Area => d.area
    case Mayor => d.mayor
    case Established => d.established
    case Description => d.description
    case Timezone => d.timezone
    case Website => d.website
  }

  /** `setCityData({ ...cityData, f: value })`: the field becomes `value`, every
      other field keeps its value. */
  function Set(d: CityData, f: Field, value: string): (r: CityData)
    ensures Get(r, f) == value
    ensures forall g :: g != f ==> Get(r, g) == Get(d, g)
  {
    match f
    case Name => d.(name := value)
    case Population => d.(population := value)
    case Area => d.(area := value)
    case Mayor => d.(mayor := value)
    case Established => d.(established := value)
    case Description => d.(description := value)
    case Timezone => d.(timezone := value)
    case Website => d.(website := value)
  }

  /** Two records that agree on every field are equal. */
  lemma FieldsDetermineData(a: CityData, b: CityData)
    requires forall f :: Get(a, f) == Get(b, f)
    ensures a == b
  {
    assert Get(a, Name) == Get(b, Name) && Get(a, Population) == Get(b, Population);
    assert Get(a, Area) == Get(b, Area) && Get(a, Mayor) == Get(b, Mayor);
    assert Get(a, Established) == Get(b, Established) && Get(a, Description) == Get(b, Description);
    assert Get(a, Timezone) == Get(b, Timezone) && Get(a, Website) == Get(b, Website);
  }

  /** Writing back a field's own value changes nothing. */
  lemma SetOwnValue(d: CityData, f: Field)
    ensures Set(d, f, Get(d, f)) == d
  {
    FieldsDetermineData(Set(d, f, Get(d, f)), d);
  }

  /** The later of two writes to one field wins. */
  lemma SetTwice(d: CityData, f: Field, v1: string, v2: string)
    ensures Set(Set(d, f, v1), f, v2) == Set(d, f, v2)
  {
    FieldsDetermineData(Set(Set(d, f, v1), f, v2), Set(d, f, v2));
  }

  /** The Edit / Save button: from viewing it enters edit mode; in edit mode it
      saves, which only announces success and leaves edit mode. */
  function Press(p: Page): (r: (Page, Toast))
    ensures r.0.editing == !p.editing
    ensures r.0.data == p.data
    ensures !p.editing ==> r.1 == NoToast
    ensures p.editing ==> r.1 == Success("City information updated successfully")
  {
    if p.editing then
      (p.(editing := false), Success("City information updated successfully"))
    else
      (p.(editing := true), NoToast)
  }

  /** An input's `onChange`. The inputs are disabled while viewing, so a
      keystroke then reaches no handler and the page is unchanged. */
  function Type(p: Page, f: Field, value: string): (r: Page)
    ensures r.editing == p.editing
    ensures p.editing ==> Get(r.data, f) == value
    ensures forall g :: g != f ==> Get(r.data, g) == Get(p.data, g)
    ensures !p.editing ==> r == p
  {
    if p.editing then p.(data := Set(p.data, f, value)) else p
  }

  /** Two presses from viewing come back to viewing with the data unchanged. */
  lemma PressTwice(p: Page)
    requires !p.editing
    ensures Press(Press(p).0).0 == p
  {
  }

  datatype Event = PressButton | TypeInto(field: Field, value: string)

  function Step(p: Page, e: Event): Page {
    match e
    case PressButton => Press(p).0
    case TypeInto(f, value) => Type(p, f, value)
  }

  function Run(p: Page, events: seq<Event>): Page
    decreases |events|
  {
    if |events| == 0 then p else Run(Step(p, events[0]), events[1..])
  }

  /** Only edit mode lets a step change the data. */
  lemma DataChangesOnlyWhileEditing(p: Page, e: Event)
    requires Step(p, e).data != p.data
    ensures p.editing && e.TypeInto?
  {
  }

  /** Without a press of the button, a viewing page ignores every keystroke. */
  lemma {:induction false} ViewingIgnoresTyping(p: Page, events: seq<Event>)
    requires !p.editing
    requires forall i :: 0 <= i < |events| ==> events[i].TypeInto?
    ensures Run(p, events) == p
    decreases |events|
  {
    if |events| > 0 {
      assert Step(p, events[0]) == p;
      ViewingIgnoresTyping(p, events[1..]);
    }
  }

  /** Enter edit mode, type into one field, save: exactly that field changed
      and the page is back in viewing mode. */
  lemma EditOneField(p: Page, f: Field, value: string)
    requires !p.editing
    ensures var r := Run(p, [PressButton, TypeInto(f, value), PressButton]);
            r == Page(false, Set(p.data, f, value))
  {
    var events := [PressButton, TypeInto(f, value), PressButton];
    var p1 := Press(p).0;
    var p2 := Type(p1, f, value);
    var p3 := Press(p2).0;
    assert Run(p3, []) == p3;
    assert Run(p2, events[2..]) == p3 by { assert events[2..][1..] == []; }
    assert Run(p1, events[1..]) == p3 by { assert events[1..][1..] == events[2..]; }
    assert p3 == Page(false, Set(p.data, f, value));
  }
}
