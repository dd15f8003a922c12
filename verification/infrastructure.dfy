/** The admin "Infrastructure Monitoring" page: a fixed list of readings
    (the page declares no setter for it), status tallies, per-category tabs and
    a capitalised status badge. */
module Infrastructure {
  import opened Seqs
  import opened Text

  datatype Status = Good | Warning | Critical

  datatype Item = Item(
    id: string,
    name: string,
    category: string,
    status: Status,
    capacity: int,
    usage: int,
    lastUpdated: string)

  const PowerGrid: Item := Item("1", "Power Grid", "Energy", Good, 100, 72, "2 minutes ago")
  const WaterSupply: Item := Item("2", "Water Supply", "Utilities", Good, 100, 65, "5 minutes ago")
  const Internet: Item :=
    Item("3", "Internet Connectivity", "Technology", Warning, 100, 88, "1 minute ago")
  const Traffic: Item :=
    Item("4", "Traffic Management", "Transportation", Good, 100, 54, "3 minutes ago")
  const Waste: Item := Item("5", "Waste Management", "Utilities", Good, 100, 45, "10 minutes ago")
  const StreetLighting: Item :=
    Item("6", "Street Lighting", "Energy", Critical, 100, 95, "1 minute ago")

  /** The readings the page shows. */
  const Items: seq<Item> := [PowerGrid, WaterSupply, Internet, Traffic, Waste, StreetLighting]

  /** Every seed reading is a percentage of a capacity of 100. */
  lemma SeedReadingsArePercentages()
    ensures forall i :: 0 <= i < |Items| ==>
      Items[i].capacity == 100 && 0 <= Items[i].usage <= 100
  {
  }

  function HasStatus(status: Status): Item -> bool {
    (item: Item) => item.status == status
  }

  /** `goodCount`, `warningCount`, `criticalCount`: how many items are in
      `status`. */
  function Count(items: seq<Item>, status: Status): (n: nat)
    ensures n <= |items|
    ensures n == 0 <==> forall i :: 0 <= i < |items| ==> items[i].status != status
  {
    CountZero(items, status);
    |Filter(items, HasStatus(status))|
  }

  lemma CountZero(items: seq<Item>, status: Status)
    ensures |Filter(items, HasStatus(status))| == 0
        <==> forall i :: 0 <= i < |items| ==> items[i].status != status
  {
    if forall i :: 0 <= i < |items| ==> items[i].status != status {
      FilterNone(items, HasStatus(status));
    } else {
      var i :| 0 <= i < |items| && items[i].status == status;
      FilterKeeps(items, HasStatus(status), items[i]);
    }
  }

  /** The three tallies account for every item exactly once. */
  lemma {:induction false} CountsCoverItems(items: seq<Item>)
    ensures Count(items, Good) + Count(items, Warning) + Count(items, Critical) == |items|
    decreases |items|
  {
    if |items| > 0 {
      CountsCoverItems(items[1..]);
    }
  }

  /** The seed tallies shown on the page. */
  lemma SeedCounts()
    ensures Count(Items, Good) == 4
    ensures Count(Items, Warning) == 1
    ensures Count(Items, Critical) == 1
  {
    SeedWarnings();
    SeedCriticals();
    CountsCoverItems(Items);
  }

  /** Only the internet connection is in the warning state. */
  lemma SeedWarnings()
    ensures Filter(Items, HasStatus(Warning)) == [Internet]
  {
    FilterSingle(Items, HasStatus(Warning), 2);
  }

  /** Only the street lighting is critical. */
  lemma SeedCriticals()
    ensures Filter(Items, HasStatus(Critical)) == [StreetLighting]
  {
    FilterSingle(Items, HasStatus(Critical), 5);
  }

  /** The category tabs, after the "all" tab. */
  const Tabs: seq<string> := ["Energy", "Utilities", "Technology", "Transportation"]

  function InCategory(category: string): Item -> bool {
    (item: Item) => item.category == category
  }

  /** A category tab: exactly the items of that category, in list order. */
  function CategoryTab(items: seq<Item>, category: string): (r: seq<Item>)
    ensures forall x :: x in r <==> x in items && x.category == category
    ensures IsSubsequence(r, items)
  {
    FilterMembership(items, InCategory(category));
    FilterIsSubsequence(items, InCategory(category));
    Filter(items, InCategory(category))
  }

  /** The tab the page shows. */
  datatype Tab = All | Category(name: string)

  function Shown(items: seq<Item>, tab: Tab): (r: seq<Item>)
    ensures tab == All ==> r == items
    ensures tab.Category? ==> forall x :: x in r <==> x in items && x.category == tab.name
  {
    match tab
    case All => items
    case Category(name) => CategoryTab(items, name)
  }

  /** Every seed item belongs to one of the category tabs. */
  lemma SeedCategoriesAreTabs()
    ensures forall i :: 0 <= i < |Items| ==> Items[i].category in Tabs
  {
  }

  /** When every item's category is a tab, the four category tabs together
      hold every item exactly once. */
  lemma {:induction false} TabsPartitionItems(items: seq<Item>)
    requires forall i :: 0 <= i < |items| ==> items[i].category in Tabs
    ensures |CategoryTab(items, Tabs[0])| + |CategoryTab(items, Tabs[1])|
          + |CategoryTab(items, Tabs[2])| + |CategoryTab(items, Tabs[3])| == |items|
    decreases |items|
  {
    if |items| > 0 {
      assert items[0].category in Tabs;
      TabsPartitionItems(items[1..]);
    }
  }

  /** The four category tabs together show the "all" tab's items. */
  lemma SeedTabsCoverAll()
    ensures |CategoryTab(Items, "Energy")| + |CategoryTab(Items, "Utilities")|
          + |CategoryTab(Items, "Technology")| + |CategoryTab(Items, "Transportation")| == |Items|
    ensures forall x :: x in Items ==> exists t :: t in Tabs && x in CategoryTab(Items, t)
  {
    SeedCategoriesAreTabs();
    TabsPartitionItems(Items);
    forall x | x in Items
      ensures exists t :: t in Tabs && x in CategoryTab(Items, t)
    {
      assert x.category in Tabs && x in CategoryTab(Items, x.category);
    }
  }

  function StatusName(status: Status): string {
    match status
    case Good => "good"
    case Warning => "warning"
    case Critical => "critical"
  }

  /** The badge text: the status name with its first letter upper-cased. */
  function StatusLabel(status: Status): (badge: string)
    ensures |badge| == |StatusName(status)|
    ensures badge[0] == UpperChar(StatusName(status)[0])
    ensures badge[1..] == StatusName(status)[1..]
  {
    Capitalize(StatusName(status))
  }

  lemma StatusLabels()
    ensures StatusLabel(Good) == "Good"
    ensures StatusLabel(Warning) == "Warning"
    ensures StatusLabel(Critical) == "Critical"
  {
  }
}
