/** The user "City Details" page: a read-only service list narrowed by a
    case-insensitive search box. */
module CityDetails {
  import opened Seqs
  import opened Text
  import PublicServices

  type Service = PublicServices.Service

  /** The page's constant service list. The page declares its own copy, record
      for record the same as the admin page's starting directory. */
  const Catalogue: seq<Service> := PublicServices.Seed

  /** The search predicate: the lower-cased query occurs, at some offset, in
      the lower-cased name, category or description. Location, contact and
      hours are not searched. The empty query matches every service. */
  predicate Matches(s: Service, query: string)
    ensures query == "" ==> Matches(s, query)
    ensures Matches(s, query) <==>
      || (exists k :: OccursAt(Lower(s.name), Lower(query), k))
      || (exists k :: OccursAt(Lower(s.category), Lower(query), k))
      || (exists k :: OccursAt(Lower(s.description), Lower(query), k))
  {
    var q := Lower(query);
    ContainsIff(Lower(s.name), q);
    ContainsIff(Lower(s.category), q);
    ContainsIff(Lower(s.description), q);
    Contains(Lower(s.name), q) || Contains(Lower(s.category), q) || Contains(Lower(s.description), q)
  }

  function MatchesQuery(query: string): Service -> bool {
    (s: Service) => Matches(s, query)
  }

  /** `filteredServices`: the services the query matches, in list order. The
      empty query lists every service. */
  function Search(services: seq<Service>, query: string): (r: seq<Service>)
    ensures forall s :: s in r <==> s in services && Matches(s, query)
    ensures IsSubsequence(r, services)
    ensures query == "" ==> r == services
  {
    FilterMembership(services, MatchesQuery(query));
    FilterIsSubsequence(services, MatchesQuery(query));
    EmptyQueryMatchesAll(services, query);
    Filter(services, MatchesQuery(query))
  }

  lemma EmptyQueryMatchesAll(services: seq<Service>, query: string)
    ensures query == "" ==> Filter(services, MatchesQuery(query)) == services
  {
    if query == "" {
      FilterAll(services, MatchesQuery(query));
    }
  }

  /** Queries that differ only in letter case list the same services. */
  lemma SearchIgnoresCase(services: seq<Service>, q1: string, q2: string)
    requires Lower(q1) == Lower(q2)
    ensures Search(services, q1) == Search(services, q2)
  {
    FilterCongruent(services, MatchesQuery(q1), MatchesQuery(q2));
  }

  /** Typing more narrows the list: when `q1` occurs in `q2`, everything
      listed for `q2` is listed for `q1`, in the same order. */
  lemma SearchNarrows(services: seq<Service>, q1: string, q2: string)
    requires Contains(q2, q1)
    ensures IsSubsequence(Search(services, q2), Search(services, q1))
    ensures forall s :: s in Search(services, q2) ==> s in Search(services, q1)
  {
    LowerKeepsContains(q2, q1);
    forall s | s in services && Matches(s, q2)
      ensures Matches(s, q1)
    {
      if Contains(Lower(s.name), Lower(q2)) {
        ContainsTransitive(Lower(s.name), Lower(q2), Lower(q1));
      } else if Contains(Lower(s.category), Lower(q2)) {
        ContainsTransitive(Lower(s.category), Lower(q2), Lower(q1));
      } else {
        ContainsTransitive(Lower(s.description), Lower(q2), Lower(q1));
      }
    }
    FilterStronger(services, MatchesQuery(q2), MatchesQuery(q1));
  }

  /** On the page's list, "hospital" finds exactly the City Hospital. */
  lemma HospitalQuery()
    ensures Search(Catalogue, "hospital") == [PublicServices.CityHospital]
  {
    var q := "hospital";
    HospitalIsLower(q);
    var hospital := PublicServices.CityHospital;
    assert Lower(hospital.name) == "city hospital";
    assert OccursAt(Lower(hospital.name), q, 5);
    ContainsIff(Lower(hospital.name), q);
    assert Matches(hospital, q);
    forall i | 1 <= i < |Catalogue|
      ensures !Matches(Catalogue[i], q)
    {
      HospitalMisses(i);
    }
    FilterSingle(Catalogue, MatchesQuery(q), 0);
  }

  /** The query is already in lower case. */
  lemma HospitalIsLower(text: string)
    requires text == "hospital"
    ensures Lower(text) == text
  {
    forall i | 0 <= i < |text|
      ensures Lower(text)[i] == text[i]
    {
      assert 'a' <= text[i] <= 'z';
    }
  }

  /** None of the other four services mentions "hospital" in a searched field. */
  lemma HospitalMisses(i: int)
    requires 1 <= i < |Catalogue|
    ensures !Matches(Catalogue[i], "hospital")
  {
    HospitalIsLower("hospital");
    var s := Catalogue[i];
    if i == 1 {
      PoliceStationMisses(s.name, s.category, s.description);
    } else if i == 2 {
      FireDepartmentMisses(s.name, s.category, s.description);
    } else if i == 3 {
      LibraryMisses(s.name, s.category, s.description);
    } else {
      WaterPlantMisses(s.name, s.category, s.description);
    }
  }

  lemma PoliceStationMisses(name: string, category: string, description: string)
    requires name == "Central Police Station" && category == "Public Safety"
    requires description == "Law enforcement and emergency response"
    ensures !Contains(Lower(name), "hospital") && !Contains(Lower(category), "hospital")
    ensures !Contains(Lower(description), "hospital")
  {
    PoliceNameMisses(name);
    PublicSafetyMisses(category);
    PoliceDescriptionMisses(description);
  }

  lemma FireDepartmentMisses(name: string, category: string, description: string)
    requires name == "Fire Department HQ" && category == "Public Safety"
    requires description == "Fire prevention and emergency services"
    ensures !Contains(Lower(name), "hospital") && !Contains(Lower(category), "hospital")
    ensures !Contains(Lower(description), "hospital")
  {
    FireNameMisses(name);
    PublicSafetyMisses(category);
    FireDescriptionMisses(description);
  }

  lemma WaterPlantMisses(name: string, category: string, description: string)
    requires name == "Water Treatment Plant" && category == "Utilities"
    requires description == "Water purification and distribution"
    ensures !Contains(Lower(name), "hospital") && !Contains(Lower(category), "hospital")
    ensures !Contains(Lower(description), "hospital")
  {
    WaterNameMisses(name);
    UtilitiesMisses(category);
    WaterDescriptionMisses(description);
  }

  /** The library's description has both letters; its only "h" is followed by
      a space. */
  lemma LibraryMisses(name: string, category: string, description: string)
    requires name == "City Library" && category == "Education"
    requires description == "Public library with extensive collection"
    ensures !Contains(Lower(name), "hospital") && !Contains(Lower(category), "hospital")
    ensures !Contains(Lower(description), "hospital")
  {
    LibraryNameMisses(name);
    EducationMisses(category);
    LibraryDescriptionMisses(description);
  }

  lemma PoliceNameMisses(text: string)
    requires text == "Central Police Station"
    ensures !Contains(Lower(text), "hospital")
  {
    LacksH(text);
  }

  lemma PublicSafetyMisses(text: string)
    requires text == "Public Safety"
    ensures !Contains(Lower(text), "hospital")
  {
    LacksH(text);
  }

  lemma PoliceDescriptionMisses(text: string)
    requires text == "Law enforcement and emergency response"
    ensures !Contains(Lower(text), "hospital")
  {
    LacksH(text);
  }

  lemma FireNameMisses(text: string)
    requires text == "Fire Department HQ"
    ensures !Contains(Lower(text), "hospital")
  {
    LacksO(text);
  }

  lemma FireDescriptionMisses(text: string)
    requires text == "Fire prevention and emergency services"
    ensures !Contains(Lower(text), "hospital")
  {
    LacksH(text);
  }

  lemma WaterNameMisses(text: string)
    requires text == "Water Treatment Plant"
    ensures !Contains(Lower(text), "hospital")
  {
    LacksH(text);
  }

  lemma UtilitiesMisses(text: string)
    requires text == "Utilities"
    ensures !Contains(Lower(text), "hospital")
  {
    LacksH(text);
  }

  lemma WaterDescriptionMisses(text: string)
    requires text == "Water purification and distribution"
    ensures !Contains(Lower(text), "hospital")
  {
    LacksH(text);
  }

  lemma LibraryNameMisses(text: string)
    requires text == "City Library"
    ensures !Contains(Lower(text), "hospital")
  {
    LacksH(text);
  }

  lemma EducationMisses(text: string)
    requires text == "Education"
    ensures !Contains(Lower(text), "hospital")
  {
    LacksH(text);
  }

  lemma LibraryDescriptionMisses(description: string)
    requires description == "Public library with extensive collection"
    ensures !Contains(Lower(description), "hospital")
  {
    var before, after := "Public library wit", " extensive collection";
    assert description == before + "h" + after;
    LibraryBeforeH(before);
    LibraryAfterH(after);
    LoneHMisses(before, after);
  }

  lemma LibraryBeforeH(text: string)
    requires text == "Public library wit"
    ensures 'h' !in text && 'H' !in text
  {
  }

  lemma LibraryAfterH(text: string)
    requires text == " extensive collection"
    ensures 'h' !in text && 'H' !in text && |text| > 0 && text[0] == ' '
  {
  }

  /** A text whose only "h" is followed by a space cannot contain "hospital"
      once lower-cased. */
  lemma LoneHMisses(before: string, after: string)
    requires 'h' !in before && 'H' !in before && 'h' !in after && 'H' !in after
    requires |after| > 0 && after[0] == ' '
    ensures !Contains(Lower(before + "h" + after), "hospital")
  {
    var rest := "h" + after;
    assert before + "h" + after == before + rest;
    LowerAppend(before, rest);
    LowerLacks(before, 'h');
    LowerLacks(after, 'h');
    assert Lower(rest)[1..] == Lower(after);
    MissingCharNotContained(Lower(after), "hospital", 0);
    assert Lower(rest)[1] == ' ';
    assert !StartsWith(Lower(rest), "hospital");
    if Contains(Lower(before + rest), "hospital") {
      ContainsPastPrefix(Lower(before), Lower(rest), "hospital");
    }
  }

  /** A text with no "h" in either case cannot contain "hospital" once
      lower-cased. */
  lemma LacksH(text: string)
    requires 'h' !in text && 'H' !in text
    ensures !Contains(Lower(text), "hospital")
  {
    LowerLacks(text, 'h');
    MissingCharNotContained(Lower(text), "hospital", 0);
  }

  /** A text with no "o" in either case cannot contain "hospital" once
      lower-cased. */
  lemma LacksO(text: string)
    requires 'o' !in text && 'O' !in text
    ensures !Contains(Lower(text), "hospital")
  {
    LowerLacks(text, 'o');
    MissingCharNotContained(Lower(text), "hospital", 1);
  }
}
