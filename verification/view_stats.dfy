/** The two counting helpers of the "other cities" and "remote" pages
    (`getUniqueCitiesCount`, `getUniqueWorkArrangementsCount`). Both pages
    carry the same code; it is modelled once here. Each helper fills a local
    `Set` inside `forEach` loops and returns its size: values are compared as
    exact strings and blank strings are counted like any other. */
module ViewStats {
  import opened Wrappers
  import opened Strings
  import opened Companies

  /** What one company adds to the city set: its primary location and,
      when the array is present, every `allLocations` entry. */
  function CityValues(c: Company): set<String> {
    {c.location} + (set x | x in Entries(c.allLocations))
  }

  /** What one company adds to the work-arrangement set: every
      `allWorkTypes` entry when the array is present, else `workType`. */
  function WorkTypeValues(c: Company): set<String> {
    match c.allWorkTypes
    case Some(ws) => set x | x in ws
    case None => {c.workType}
  }

  ghost function ViewCities(cs: seq<Company>): set<String> {
    set c, x | c in cs && x in CityValues(c) :: x
  }

  ghost function ViewWorkTypes(cs: seq<Company>): set<String> {
    set c, x | c in cs && x in WorkTypeValues(c) :: x
  }

  lemma ViewCitiesSnoc(cs: seq<Company>, c: Company)
    ensures ViewCities(cs + [c]) == ViewCities(cs) + CityValues(c)
  {
    assert forall d :: d in cs + [c] <==> d in cs || d == c;
  }

  lemma ViewWorkTypesSnoc(cs: seq<Company>, c: Company)
    ensures ViewWorkTypes(cs + [c]) == ViewWorkTypes(cs) + WorkTypeValues(c)
  {
    assert forall d :: d in cs + [c] <==> d in cs || d == c;
  }

  /** `getUniqueCitiesCount`: the number of distinct strings among all
      primary locations and all `allLocations` entries. */
  method UniqueCitiesCount(cs: seq<Company>) returns (n: nat)
    ensures n == |ViewCities(cs)|
    ensures cs == [] ==> n == 0
  {
    var cities: set<String> := {};
    for i := 0 to |cs|
      invariant cities == ViewCities(cs[..i])
    {
      var company := cs[i];
      cities := cities + {company.location};
      match company.allLocations {
        case Some(locs) =>
          for j := 0 to |locs|
            invariant cities == ViewCities(cs[..i]) + {company.location} + (set k | 0 <= k < j :: locs[k])
          {
            cities := cities + {locs[j]};
          }
          assert (set k | 0 <= k < |locs| :: locs[k]) == (set x | x in locs);
        case None =>
      }
      ViewCitiesSnoc(cs[..i], company);
      assert cs[..i + 1] == cs[..i] + [company];
    }
    assert cs[..|cs|] == cs;
    n := |cities|;
  }

  /** `getUniqueWorkArrangementsCount`: the number of distinct strings among
      the `allWorkTypes` entries, with `workType` standing in for an absent
      array. */
  method UniqueWorkArrangementsCount(cs: seq<Company>) returns (n: nat)
    ensures n == |ViewWorkTypes(cs)|
    ensures cs == [] ==> n == 0
  {
    var workTypes: set<String> := {};
    for i := 0 to |cs|
      invariant workTypes == ViewWorkTypes(cs[..i])
    {
      var company := cs[i];
      match company.allWorkTypes {
        case Some(ws) =>
          for j := 0 to |ws|
            invariant workTypes == ViewWorkTypes(cs[..i]) + (set k | 0 <= k < j :: ws[k])
          {
            workTypes := workTypes + {ws[j]};
          }
          assert (set k | 0 <= k < |ws| :: ws[k]) == (set x | x in ws);
        case None =>
          workTypes := workTypes + {company.workType};
      }
      ViewWorkTypesSnoc(cs[..i], company);
      assert cs[..i + 1] == cs[..i] + [company];
    }
    assert cs[..|cs|] == cs;
    n := |workTypes|;
  }

  /** The counts depend only on which companies are listed, not on their
      order or multiplicity: any two lists with the same members give the
      same sets. */
  lemma SameMembersSameStats(a: seq<Company>, b: seq<Company>)
    requires forall c :: c in a <==> c in b
    ensures ViewCities(a) == ViewCities(b)
    ensures ViewWorkTypes(a) == ViewWorkTypes(b)
  {
  }
}
