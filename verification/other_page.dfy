/** The "other cities" page: companies with no location in one of the six
    capital cities, sorted by name, with their statistics. The metadata title
    and the rendered grid both filter the same list with the same predicate
    and both sort it. */
module OtherPage {
  import opened Wrappers
  import opened Strings
  import opened Seqs
  import opened Companies
  import Utils
  import ViewStats

  /** The lower-cased capital cities the page excludes. */
  const MajorCities: seq<String> :=
    ["sydney", "melbourne", "brisbane", "perth", "adelaide", "canberra"]

  /** The filter predicate of `filterOtherCitiesCompanies` (and of the
      metadata count, which repeats it). */
  predicate IsOtherCitiesCompany(c: Company) {
    var isPrimaryLocationMajor := ToLower(c.location) in MajorCities;
    var hasAnyMajorLocation :=
      match c.allLocations
      case Some(locs) => exists loc :: loc in locs && ToLower(loc) in MajorCities
      case None => false;
    !isPrimaryLocationMajor && !hasAnyMajorLocation
  }

  /** The filter predicate stated over the entries of the optional array. */
  predicate NoMajorLocation(c: Company) {
    ToLower(c.location) !in MajorCities
    && forall loc :: loc in Entries(c.allLocations) ==> ToLower(loc) !in MajorCities
  }

  lemma OtherCitiesIff(c: Company)
    ensures IsOtherCitiesCompany(c) <==> NoMajorLocation(c)
  {
  }

  /** `filterOtherCitiesCompanies`. A company is kept exactly when neither
      its primary location nor any `allLocations` entry is, lower-cased, a
      major city; so one major-city entry drops it whatever else it lists,
      and without the array only the primary location decides. The result
      keeps the input order. */
  function FilterOtherCitiesCompanies(cs: seq<Company>): (r: seq<Company>)
    ensures forall c :: c in r <==>
      c in cs
      && ToLower(c.location) !in MajorCities
      && forall loc :: loc in Entries(c.allLocations) ==> ToLower(loc) !in MajorCities
    ensures IsSubsequence(r, cs)
  {
    FilterIsSubsequence(cs, IsOtherCitiesCompany);
    var r := Filter(cs, IsOtherCitiesCompany);
    assert forall c :: c in r <==> c in cs && IsOtherCitiesCompany(c);
    assert forall c :: IsOtherCitiesCompany(c) <==> NoMajorLocation(c) by {
      forall c ensures IsOtherCitiesCompany(c) <==> NoMajorLocation(c) {
        OtherCitiesIff(c);
      }
    }
    r
  }

  /** The list the page renders (and the metadata title counts). */
  function OtherCitiesCompanies(cs: seq<Company>): seq<Company> {
    Utils.SortCompaniesByName(FilterOtherCitiesCompanies(cs))
  }

  /** The number in the metadata title equals the number of cards on the
      page: the page lists every filtered company exactly as often as the
      data does when it has no major-city location, and not at all
      otherwise. */
  lemma MetaCountMatchesPage(cs: seq<Company>, c: Company)
    ensures |OtherCitiesCompanies(cs)| == |FilterOtherCitiesCompanies(cs)|
    ensures multiset(OtherCitiesCompanies(cs))[c] == if NoMajorLocation(c) then multiset(cs)[c] else 0
  {
    FilterMultiplicity(cs, IsOtherCitiesCompany, c);
    OtherCitiesIff(c);
  }

  /** The statistics shown on the page are those of the filtered companies:
      sorting first changes neither count. */
  lemma {:induction false} StatsIgnoreSort(cs: seq<Company>)
    ensures ViewStats.ViewCities(OtherCitiesCompanies(cs))
         == ViewStats.ViewCities(FilterOtherCitiesCompanies(cs))
    ensures ViewStats.ViewWorkTypes(OtherCitiesCompanies(cs))
         == ViewStats.ViewWorkTypes(FilterOtherCitiesCompanies(cs))
  {
    var f := FilterOtherCitiesCompanies(cs);
    var s := OtherCitiesCompanies(cs);
    assert forall c :: c in s <==> c in multiset(s);
    assert forall c :: c in f <==> c in multiset(f);
    ViewStats.SameMembersSameStats(s, f);
  }

  /** Every company on the page has no major-city location at all. */
  lemma NoMajorCityOnPage(cs: seq<Company>, c: Company)
    requires c in OtherCitiesCompanies(cs)
    ensures ToLower(c.location) !in MajorCities
    ensures forall loc :: loc in Entries(c.allLocations) ==> ToLower(loc) !in MajorCities
  {
    var f := FilterOtherCitiesCompanies(cs);
    assert c in multiset(OtherCitiesCompanies(cs));
    assert c in multiset(f);
  }
}
