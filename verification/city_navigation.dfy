/** The city navigation block: the six major-city links minus the current
    city, whether the remote and other links are shown, and the heading. */
module CityNavigation {
  import opened Wrappers
  import opened Strings
  import opened Seqs

  datatype PageKind = RemotePage | CityPage | OtherPage

  datatype CityLink = CityLink(name: String, path: String)

  const Cities: seq<CityLink> := [
    CityLink("Sydney", "/sydney"),
    CityLink("Melbourne", "/melbourne"),
    CityLink("Brisbane", "/brisbane"),
    CityLink("Perth", "/perth"),
    CityLink("Adelaide", "/adelaide"),
    CityLink("Canberra", "/canberra")
  ]

  /** `currentCity` when present and non-empty (truthy). */
  predicate HasCity(currentCity: Option<String>) {
    currentCity.Some? && currentCity.value != []
  }

  /** `filteredCities`: every city without a current city; otherwise the
      cities whose lower-cased name differs from the lower-cased current
      city, in their fixed order. */
  function FilteredCities(currentCity: Option<String>): (r: seq<CityLink>)
    ensures !HasCity(currentCity) ==> r == Cities
    ensures HasCity(currentCity) ==> forall c :: c in r <==>
      c in Cities && ToLower(c.name) != ToLower(currentCity.value)
    ensures IsSubsequence(r, Cities)
  {
    if HasCity(currentCity) then
      var key := ToLower(currentCity.value);
      FilterIsSubsequence(Cities, (c: CityLink) => ToLower(c.name) != key);
      Filter(Cities, (c: CityLink) => ToLower(c.name) != key)
    else
      Cities
  }

  /** A filter that at most one element fails drops at most one element. */
  lemma {:induction false} FilterDropsAtMostOne(s: seq<CityLink>, p: CityLink -> bool)
    requires forall i, j :: 0 <= i < |s| && 0 <= j < |s| && !p(s[i]) && !p(s[j]) ==> i == j
    ensures |Filter(s, p)| + 1 >= |s|
  {
    if s != [] {
      if p(s[0]) {
        forall i, j | 0 <= i < |s| - 1 && 0 <= j < |s| - 1 && !p(s[1..][i]) && !p(s[1..][j])
          ensures i == j
        {
          assert s[1..][i] == s[i + 1] && s[1..][j] == s[j + 1];
        }
        FilterDropsAtMostOne(s[1..], p);
      } else {
        forall x | x in s[1..] ensures p(x) {
          var k :| 0 <= k < |s| - 1 && s[1..][k] == x;
          assert s[1..][k] == s[k + 1];
        }
        FilterAll(s[1..], p);
      }
    }
  }

  /** Two names whose first letters are different capitals differ once
      lower-cased. */
  lemma CapitalsDifferLowered(a: String, b: String)
    requires a != [] && b != []
    requires 'A' <= a[0] <= 'Z' && 'A' <= b[0] <= 'Z' && a[0] != b[0]
    ensures ToLower(a) != ToLower(b)
  {
    assert ToLower(a)[0] != ToLower(b)[0];
  }

  /** The six cities begin with six different capitals, so no two of them
      share a lower-cased name. */
  lemma CityNamesDistinctLowered(i: nat, j: nat)
    requires i < |Cities| && j < |Cities| && i != j
    ensures ToLower(Cities[i].name) != ToLower(Cities[j].name)
  {
    var initials: String := "SMBPAC";
    assert forall k :: 0 <= k < |Cities| ==> Cities[k].name != [] && Cities[k].name[0] == initials[k];
    CapitalsDifferLowered(Cities[i].name, Cities[j].name);
  }

  /** At most one city is removed, because no two cities share a
      lower-cased name. */
  lemma AtMostOneCityRemoved(currentCity: Option<String>)
    ensures |FilteredCities(currentCity)| + 1 >= |Cities|
  {
    if HasCity(currentCity) {
      var key := ToLower(currentCity.value);
      var p := (c: CityLink) => ToLower(c.name) != key;
      forall i, j | 0 <= i < |Cities| && 0 <= j < |Cities| && !p(Cities[i]) && !p(Cities[j])
        ensures i == j
      {
        if i != j {
          CityNamesDistinctLowered(i, j);
        }
      }
      FilterDropsAtMostOne(Cities, p);
    }
  }

  /** `showRemoteLink` and `showOtherLink`: a page does not link to its own
      kind. */
  function ShowRemoteLink(currentPage: Option<PageKind>): (r: bool)
    ensures r <==> currentPage != Some(RemotePage)
  {
    currentPage != Some(RemotePage)
  }

  function ShowOtherLink(currentPage: Option<PageKind>): (r: bool)
    ensures r <==> currentPage != Some(OtherPage)
  {
    currentPage != Some(OtherPage)
  }

  /** The heading over the links. */
  function Heading(currentPage: Option<PageKind>): (r: String)
    ensures currentPage == Some(RemotePage) ==> r == "Browse by city"
    ensures currentPage == Some(OtherPage) ==> r == "Browse by location"
    ensures currentPage != Some(RemotePage) && currentPage != Some(OtherPage) ==> r == "Other locations"
  {
    if currentPage == Some(RemotePage) then "Browse by city"
    else if currentPage == Some(OtherPage) then "Browse by location"
    else "Other locations"
  }

  /** Every page keeps at least one of the remote and other links; the
      heading says "Browse by city" exactly when the remote link is hidden,
      "Browse by location" exactly when the other link is hidden, and
      "Other locations" exactly when both are shown. */
  lemma LinksAndHeading(currentPage: Option<PageKind>)
    ensures ShowRemoteLink(currentPage) || ShowOtherLink(currentPage)
    ensures !ShowRemoteLink(currentPage) <==> Heading(currentPage) == "Browse by city"
    ensures !ShowOtherLink(currentPage) <==> Heading(currentPage) == "Browse by location"
    ensures (ShowRemoteLink(currentPage) && ShowOtherLink(currentPage)) <==> Heading(currentPage) == "Other locations"
  {
    var city: String := "Browse by city";
    var location: String := "Browse by location";
    var other: String := "Other locations";
    assert |city| != |location| && city[0] != other[0] && location[0] != other[0];
  }

}
