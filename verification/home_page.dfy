/** `calculateStats` of the home page: two `Set`s filled in nested
    `forEach` loops over every company's `allLocations` and `allWorkTypes`.
    Unlike the view helpers, it skips blank entries (empty or whitespace
    only) and never consults the primary `location`/`workType`. It reads
    both arrays without a guard, so a company missing one makes it throw;
    the model returns `None` then. */
module HomePage {
  import opened Wrappers
  import opened Strings
  import opened Companies
  import ViewStats

  datatype Stats = Stats(citiesCount: nat, workArrangementsCount: nat)

  /** Every character is JavaScript white space (vacuously so for ""). */
  predicate IsBlank(s: String) {
    forall i :: 0 <= i < |s| ==> IsWhitespace(s[i])
  }

  /** The guard `value && value.trim()` is falsy exactly for blank strings:
      "" is falsy, and otherwise `trim` returns "" exactly when every
      character is white space. */
  lemma BlankIsTrimEmpty(s: String)
    ensures IsBlank(s) <==> (s == [] || Trim(s) == [])
  {
    TrimEmpty(s);
  }

  /** The distinct non-blank strings of one array. */
  function NonBlank(xs: seq<String>): set<String> {
    if xs == [] then {}
    else NonBlank(xs[..|xs| - 1]) + (if IsBlank(xs[|xs| - 1]) then {} else {xs[|xs| - 1]})
  }

  lemma {:induction false} NonBlankMembers(xs: seq<String>)
    ensures forall x :: x in NonBlank(xs) <==> x in xs && !IsBlank(x)
  {
    if xs != [] {
      NonBlankMembers(xs[..|xs| - 1]);
      assert xs == xs[..|xs| - 1] + [xs[|xs| - 1]];
    }
  }

  /** The home page's city set: non-blank `allLocations` entries. */
  function HomeCities(cs: seq<Company>): set<String> {
    if cs == [] then {}
    else HomeCities(cs[..|cs| - 1]) + NonBlank(Entries(cs[|cs| - 1].allLocations))
  }

  /** The home page's work-arrangement set: non-blank `allWorkTypes` entries. */
  function HomeWorkTypes(cs: seq<Company>): set<String> {
    if cs == [] then {}
    else HomeWorkTypes(cs[..|cs| - 1]) + NonBlank(Entries(cs[|cs| - 1].allWorkTypes))
  }

  predicate HasBothArrays(c: Company) {
    c.allLocations.Some? && c.allWorkTypes.Some?
  }

  /** One inner `forEach`: adds the non-blank entries of `xs` to `acc`. */
  method AddNonBlank(acc: set<String>, xs: seq<String>) returns (r: set<String>)
    ensures r == acc + NonBlank(xs)
  {
    r := acc;
    for j := 0 to |xs|
      invariant r == acc + NonBlank(xs[..j])
    {
      assert xs[..j + 1][..j] == xs[..j];
      if !IsBlank(xs[j]) {
        r := r + {xs[j]};
      }
    }
    assert xs[..|xs|] == xs;
  }

  /** `calculateStats`: on success the counts are the numbers of distinct
      non-blank `allLocations` and `allWorkTypes` entries; it fails exactly
      when some company lacks one of the arrays. */
  method CalculateStats(cs: seq<Company>) returns (r: Option<Stats>)
    ensures r.None? <==> SomeArrayMissing(cs)
    ensures r.Some? ==> r.value == Stats(|HomeCities(cs)|, |HomeWorkTypes(cs)|)
  {
    var allCities: set<String> := {};
    var allWorkTypes: set<String> := {};
    for i := 0 to |cs|
      invariant allCities == HomeCities(cs[..i])
      invariant allWorkTypes == HomeWorkTypes(cs[..i])
      invariant !SomeArrayMissing(cs[..i])
    {
      var company := cs[i];
      if company.allLocations.None? {
        MissingStep(cs, i);
        return None;
      }
      allCities := AddNonBlank(allCities, company.allLocations.value);
      if company.allWorkTypes.None? {
        MissingStep(cs, i);
        return None;
      }
      allWorkTypes := AddNonBlank(allWorkTypes, company.allWorkTypes.value);
      HomeStep(cs, i);
      MissingStep(cs, i);
    }
    assert cs[..|cs|] == cs;
    r := Some(Stats(|allCities|, |allWorkTypes|));
  }

  /** Some company lacks `allLocations` or `allWorkTypes`. */
  ghost predicate SomeArrayMissing(cs: seq<Company>) {
    exists c :: c in cs && !HasBothArrays(c)
  }

  lemma MissingStep(cs: seq<Company>, i: nat)
    requires i < |cs|
    ensures SomeArrayMissing(cs[..i + 1]) <==> SomeArrayMissing(cs[..i]) || !HasBothArrays(cs[i])
    ensures !HasBothArrays(cs[i]) ==> SomeArrayMissing(cs)
  {
    assert cs[..i + 1] == cs[..i] + [cs[i]];
    assert cs[i] in cs;
  }

  lemma HomeStep(cs: seq<Company>, i: nat)
    requires i < |cs|
    ensures HomeCities(cs[..i + 1]) == HomeCities(cs[..i]) + NonBlank(Entries(cs[i].allLocations))
    ensures HomeWorkTypes(cs[..i + 1]) == HomeWorkTypes(cs[..i]) + NonBlank(Entries(cs[i].allWorkTypes))
  {
    assert cs[..i + 1][..i] == cs[..i];
  }

  // ---------------------------------------------------------------------
  // Properties of the counting rule
  // ---------------------------------------------------------------------

  /** A string is a counted city exactly when it is a non-blank
      `allLocations` entry of some company. */
  lemma {:induction false} HomeCitiesMembers(cs: seq<Company>)
    ensures forall x :: x in HomeCities(cs) <==>
      !IsBlank(x) && exists c :: c in cs && x in Entries(c.allLocations)
  {
    if cs != [] {
      var init := cs[..|cs| - 1];
      var last := cs[|cs| - 1];
      HomeCitiesMembers(init);
      NonBlankMembers(Entries(last.allLocations));
      assert cs == init + [last];
      forall x | !IsBlank(x) && (exists c :: c in cs && x in Entries(c.allLocations))
        ensures x in HomeCities(cs)
      {
        var c :| c in cs && x in Entries(c.allLocations);
        if c != last { assert c in init; }
      }
    }
  }

  /** The same for work arrangements and `allWorkTypes`. */
  lemma {:induction false} HomeWorkTypesMembers(cs: seq<Company>)
    ensures forall x :: x in HomeWorkTypes(cs) <==>
      !IsBlank(x) && exists c :: c in cs && x in Entries(c.allWorkTypes)
  {
    if cs != [] {
      var init := cs[..|cs| - 1];
      var last := cs[|cs| - 1];
      HomeWorkTypesMembers(init);
      NonBlankMembers(Entries(last.allWorkTypes));
      assert cs == init + [last];
      forall x | !IsBlank(x) && (exists c :: c in cs && x in Entries(c.allWorkTypes))
        ensures x in HomeWorkTypes(cs)
      {
        var c :| c in cs && x in Entries(c.allWorkTypes);
        if c != last { assert c in init; }
      }
    }
  }

  /** No blank string is ever counted. */
  lemma NoBlankCounted(cs: seq<Company>)
    ensures forall x :: x in HomeCities(cs) ==> Trim(x) != []
    ensures forall x :: x in HomeWorkTypes(cs) ==> Trim(x) != []
  {
    HomeCitiesMembers(cs);
    HomeWorkTypesMembers(cs);
    forall x | !IsBlank(x) ensures Trim(x) != [] {
      BlankIsTrimEmpty(x);
    }
  }

  /** The primary `location` and `workType` are never consulted: two lists
      whose companies have the same arrays, position by position, give the
      same counts. */
  lemma {:induction false} OnlyArraysMatter(a: seq<Company>, b: seq<Company>)
    requires |a| == |b|
    requires forall i :: 0 <= i < |a| ==> a[i].allLocations == b[i].allLocations && a[i].allWorkTypes == b[i].allWorkTypes
    ensures HomeCities(a) == HomeCities(b)
    ensures HomeWorkTypes(a) == HomeWorkTypes(b)
  {
    if a != [] {
      OnlyArraysMatter(a[..|a| - 1], b[..|b| - 1]);
    }
  }

  /** Two different non-blank entries of one company are two cities. */
  lemma {:induction false} TwoDistinctEntries(c: Company, a: String, b: String)
    requires c.allLocations == Some([a, b])
    requires !IsBlank(a) && !IsBlank(b) && a != b
    ensures |HomeCities([c])| == 2
  {
    assert [a][..0] == [];
    assert NonBlank([a]) == {a};
    assert [a, b][..1] == [a];
    assert NonBlank([a, b]) == {a, b};
    assert [c][..0] == [];
    assert HomeCities([c]) == NonBlank([a, b]);
  }

  /** Distinctness is exact string equality: "Sydney" and "sydney" are two
      cities. */
  lemma CaseSensitiveDistinctness(c: Company)
    requires c.allLocations == Some(["Sydney", "sydney"])
    ensures |HomeCities([c])| == 2
  {
    assert !IsBlank("Sydney") by { assert !IsWhitespace("Sydney"[0]); }
    assert !IsBlank("sydney") by { assert !IsWhitespace("sydney"[0]); }
    assert "Sydney"[0] != "sydney"[0];
    TwoDistinctEntries(c, "Sydney", "sydney");
  }

  /** The total number of `allLocations` entries over all companies. */
  function TotalLocationEntries(cs: seq<Company>): nat {
    if cs == [] then 0
    else TotalLocationEntries(cs[..|cs| - 1]) + |Entries(cs[|cs| - 1].allLocations)|
  }

  function TotalWorkTypeEntries(cs: seq<Company>): nat {
    if cs == [] then 0
    else TotalWorkTypeEntries(cs[..|cs| - 1]) + |Entries(cs[|cs| - 1].allWorkTypes)|
  }

  lemma UnionCard(a: set<String>, b: set<String>)
    ensures |a + b| <= |a| + |b|
  {
    assert a + b == a + (b - a);
  }

  lemma SubsetCard(a: set<String>, b: set<String>)
    requires a <= b
    ensures |a| <= |b|
  {
    assert b == a + (b - a);
  }

  lemma {:induction false} DistinctAtMostLength(xs: seq<String>)
    ensures |NonBlank(xs)| <= |xs|
  {
    if xs != [] {
      var init := xs[..|xs| - 1];
      DistinctAtMostLength(init);
      UnionCard(NonBlank(init), if IsBlank(xs[|xs| - 1]) then {} else {xs[|xs| - 1]});
    }
  }

  /** The city count never exceeds the total number of `allLocations`
      entries. */
  lemma {:induction false} CitiesAtMostEntries(cs: seq<Company>)
    ensures |HomeCities(cs)| <= TotalLocationEntries(cs)
  {
    if cs != [] {
      var init := cs[..|cs| - 1];
      var last := cs[|cs| - 1];
      CitiesAtMostEntries(init);
      DistinctAtMostLength(Entries(last.allLocations));
      UnionCard(HomeCities(init), NonBlank(Entries(last.allLocations)));
    }
  }

  /** The work-arrangement count never exceeds the total number of
      `allWorkTypes` entries. */
  lemma {:induction false} WorkTypesAtMostEntries(cs: seq<Company>)
    ensures |HomeWorkTypes(cs)| <= TotalWorkTypeEntries(cs)
  {
    if cs != [] {
      var init := cs[..|cs| - 1];
      var last := cs[|cs| - 1];
      WorkTypesAtMostEntries(init);
      DistinctAtMostLength(Entries(last.allWorkTypes));
      UnionCard(HomeWorkTypes(init), NonBlank(Entries(last.allWorkTypes)));
    }
  }

  /** Adding a company never lowers either count. */
  lemma AddingCompanyNeverLowersCounts(cs: seq<Company>, c: Company)
    ensures |HomeCities(cs)| <= |HomeCities(cs + [c])|
    ensures |HomeWorkTypes(cs)| <= |HomeWorkTypes(cs + [c])|
  {
    assert (cs + [c])[..|cs|] == cs;
    SubsetCard(HomeCities(cs), HomeCities(cs + [c]));
    SubsetCard(HomeWorkTypes(cs), HomeWorkTypes(cs + [c]));
  }

  /** The home rule counts a subset of what the view pages count, so it
      never reports more cities. */
  lemma HomeCitiesWithinViewCities(cs: seq<Company>)
    ensures HomeCities(cs) <= ViewStats.ViewCities(cs)
    ensures |HomeCities(cs)| <= |ViewStats.ViewCities(cs)|
  {
    HomeCitiesMembers(cs);
    forall x | x in HomeCities(cs) ensures x in ViewStats.ViewCities(cs) {
      var c :| c in cs && x in Entries(c.allLocations);
      assert x in ViewStats.CityValues(c);
    }
    SubsetCard(HomeCities(cs), ViewStats.ViewCities(cs));
  }
}
