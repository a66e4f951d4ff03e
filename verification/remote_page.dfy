/** The "remote" page: companies offering remote work, sorted by name, with
    their statistics, and the remap that shows every card as "Remote" first.
    The statistics are computed on the list before the remap. */
module RemotePage {
  import opened Wrappers
  import opened Strings
  import opened Seqs
  import opened Companies
  import Utils
  import ViewStats

  /** The filter predicate of `filterRemoteCompanies` (and of the metadata
      count, which repeats it). */
  predicate IsRemoteCompany(c: Company) {
    ToLower(c.workType) == "remote"
    || (match c.allWorkTypes
        case Some(ws) => exists t :: t in ws && ToLower(t) == "remote"
        case None => false)
  }

  /** The filter predicate stated over the entries of the optional array. */
  predicate OffersRemote(c: Company) {
    ToLower(c.workType) == "remote" || exists t :: t in Entries(c.allWorkTypes) && ToLower(t) == "remote"
  }

  lemma RemoteIff(c: Company)
    ensures IsRemoteCompany(c) <==> OffersRemote(c)
  {
  }

  /** `filterRemoteCompanies`: a company is kept exactly when its primary
      work type or some `allWorkTypes` entry is, lower-cased, "remote"; the
      input order is kept. */
  function FilterRemoteCompanies(cs: seq<Company>): (r: seq<Company>)
    ensures forall c :: c in r <==>
      c in cs
      && (ToLower(c.workType) == "remote" || exists t :: t in Entries(c.allWorkTypes) && ToLower(t) == "remote")
    ensures IsSubsequence(r, cs)
  {
    FilterIsSubsequence(cs, IsRemoteCompany);
    var r := Filter(cs, IsRemoteCompany);
    assert forall c :: c in r <==> c in cs && IsRemoteCompany(c);
    assert forall c :: IsRemoteCompany(c) <==> OffersRemote(c) by {
      forall c ensures IsRemoteCompany(c) <==> OffersRemote(c) {
        RemoteIff(c);
      }
    }
    r
  }

  /** The list the page passes to the statistics and to the grid (and the
      metadata title counts). */
  function RemoteCompanies(cs: seq<Company>): seq<Company> {
    Utils.SortCompaniesByName(FilterRemoteCompanies(cs))
  }

  /** The number in the metadata title equals the number of cards on the
      page: a company is listed exactly as often as the data lists it when
      it offers remote work, and not at all otherwise. */
  lemma MetaCountMatchesPage(cs: seq<Company>, c: Company)
    ensures |RemoteCompanies(cs)| == |FilterRemoteCompanies(cs)|
    ensures multiset(RemoteCompanies(cs))[c] == if OffersRemote(c) then multiset(cs)[c] else 0
  {
    FilterMultiplicity(cs, IsRemoteCompany, c);
    RemoteIff(c);
  }

  /** Sorting before counting changes neither statistic. */
  lemma {:induction false} StatsIgnoreSort(cs: seq<Company>)
    ensures ViewStats.ViewCities(RemoteCompanies(cs))
         == ViewStats.ViewCities(FilterRemoteCompanies(cs))
    ensures ViewStats.ViewWorkTypes(RemoteCompanies(cs))
         == ViewStats.ViewWorkTypes(FilterRemoteCompanies(cs))
  {
    var f := FilterRemoteCompanies(cs);
    var s := RemoteCompanies(cs);
    assert forall c :: c in s <==> c in multiset(s);
    assert forall c :: c in f <==> c in multiset(f);
    ViewStats.SameMembersSameStats(s, f);
  }

  predicate NotExactlyRemote(t: String) {
    t != "Remote"
  }

  /** The card data the grid receives: `workType` forced to "Remote" and
      "Remote" moved to the front of `allWorkTypes`. Only entries exactly
      equal to "Remote" are dropped from the rest (the comparison is
      case-sensitive); the others keep their order; an absent array becomes
      ["Remote"]; every other field is copied. */
  function ShowAsRemote(c: Company): (r: Company)
    ensures r.workType == "Remote"
    ensures r.allWorkTypes.Some? && |r.allWorkTypes.value| >= 1 && r.allWorkTypes.value[0] == "Remote"
    ensures "Remote" !in r.allWorkTypes.value[1..]
    ensures forall t :: t in r.allWorkTypes.value[1..] <==> t in Entries(c.allWorkTypes) && t != "Remote"
    ensures IsSubsequence(r.allWorkTypes.value[1..], Entries(c.allWorkTypes))
    ensures forall t :: t != "Remote" ==>
      multiset(r.allWorkTypes.value[1..])[t] == multiset(Entries(c.allWorkTypes))[t]
    ensures c.allWorkTypes.None? ==> r.allWorkTypes == Some(["Remote"])
    ensures r.(workType := c.workType, allWorkTypes := c.allWorkTypes) == c
  {
    var rest := Filter(Entries(c.allWorkTypes), NotExactlyRemote);
    FilterIsSubsequence(Entries(c.allWorkTypes), NotExactlyRemote);
    assert forall t :: t != "Remote" ==> multiset(rest)[t] == multiset(Entries(c.allWorkTypes))[t] by {
      forall t | t != "Remote" ensures multiset(rest)[t] == multiset(Entries(c.allWorkTypes))[t] {
        FilterMultiplicity(Entries(c.allWorkTypes), NotExactlyRemote, t);
      }
    }
    var r := c.(workType := "Remote",
                allWorkTypes := match c.allWorkTypes
                                case Some(_) => Some(["Remote"] + rest)
                                case None => Some(["Remote"]));
    assert r.allWorkTypes.value[1..] == rest;
    r
  }

  /** Remapping twice is the same as remapping once. */
  lemma ShowAsRemoteIdempotent(c: Company)
    ensures ShowAsRemote(ShowAsRemote(c)) == ShowAsRemote(c)
  {
    var r := ShowAsRemote(c);
    var ws := r.allWorkTypes.value;
    assert ws == ["Remote"] + ws[1..];
    FilterAll(ws[1..], NotExactlyRemote);
    assert Filter(ws, NotExactlyRemote) == ws[1..];
  }

  /** The remapped company still passes the remote filter. */
  lemma ShowAsRemoteStaysRemote(c: Company)
    ensures IsRemoteCompany(ShowAsRemote(c))
  {
    var r := ShowAsRemote(c);
    assert ToLower(r.workType) == ToLower("Remote");
  }

  /** The grid's list: the page's list with every company remapped. */
  function DisplayedRemoteCompanies(cs: seq<Company>): (r: seq<Company>)
    ensures |r| == |RemoteCompanies(cs)|
    ensures forall i :: 0 <= i < |r| ==> r[i] == ShowAsRemote(RemoteCompanies(cs)[i])
  {
    var page := RemoteCompanies(cs);
    seq(|page|, i requires 0 <= i < |page| => ShowAsRemote(page[i]))
  }

  /** Every displayed card shows "Remote" as its work type and first
      arrangement. */
  lemma AllDisplayedAreRemote(cs: seq<Company>)
    ensures forall c :: c in DisplayedRemoteCompanies(cs) ==>
      c.workType == "Remote" && c.allWorkTypes.Some? && c.allWorkTypes.value[0] == "Remote"
  {
  }
}
