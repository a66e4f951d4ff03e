/** The strings a company card shows: the location and work-type summaries
    ("City + N"), their tooltip texts, the capitalised work-type label and
    the logo.dev image URL. `currentCity` and the API key are optional;
    an empty string behaves as absent, as JavaScript truthiness makes it. */
module CompanyCard {
  import opened Wrappers
  import opened Strings
  import opened Domains

  /** "<head> + <extra>", the summary of a list with more than one entry. */
  function Summary(head: String, extra: nat): String {
    head + " + " + NatToString(extra)
  }

  /** The index of the first entry whose lower-cased form equals `key`, as
      `Array.prototype.find` scans. */
  function FindLowered(xs: seq<String>, key: String): (r: Option<nat>)
    ensures r.Some? ==> r.value < |xs| && ToLower(xs[r.value]) == key
                        && forall j :: 0 <= j < r.value ==> ToLower(xs[j]) != key
    ensures r.None? ==> forall j :: 0 <= j < |xs| ==> ToLower(xs[j]) != key
  {
    if xs == [] then None
    else if ToLower(xs[0]) == key then Some(0)
    else
      match FindLowered(xs[1..], key)
      case Some(i) => Some(i + 1)
      case None => None
  }

  /** `currentCity` when it is present and non-empty (truthy). */
  predicate HasCity(currentCity: Option<String>) {
    currentCity.Some? && currentCity.value != []
  }

  /** `getLocationDisplay`. With at most one entry (or none) the primary
      location is shown. Otherwise the first entry equal to the current city
      up to case is shown, else the first entry, followed by " + " and the
      number of remaining entries. */
  function LocationDisplay(location: String, allLocations: Option<seq<String>>,
                           currentCity: Option<String>): (r: String)
    ensures allLocations.None? || |allLocations.value| <= 1 ==> r == location
    ensures allLocations.Some? && |allLocations.value| > 1 ==>
      var locs := allLocations.value;
      (exists i :: 0 <= i < |locs| && r == Summary(locs[i], |locs| - 1))
      && (forall i :: 0 <= i < |locs| && HasCity(currentCity)
            && ToLower(locs[i]) == ToLower(currentCity.value)
            && (forall j :: 0 <= j < i ==> ToLower(locs[j]) != ToLower(currentCity.value))
            ==> r == Summary(locs[i], |locs| - 1))
      && ((!HasCity(currentCity)
           || forall i :: 0 <= i < |locs| ==> ToLower(locs[i]) != ToLower(currentCity.value))
            ==> r == Summary(locs[0], |locs| - 1))
  {
    if allLocations.None? || |allLocations.value| <= 1 then location
    else
      var locs := allLocations.value;
      var found := if HasCity(currentCity) then FindLowered(locs, ToLower(currentCity.value)) else None;
      match found
      case Some(i) =>
        assert forall k :: (0 <= k < |locs| && ToLower(locs[k]) == ToLower(currentCity.value)
                            && (forall j :: 0 <= j < k ==> ToLower(locs[j]) != ToLower(currentCity.value)))
                           ==> k == i;
        Summary(locs[i], |locs| - 1)
      case None => Summary(locs[0], |locs| - 1)
  }

  /** A current city whose case-insensitive match is not the first entry
      still puts the matching entry in front. */
  lemma CurrentCityFirst(locs: seq<String>)
    requires |locs| == 2 && locs[0] == "Perth" && locs[1] == "Sydney"
    ensures LocationDisplay("Perth", Some(locs), Some("sydney")) == Summary("Sydney", 1)
  {
    assert ToLower(locs[0]) != ToLower("sydney") by {
      assert ToLower(locs[0])[0] == 'p' && ToLower("sydney")[0] == 's';
    }
    assert ToLower(locs[1]) == ToLower("sydney");
  }

  /** `getWorkTypeDisplay`: the primary work type, with " + N" when there
      are more than one arrangement. */
  function WorkTypeDisplay(workType: String, allWorkTypes: Option<seq<String>>): (r: String)
    ensures allWorkTypes.None? || |allWorkTypes.value| <= 1 ==> r == workType
    ensures allWorkTypes.Some? && |allWorkTypes.value| > 1 ==>
      StartsWith(r, workType + " + ") && r[|workType| + 3..] == NatToString(|allWorkTypes.value| - 1)
  {
    if allWorkTypes.None? || |allWorkTypes.value| <= 1 then workType
    else
      var r := Summary(workType, |allWorkTypes.value| - 1);
      assert r[..|workType| + 3] == workType + " + ";
      r
  }

  /** `allLocationsText` / `allWorkTypesText`: the entries joined by ", "
      when there are more than one, else the primary value. */
  function TooltipText(primary: String, all: Option<seq<String>>): (r: String)
    ensures all.None? || |all.value| <= 1 ==> r == primary
    ensures all.Some? && |all.value| > 1 ==> r == Join(all.value, ", ")
    ensures all.Some? && |all.value| > 1 && (forall i :: 0 <= i < |all.value| ==> ',' !in all.value[i]) ==>
      Count(r, ',') == |all.value| - 1
  {
    if all.Some? && |all.value| > 1 then
      if forall i :: 0 <= i < |all.value| ==> ',' !in all.value[i] then
        TooltipCommas(all.value);
        Join(all.value, ", ")
      else Join(all.value, ", ")
    else primary
  }

  /** The tooltip of a list of comma-free entries has exactly as many commas
      as the number shown after " + " in the summary. */
  lemma {:induction false} TooltipCommas(xs: seq<String>)
    requires xs != []
    requires forall i :: 0 <= i < |xs| ==> ',' !in xs[i]
    ensures Count(Join(xs, ", "), ',') == |xs| - 1
  {
    CountAbsent(xs[|xs| - 1], ',');
    if |xs| > 1 {
      var init := xs[..|xs| - 1];
      TooltipCommas(init);
      CountAppend(Join(init, ", "), ", ", ',');
      CountAppend(Join(init, ", ") + ", ", xs[|xs| - 1], ',');
      assert Count(", ", ',') == 1 by { assert ", "[..1] == ","; assert ","[..0] == []; }
    }
  }

  /** A string without upper-case letters is its own lower-case form. */
  lemma {:induction false} ToLowerNoUpper(s: String)
    requires forall i :: 0 <= i < |s| ==> !('A' <= s[i] <= 'Z')
    ensures ToLower(s) == s
  {
  }

  /** The " + N" part of a summary has no upper-case letter. */
  lemma SummaryTailLower(n: nat)
    ensures var tail := " + " + NatToString(n);
      ToLower(tail) == tail && ToLower(tail[1..]) == tail[1..]
  {
    var digits := NatToString(n);
    var tail := " + " + digits;
    forall i | 0 <= i < |tail| ensures !('A' <= tail[i] <= 'Z') {
      if i >= 3 {
        assert tail[i] == digits[i - 3];
      }
    }
    ToLowerNoUpper(tail);
    ToLowerNoUpper(tail[1..]);
  }

  /** Capitalising a non-empty word followed by a lower-case tail
      capitalises the word and leaves the tail alone. */
  lemma CapitalizeAppendLower(w: String, tail: String)
    requires w != []
    requires ToLower(tail) == tail
    ensures Capitalize(w + tail) == Capitalize(w) + tail
  {
    assert (w + tail)[0] == w[0];
    assert (w + tail)[1..] == w[1..] + tail;
    ToLowerAppend(w[1..], tail);
  }

  /** Capitalising a summary leaves its " + N" part alone. */
  lemma CapitalizeSummary(w: String, n: nat)
    ensures Capitalize(Summary(w, n)) == Capitalize(w) + " + " + NatToString(n)
  {
    var tail := " + " + NatToString(n);
    SummaryTailLower(n);
    assert Summary(w, n) == w + tail;
    if w == [] {
      assert w + tail == tail;
      assert Capitalize(tail) == [ToUpperChar(tail[0])] + tail[1..];
      assert tail == [tail[0]] + tail[1..];
    } else {
      CapitalizeAppendLower(w, tail);
    }
  }

  /** The work-type label the card renders: the capitalised display. With
      more than one arrangement it is the capitalised primary work type
      followed by " + " and the number of the others. */
  function WorkTypeLabel(workType: String, allWorkTypes: Option<seq<String>>): (r: String)
    ensures allWorkTypes.None? || |allWorkTypes.value| <= 1 ==> r == Capitalize(workType)
    ensures allWorkTypes.Some? && |allWorkTypes.value| > 1 ==>
      r == Capitalize(workType) + " + " + NatToString(|allWorkTypes.value| - 1)
  {
    if allWorkTypes.Some? && |allWorkTypes.value| > 1 then
      CapitalizeSummary(workType, |allWorkTypes.value| - 1);
      Capitalize(WorkTypeDisplay(workType, allWorkTypes))
    else Capitalize(workType)
  }

  /** `generateLogoUrl` of the card: "" without a (non-empty) key, else the
      logo.dev URL for the cleaned domain at size 48. */
  function CardLogoUrl(website: String, apiKey: Option<String>): (r: String)
    ensures r == [] <==> apiKey.None? || apiKey.value == []
    ensures apiKey.Some? && apiKey.value != [] ==>
      r == LogoDevUrl(CleanDomain(website), apiKey.value, "48")
  {
    if apiKey.None? || apiKey.value == [] then [] else LogoDevUrl(CleanDomain(website), apiKey.value, "48")
  }

  /** The card's logo URL names the bare domain however the website was
      written. */
  lemma CardLogoUrlRoundTrip(p: String, w: String, d: String, t: String, key: String)
    requires p == "" || p == Http || p == Https
    requires w == "" || w == Www
    requires t == "" || t == "/"
    requires !StartsWith(d, Http) && !StartsWith(d, Https) && !StartsWith(d, Www)
    requires !EndsWith(d, "/")
    requires key != []
    ensures CardLogoUrl(p + w + d + t, Some(key)) == LogoDevUrl(d, key, "48")
  {
    CleanDomainRoundTrip(p, w, d, t);
  }
}
