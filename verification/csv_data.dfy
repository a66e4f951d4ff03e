/** `convertToSampleCompaniesFormat` and `capitalizeWorkType` of the data
    directory's CSV converter: each parsed record becomes a `Company` with a
    1-based decimal id, trimmed locations, normalised work arrangements and
    a website stripped of protocol, `www.` and one trailing slash. A record
    without the "Location", "Work Arrangement" or "Website" column makes the
    JavaScript throw; the model returns `Failure` naming the column. */
module CsvData {
  import opened Wrappers
  import opened Strings
  import opened Companies
  import opened Domains
  import opened CsvParse

  /** `s.toLowerCase() === word`, for a lower-case `word`, checked one
      character at a time. */
  function LowerEquals(s: String, word: String): bool {
    if s == [] || word == [] then s == word
    else ToLowerChar(s[0]) == word[0] && LowerEquals(s[1..], word[1..])
  }

  lemma {:induction false} LowerEqualsIsToLower(s: String, word: String)
    ensures LowerEquals(s, word) <==> ToLower(s) == word
  {
    if s != [] && word != [] {
      LowerEqualsIsToLower(s[1..], word[1..]);
      assert ToLower(s) == [ToLowerChar(s[0])] + ToLower(s[1..]);
    }
  }

  /** Character-wise agreement gives `LowerEquals`. */
  lemma {:induction false} LowerEqualsChars(s: String, word: String)
    requires |s| == |word|
    requires forall i :: 0 <= i < |s| ==> ToLowerChar(s[i]) == word[i]
    ensures LowerEquals(s, word)
  {
    if s != [] {
      assert forall i :: 0 <= i < |s| - 1 ==> s[1..][i] == s[i + 1] && word[1..][i] == word[i + 1];
      LowerEqualsChars(s[1..], word[1..]);
    }
  }

  /** `capitalizeWorkType`: the three known arrangements in their canonical
      spelling, whatever their case; anything else capitalised. The input
      is trimmed first. Stated on the lower-cased trimmed input `k`:
      "on-site" and "onsite" give "On-site", "remote" gives "Remote",
      "hybrid" gives "Hybrid", and anything else is the trimmed input with
      its first character upper-cased and the rest lower-cased. */
  function NormalizeWorkType(workType: String): (r: String)
    ensures var k := ToLower(Trim(workType));
      k == "on-site" || k == "onsite" ==> r == "On-site"
    ensures var k := ToLower(Trim(workType));
      k == "remote" ==> r == "Remote"
    ensures var k := ToLower(Trim(workType));
      k == "hybrid" ==> r == "Hybrid"
    ensures var k := ToLower(Trim(workType));
      k != "on-site" && k != "onsite" && k != "remote" && k != "hybrid" ==> r == Capitalize(Trim(workType))
  {
    var cleaned := Trim(workType);
    LowerEqualsIsToLower(cleaned, "on-site");
    LowerEqualsIsToLower(cleaned, "onsite");
    LowerEqualsIsToLower(cleaned, "remote");
    LowerEqualsIsToLower(cleaned, "hybrid");
    if LowerEquals(cleaned, "on-site") || LowerEquals(cleaned, "onsite") then "On-site"
    else if LowerEquals(cleaned, "remote") then "Remote"
    else if LowerEquals(cleaned, "hybrid") then "Hybrid"
    else Capitalize(cleaned)
  }

  /** Strings with the same lower-case form match the same known
      arrangements. */
  lemma SameLowerSameMatches(x: String, y: String)
    requires ToLower(x) == ToLower(y)
    ensures LowerEquals(x, "on-site") == LowerEquals(y, "on-site")
    ensures LowerEquals(x, "onsite") == LowerEquals(y, "onsite")
    ensures LowerEquals(x, "remote") == LowerEquals(y, "remote")
    ensures LowerEquals(x, "hybrid") == LowerEquals(y, "hybrid")
  {
    LowerEqualsIsToLower(x, "on-site");
    LowerEqualsIsToLower(y, "on-site");
    LowerEqualsIsToLower(x, "onsite");
    LowerEqualsIsToLower(y, "onsite");
    LowerEqualsIsToLower(x, "remote");
    LowerEqualsIsToLower(y, "remote");
    LowerEqualsIsToLower(x, "hybrid");
    LowerEqualsIsToLower(y, "hybrid");
  }

  /** Strings with the same lower-case form capitalise alike. */
  lemma SameLowerSameCapitalized(x: String, y: String)
    requires ToLower(x) == ToLower(y)
    ensures Capitalize(x) == Capitalize(y)
  {
    if x != [] {
      assert ToLower(x)[0] == ToLower(y)[0];
      assert ToLower(x[1..]) == ToLower(x)[1..];
      assert ToLower(y[1..]) == ToLower(y)[1..];
    }
  }

  /** The result depends only on the lower-cased trimmed input: spellings
      that differ in case normalise alike. */
  lemma NormalizeCaseInsensitive(a: String, b: String)
    requires ToLower(Trim(a)) == ToLower(Trim(b))
    ensures NormalizeWorkType(a) == NormalizeWorkType(b)
  {
    SameLowerSameMatches(Trim(a), Trim(b));
    SameLowerSameCapitalized(Trim(a), Trim(b));
  }

  lemma UpperKeepsNonWhitespace(c: char)
    requires !IsWhitespace(c)
    ensures !IsWhitespace(ToUpperChar(c)) && !IsWhitespace(ToLowerChar(c))
  {
  }

  /** Capitalising a trimmed string leaves it trimmed. */
  lemma CapitalizeTrimmed(s: String)
    requires Trim(s) == s
    ensures Trim(Capitalize(s)) == Capitalize(s)
  {
    TrimIdentity(s);
    var c := Capitalize(s);
    if s != [] {
      UpperKeepsNonWhitespace(s[0]);
      UpperKeepsNonWhitespace(s[|s| - 1]);
      if |s| > 1 {
        assert c[|c| - 1] == c[1..][|s| - 2] == ToLower(s[1..])[|s| - 2] == ToLowerChar(s[|s| - 1]);
      }
    }
    TrimIdentity(c);
  }

  /** A trimmed string spelling a known arrangement normalises to its
      canonical spelling. */
  lemma KnownSpelling(s: String, word: String)
    requires Trim(s) == s && LowerEquals(s, word)
    requires word == "on-site" || word == "onsite" || word == "remote" || word == "hybrid"
    ensures NormalizeWorkType(s) == (if word == "on-site" || word == "onsite" then "On-site"
                                     else if word == "remote" then "Remote" else "Hybrid")
  {
    LowerEqualsIsToLower(s, word);
    LowerEqualsIsToLower(s, "on-site");
    LowerEqualsIsToLower(s, "onsite");
    LowerEqualsIsToLower(s, "remote");
  }

  /** A spelling without outer whitespace whose characters lower-case to a
      known arrangement normalises to that arrangement's canonical form. */
  lemma CanonicalSpelling(s: String, word: String)
    requires word == "on-site" || word == "onsite" || word == "remote" || word == "hybrid"
    requires |s| == |word|
    requires forall i :: 0 <= i < |s| ==> ToLowerChar(s[i]) == word[i]
    requires !IsWhitespace(s[0]) && !IsWhitespace(s[|s| - 1])
    ensures NormalizeWorkType(s) == (if word == "on-site" || word == "onsite" then "On-site"
                                     else if word == "remote" then "Remote" else "Hybrid")
  {
    TrimIdentity(s);
    LowerEqualsChars(s, word);
    KnownSpelling(s, word);
  }

  /** "OnSite", with no hyphen, is one of the on-site spellings. */
  lemma OnsiteSpelling()
    ensures NormalizeWorkType("OnSite") == "On-site"
  {
    var s: String := "OnSite";
    var word: String := "onsite";
    assert forall i :: 0 <= i < |s| ==> ToLowerChar(s[i]) == word[i];
    CanonicalSpelling(s, word);
  }

  /** One space of padding on each side is trimmed away. */
  lemma PaddedTrim(c: String)
    requires c != [] && !IsWhitespace(c[0]) && !IsWhitespace(c[|c| - 1])
    ensures Trim([' '] + c + [' ']) == c
  {
    var w := [' '] + c + [' '];
    var inner := c + [' '];
    assert w[1..] == inner && inner[0] == c[0];
    assert TrimStart(w) == inner;
    assert inner[..|inner| - 1] == c;
    assert TrimEnd(inner) == TrimEnd(c);
  }

  /** A word led by a letter other than o, r and h is no known
      arrangement. */
  lemma UnknownLead(w: String)
    requires ToLower(Trim(w)) != [] && ToLower(Trim(w))[0] !in {'o', 'r', 'h'}
    ensures NormalizeWorkType(w) == Capitalize(Trim(w))
  {
    var k := ToLower(Trim(w));
    assert k != "on-site" && k != "onsite" && k != "remote" && k != "hybrid" by {
      assert "on-site"[0] == 'o' && "onsite"[0] == 'o' && "remote"[0] == 'r' && "hybrid"[0] == 'h';
    }
  }

  lemma CapitalizeFullTime()
    ensures Capitalize("full-time") == "Full-time"
  {
    var tail: String := "ull-time";
    assert forall i :: 0 <= i < |tail| ==> ToLowerChar(tail[i]) == tail[i];
    assert ToLower(tail) == tail;
    var cleaned: String := "full-time";
    assert cleaned == ['f'] + tail;
    var expected: String := "Full-time";
    assert expected == ['F'] + tail;
  }

  /** An unknown arrangement falls back to capitalisation of the trimmed
      input: " full-time " becomes "Full-time". */
  lemma FallbackCapitalizes()
    ensures NormalizeWorkType(" full-time ") == "Full-time"
  {
    var w: String := " full-time ";
    var cleaned: String := "full-time";
    assert w == [' '] + cleaned + [' '];
    PaddedTrim(cleaned);
    assert Trim(w) == cleaned;
    assert ToLower(cleaned)[0] == ToLowerChar(cleaned[0]) == 'f';
    UnknownLead(w);
    CapitalizeFullTime();
  }

  /** The canonical spellings are fixed points. */
  lemma OnSiteFixed()
    ensures NormalizeWorkType("On-site") == "On-site"
  {
    var s: String := "On-site";
    var word: String := "on-site";
    assert forall i :: 0 <= i < |s| ==> ToLowerChar(s[i]) == word[i];
    CanonicalSpelling(s, word);
  }

  lemma RemoteFixed()
    ensures NormalizeWorkType("Remote") == "Remote"
  {
    var s: String := "Remote";
    var word: String := "remote";
    assert forall i :: 0 <= i < |s| ==> ToLowerChar(s[i]) == word[i];
    CanonicalSpelling(s, word);
  }

  lemma HybridFixed()
    ensures NormalizeWorkType("Hybrid") == "Hybrid"
  {
    var s: String := "Hybrid";
    var word: String := "hybrid";
    assert forall i :: 0 <= i < |s| ==> ToLowerChar(s[i]) == word[i];
    CanonicalSpelling(s, word);
  }

  /** Normalising twice is normalising once. */
  lemma NormalizeIdempotent(w: String)
    ensures NormalizeWorkType(NormalizeWorkType(w)) == NormalizeWorkType(w)
  {
    var cleaned := Trim(w);
    OnSiteFixed();
    RemoteFixed();
    HybridFixed();
    if !(LowerEquals(cleaned, "on-site") || LowerEquals(cleaned, "onsite")
         || LowerEquals(cleaned, "remote") || LowerEquals(cleaned, "hybrid")) {
      var c := Capitalize(cleaned);
      TrimIdempotent(w);
      CapitalizeTrimmed(cleaned);
      LowerOfCapitalize(cleaned);
      SameLowerSameMatches(c, cleaned);
      CapitalizeIdempotent(cleaned);
    }
  }

  /** The converter trims each part before `capitalizeWorkType`, which
      trims again; the first trim changes nothing. */
  lemma TrimBeforeNormalize(w: String)
    ensures NormalizeWorkType(Trim(w)) == NormalizeWorkType(w)
  {
    TrimIdempotent(w);
  }

  /** `work => capitalizeWorkType(work.trim())` over all parts (the inner
      trim dropped, by `TrimBeforeNormalize`). */
  function NormalizeEach(parts: seq<String>): (r: seq<String>)
    ensures |r| == |parts|
    ensures forall i :: 0 <= i < |parts| ==> r[i] == NormalizeWorkType(parts[i])
  {
    seq(|parts|, i requires 0 <= i < |parts| => NormalizeWorkType(parts[i]))
  }

  /** The `let website` rewrites: `startsWith` tests followed by a
      first-occurrence `replace`, then `slice(0, -1)` on a trailing slash.
      They compute exactly the anchored-regex cleaning of the logo helpers,
      which is what `BuildCompany` uses. */
  method CleanWebsite(website: String) returns (cleaned: String)
    ensures cleaned == CleanDomain(website)
  {
    cleaned := website;
    if StartsWith(cleaned, Https) {
      ReplaceFirstPrefix(cleaned, Https);
      cleaned := ReplaceFirst(cleaned, Https, []);
    } else if StartsWith(cleaned, Http) {
      ReplaceFirstPrefix(cleaned, Http);
      cleaned := ReplaceFirst(cleaned, Http, []);
    }
    assert cleaned == StripProtocol(website);
    if StartsWith(cleaned, Www) {
      ReplaceFirstPrefix(cleaned, Www);
      cleaned := ReplaceFirst(cleaned, Www, []);
    }
    if EndsWith(cleaned, "/") {
      cleaned := cleaned[..|cleaned| - 1];
    }
    CleanDomainSteps(website);
  }

  /** The columns the converter reads. */
  predicate HasColumns(rec: Record) {
    "Location" in rec && "Work Arrangement" in rec && "Website" in rec
    && "Company" in rec && "1-liner" in rec && "Year Founded" in rec
  }

  /** The first column, in the order the converter reads them, that the
      record lacks. */
  function MissingColumn(rec: Record): (r: String)
    requires !HasColumns(rec)
    ensures r !in rec
  {
    if "Location" !in rec then "Location"
    else if "Work Arrangement" !in rec then "Work Arrangement"
    else if "Website" !in rec then "Website"
    else if "Company" !in rec then "Company"
    else if "1-liner" !in rec then "1-liner"
    else "Year Founded"
  }

  /** The company built from a record that has every column. */
  function BuildCompany(rec: Record, index: nat): Company
    requires HasColumns(rec)
  {
    var locations := TrimEach(Split(rec["Location"], ','));
    var workArrangements := NormalizeEach(Split(rec["Work Arrangement"], ','));
    Company(
      NatToString(index + 1),
      rec["Company"],
      CleanDomain(rec["Website"]),
      rec["1-liner"],
      rec["Year Founded"],
      locations[0],
      workArrangements[0],
      Some(locations),
      Some(workArrangements))
  }

  /** One record, the `index`-th (0-based): a failure naming the first
      missing column, else the company. */
  function ConvertRecord(rec: Record, index: nat): (r: Result<Company, String>)
    ensures r.Success? <==> HasColumns(rec)
    ensures r.Failure? ==> r.error !in rec
  {
    if HasColumns(rec) then Success(BuildCompany(rec, index)) else Failure(MissingColumn(rec))
  }

  /** The shape of a converted company: the id is the 1-based position, the
      primary location and work type are the first entries, there is one
      location per comma-separated part, each trimmed, and each work type is
      the normalised part. */
  lemma ConvertedShape(rec: Record, index: nat)
    requires HasColumns(rec)
    ensures var c := BuildCompany(rec, index);
      var parts := Split(rec["Location"], ',');
      var works := Split(rec["Work Arrangement"], ',');
      c.id == NatToString(index + 1)
      && ParseDecimal(c.id) == index + 1
      && c.allLocations.Some? && c.allWorkTypes.Some?
      && |c.allLocations.value| == Count(rec["Location"], ',') + 1
      && c.location == c.allLocations.value[0]
      && c.workType == c.allWorkTypes.value[0]
      && (forall i :: 0 <= i < |parts| ==> c.allLocations.value[i] == Trim(parts[i])
                                           && Trim(c.allLocations.value[i]) == c.allLocations.value[i])
      && (forall i :: 0 <= i < |works| ==> c.allWorkTypes.value[i] == NormalizeWorkType(works[i]))
      && c.website == CleanDomain(rec["Website"])
  {
    ParseNatToString(index + 1);
    var parts := Split(rec["Location"], ',');
    forall i | 0 <= i < |parts| ensures Trim(Trim(parts[i])) == Trim(parts[i]) {
      TrimIdempotent(parts[i]);
    }
  }

  /** The first failure among `rs`, else all their values in order. */
  function Collect(rs: seq<Result<Company, String>>): (r: Result<seq<Company>, String>)
    ensures r.Success? <==> forall i :: 0 <= i < |rs| ==> rs[i].Success?
    ensures r.Success? ==> |r.value| == |rs| && forall i :: 0 <= i < |rs| ==> rs[i] == Success(r.value[i])
    ensures r.Failure? ==> exists k :: 0 <= k < |rs| && rs[k] == Failure(r.error)
                                       && forall j :: 0 <= j < k ==> rs[j].Success?
  {
    if rs == [] then Success([])
    else
      var n := |rs| - 1;
      var rest := Collect(rs[..n]);
      assert forall i :: 0 <= i < n ==> rs[..n][i] == rs[i];
      if rest.Failure? then rest
      else if rs[n].Failure? then Failure(rs[n].error)
      else Success(rest.value + [rs[n].value])
  }

  /** `csvData.map(...)`: the converted records, or the failure of the
      first record that fails. */
  function ConvertAll(records: seq<Record>): (r: Result<seq<Company>, String>)
    ensures r.Success? <==> forall i :: 0 <= i < |records| ==> HasColumns(records[i])
    ensures r.Success? ==> |r.value| == |records|
    ensures r.Success? ==> forall i :: 0 <= i < |records| ==> r.value[i] == BuildCompany(records[i], i)
  {
    var rs := seq(|records|, i requires 0 <= i < |records| => ConvertRecord(records[i], i));
    assert forall i :: 0 <= i < |records| ==> (rs[i].Success? <==> HasColumns(records[i]));
    Collect(rs)
  }

  /** A failed conversion reports the first missing column of the first
      record that lacks one. */
  lemma ConvertAllFirstFailure(records: seq<Record>)
    requires ConvertAll(records).Failure?
    ensures exists k :: 0 <= k < |records| && !HasColumns(records[k])
                        && ConvertAll(records).error == MissingColumn(records[k])
                        && forall j :: 0 <= j < k ==> HasColumns(records[j])
  {
    var rs := seq(|records|, i requires 0 <= i < |records| => ConvertRecord(records[i], i));
    assert forall i :: 0 <= i < |records| ==> (rs[i].Success? <==> HasColumns(records[i]));
    assert forall i :: 0 <= i < |records| && rs[i].Failure? ==> rs[i].error == MissingColumn(records[i]);
    assert ConvertAll(records) == Collect(rs);
  }

  /** Converted ids are pairwise distinct. */
  lemma ConvertedIdsDistinct(records: seq<Record>, i: nat, j: nat)
    requires ConvertAll(records).Success?
    requires i < |records| && j < |records| && i != j
    ensures ConvertAll(records).value[i].id != ConvertAll(records).value[j].id
  {
    var cs := ConvertAll(records).value;
    ConvertedShape(records[i], i);
    ConvertedShape(records[j], j);
  }
}
