/** The command-line copy of the CSV converter. Its parser is the same as
    the data directory's (`CsvParse`); its `convertToSampleCompaniesFormat`
    differs in three ways: the description comes from the "Oneliner"
    column, work arrangements are only trimmed, and a trailing slash is
    kept on the website. */
module CsvScripts {
  import opened Wrappers
  import opened Strings
  import opened Companies
  import opened Domains
  import opened CsvParse
  import CsvData

  /** The columns this converter reads. */
  predicate HasColumns(rec: Record) {
    "Location" in rec && "Work Arrangement" in rec && "Website" in rec
    && "Company" in rec && "Oneliner" in rec && "Year Founded" in rec
  }

  /** The first column, in the order the converter reads them, that the
      record lacks. */
  function MissingColumn(rec: Record): (r: String)
    requires !HasColumns(rec)
    ensures r !in rec
  {
    if "Location" !in rec then "Location"
    else if "Work Arrangement" !in rec then "Work Arrangement"
    else if "Website" !in rec then "Website"
    else if "Company" !in rec then "Company"
    else if "Oneliner" !in rec then "Oneliner"
    else "Year Founded"
  }

  /** The website rewrites of this copy: protocol and `www.` only, as
      `startsWith` tests followed by a first-occurrence `replace`. */
  method CleanWebsite(website: String) returns (cleaned: String)
    ensures cleaned == StripWww(StripProtocol(website))
  {
    cleaned := website;
    ProtocolsExclusive(website);
    if StartsWith(cleaned, Https) {
      ReplaceFirstPrefix(cleaned, Https);
      cleaned := ReplaceFirst(cleaned, Https, []);
    } else if StartsWith(cleaned, Http) {
      ReplaceFirstPrefix(cleaned, Http);
      cleaned := ReplaceFirst(cleaned, Http, []);
    }
    if StartsWith(cleaned, Www) {
      ReplaceFirstPrefix(cleaned, Www);
      cleaned := ReplaceFirst(cleaned, Www, []);
    }
  }

  /** The company built from a record that has every column. */
  function BuildCompany(rec: Record, index: nat): Company
    requires HasColumns(rec)
  {
    var locations := TrimEach(Split(rec["Location"], ','));
    var workArrangements := TrimEach(Split(rec["Work Arrangement"], ','));
    Company(
      NatToString(index + 1),
      rec["Company"],
      StripWww(StripProtocol(rec["Website"])),
      rec["Oneliner"],
      rec["Year Founded"],
      locations[0],
      workArrangements[0],
      Some(locations),
      Some(workArrangements))
  }

  /** One record, the `index`-th (0-based). */
  function ConvertRecord(rec: Record, index: nat): (r: Result<Company, String>)
    ensures r.Success? <==> HasColumns(rec)
    ensures r.Failure? ==> r.error !in rec
  {
    if HasColumns(rec) then Success(BuildCompany(rec, index)) else Failure(MissingColumn(rec))
  }

  /** `csvData.map(...)` of this copy. */
  function ConvertAll(records: seq<Record>): (r: Result<seq<Company>, String>)
    ensures r.Success? <==> forall i :: 0 <= i < |records| ==> HasColumns(records[i])
    ensures r.Success? ==> |r.value| == |records|
    ensures r.Success? ==> forall i :: 0 <= i < |records| ==> r.value[i] == BuildCompany(records[i], i)
  {
    var rs := seq(|records|, i requires 0 <= i < |records| => ConvertRecord(records[i], i));
    assert forall i :: 0 <= i < |records| ==> (rs[i].Success? <==> HasColumns(records[i]));
    CsvData.Collect(rs)
  }

  /** The shape of a company built by this copy: the id is the 1-based
      position, the primary location and work type are the first entries,
      there is one location per comma-separated part, locations and work
      arrangements are only trimmed, the description is the "Oneliner"
      column and the website loses a protocol and "www." only. */
  lemma ConvertedShape(rec: Record, index: nat)
    requires HasColumns(rec)
    ensures var c := BuildCompany(rec, index);
      var parts := Split(rec["Location"], ',');
      var works := Split(rec["Work Arrangement"], ',');
      c.id == NatToString(index + 1)
      && ParseDecimal(c.id) == index + 1
      && c.name == rec["Company"] && c.year == rec["Year Founded"]
      && c.description == rec["Oneliner"]
      && c.allLocations.Some? && c.allWorkTypes.Some?
      && |c.allLocations.value| == Count(rec["Location"], ',') + 1
      && |c.allWorkTypes.value| == Count(rec["Work Arrangement"], ',') + 1
      && c.location == c.allLocations.value[0]
      && c.workType == c.allWorkTypes.value[0]
      && (forall i :: 0 <= i < |parts| ==> c.allLocations.value[i] == Trim(parts[i]))
      && (forall i :: 0 <= i < |works| ==> c.allWorkTypes.value[i] == Trim(works[i]))
      && c.website == StripWww(StripProtocol(rec["Website"]))
  {
    ParseNatToString(index + 1);
  }

  /** On a record carrying both description columns, the two copies agree
      on id, name, year and locations, and the data directory's website is
      this copy's without a trailing slash. */
  lemma CopiesAgree(rec: Record, index: nat)
    requires HasColumns(rec) && CsvData.HasColumns(rec)
    ensures var a := BuildCompany(rec, index);
      var b := CsvData.BuildCompany(rec, index);
      a.id == b.id && a.name == b.name && a.year == b.year
      && a.location == b.location && a.allLocations == b.allLocations
      && b.website == StripTrailingSlash(a.website)
  {
    CleanDomainSteps(rec["Website"]);
  }

  /** The data directory's work types are this copy's, normalised. */
  lemma WorkTypesNormalized(rec: Record, index: nat)
    requires HasColumns(rec) && CsvData.HasColumns(rec)
    ensures var a := BuildCompany(rec, index).allWorkTypes.value;
      var b := CsvData.BuildCompany(rec, index).allWorkTypes.value;
      |b| == |a| && forall k :: 0 <= k < |a| ==> b[k] == CsvData.NormalizeWorkType(a[k])
  {
    var works := Split(rec["Work Arrangement"], ',');
    var a := BuildCompany(rec, index).allWorkTypes.value;
    var b := CsvData.BuildCompany(rec, index).allWorkTypes.value;
    assert a == TrimEach(works);
    assert b == CsvData.NormalizeEach(works);
    forall k | 0 <= k < |a| ensures b[k] == CsvData.NormalizeWorkType(a[k]) {
      CsvData.TrimBeforeNormalize(works[k]);
    }
  }

  /** A decorated domain keeps its trailing slash here, where the data
      directory's copy removes it. */
  lemma TrailingSlashKept(p: String, d: String)
    requires p == Https || p == Http
    ensures StripWww(StripProtocol(p + Www + d + "/")) == d + "/"
    ensures CleanDomain(p + Www + d + "/") == d
  {
    var s := p + Www + d + "/";
    assert s == p + (Www + (d + "/"));
    ProtocolStrip(p, Www + (d + "/"));
    assert (Www + (d + "/"))[..|Www|] == Www;
    assert (Www + (d + "/"))[|Www|..] == d + "/";
    StripsExactlyOneOfEach(p, d);
  }
}
