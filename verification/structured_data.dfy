/** The schema.org JSON-LD builders: an Organization per company, an
    ItemList of companies and a BreadcrumbList. Object literals become
    datatypes; the constant "@type" and "@context" members are left
    implicit in the datatype names. */
module StructuredData {
  import opened Wrappers
  import opened Strings
  import opened Companies
  import Domains
  import ViewStats

  datatype PostalAddress = PostalAddress(addressLocality: String, addressCountry: String)

  datatype Organization = Organization(
    name: String,
    url: String,
    description: String,
    foundingDate: String,
    address: PostalAddress,
    workArrangement: seq<String>)

  /** `company.allWorkTypes || [company.workType]`: an array, even an empty
      one, is truthy. */
  function WorkArrangement(c: Company): (r: seq<String>)
    ensures c.allWorkTypes.Some? ==> r == c.allWorkTypes.value
    ensures c.allWorkTypes.None? ==> r == [c.workType]
    ensures r != [] || c.allWorkTypes == Some([])
  {
    match c.allWorkTypes
    case Some(ws) => ws
    case None => [c.workType]
  }

  /** A company's schema lists exactly the work arrangements the listing
      pages' statistics count for it. */
  lemma WorkArrangementIsCounted(c: Company)
    ensures (set t | t in WorkArrangement(c)) == ViewStats.WorkTypeValues(c)
  {
  }

  /** `generateOrganizationSchema`. */
  function OrganizationSchema(c: Company): (r: Organization)
    ensures r.name == c.name && r.description == c.description && r.foundingDate == c.year
    ensures r.url == Domains.Https + c.website
    ensures r.address.addressCountry == "AU"
    ensures r.address.addressLocality == c.location
    ensures r.workArrangement == WorkArrangement(c)
  {
    Organization(c.name, Domains.Https + c.website, c.description, c.year,
                 PostalAddress(c.location, "AU"), WorkArrangement(c))
  }

  /** The organization URL names the company's website: cleaning it gives
      back a bare domain. */
  lemma OrganizationUrlRoundTrip(c: Company)
    requires !StartsWith(c.website, Domains.Http) && !StartsWith(c.website, Domains.Https)
    requires !StartsWith(c.website, Domains.Www) && !EndsWith(c.website, "/")
    ensures Domains.CleanDomain(OrganizationSchema(c).url) == c.website
  {
    Domains.CleanDomainRoundTrip(Domains.Https, "", c.website, "");
    assert Domains.Https + "" + c.website + "" == Domains.Https + c.website;
  }

  datatype ListItem = ListItem(position: nat, item: Organization)

  datatype ItemList = ItemList(
    name: String,
    description: String,
    numberOfItems: nat,
    itemListElement: seq<ListItem>)

  /** `generateItemListSchema`: one list item per company, in order, at
      1-based positions. */
  function ItemListSchema(companies: seq<Company>, name: String, description: String): (r: ItemList)
    ensures r.numberOfItems == |companies| == |r.itemListElement|
    ensures forall i :: 0 <= i < |companies| ==>
      r.itemListElement[i].position == i + 1 && r.itemListElement[i].item == OrganizationSchema(companies[i])
  {
    ItemList(name, description, |companies|,
             seq(|companies|, i requires 0 <= i < |companies| => ListItem(i + 1, OrganizationSchema(companies[i]))))
  }

  /** The work arrangements named anywhere in a page's item list are
      exactly those the page's work-arrangement statistic counts. */
  lemma ItemListWorkArrangements(cs: seq<Company>, name: String, description: String)
    ensures (set i, t | 0 <= i < |cs| && t in ItemListSchema(cs, name, description).itemListElement[i].item.workArrangement :: t)
            == ViewStats.ViewWorkTypes(cs)
  {
    var items := ItemListSchema(cs, name, description).itemListElement;
    var named := set i, t | 0 <= i < |cs| && t in items[i].item.workArrangement :: t;
    forall t | t in named ensures t in ViewStats.ViewWorkTypes(cs) {
      var i :| 0 <= i < |cs| && t in items[i].item.workArrangement;
      WorkArrangementIsCounted(cs[i]);
      assert t in ViewStats.WorkTypeValues(cs[i]);
    }
    forall t | t in ViewStats.ViewWorkTypes(cs) ensures t in named {
      var c :| c in cs && t in ViewStats.WorkTypeValues(c);
      var i :| 0 <= i < |cs| && cs[i] == c;
      WorkArrangementIsCounted(c);
      assert t in items[i].item.workArrangement;
    }
  }

  /** Listing two groups of companies one after the other gives the first
      group's items followed by the second's, shifted by the first group's
      size. */
  lemma ItemListConcat(a: seq<Company>, b: seq<Company>, name: String, description: String)
    ensures var all := ItemListSchema(a + b, name, description).itemListElement;
      all[..|a|] == ItemListSchema(a, name, description).itemListElement
      && forall k :: 0 <= k < |b| ==>
           all[|a| + k] == ListItem(|a| + k + 1, ItemListSchema(b, name, description).itemListElement[k].item)
  {
    var all := ItemListSchema(a + b, name, description).itemListElement;
    forall k | 0 <= k < |b| ensures (a + b)[|a| + k] == b[k] { }
    assert all[..|a|] == ItemListSchema(a, name, description).itemListElement;
  }

  /** `BreadcrumbItem`. */
  datatype BreadcrumbItem = BreadcrumbItem(name: String, url: String)

  datatype Crumb = Crumb(position: nat, name: String, item: String)

  /** `generateBreadcrumbSchema`: the items in order at 1-based positions,
      names and URLs copied. */
  function BreadcrumbSchema(items: seq<BreadcrumbItem>): (r: seq<Crumb>)
    ensures |r| == |items|
    ensures forall i :: 0 <= i < |items| ==> r[i].position == i + 1
  {
    seq(|items|, i requires 0 <= i < |items| => Crumb(i + 1, items[i].name, items[i].url))
  }

  /** Reading the names and URLs back off the crumbs gives the items. */
  function CrumbItems(crumbs: seq<Crumb>): (r: seq<BreadcrumbItem>)
    ensures |r| == |crumbs|
  {
    seq(|crumbs|, i requires 0 <= i < |crumbs| => BreadcrumbItem(crumbs[i].name, crumbs[i].item))
  }

  /** Round trip: no name or URL is altered or reordered. */
  lemma BreadcrumbRoundTrip(items: seq<BreadcrumbItem>)
    ensures CrumbItems(BreadcrumbSchema(items)) == items
  {
    var back := CrumbItems(BreadcrumbSchema(items));
    assert forall i :: 0 <= i < |items| ==> back[i] == items[i];
  }
}
