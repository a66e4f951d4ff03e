# Sweat Equity Jobs — a Dafny model of the directory's data logic

Sweat Equity Jobs is a directory of Australian startups that offer equity.
Its data starts as a CSV export. A converter turns each row into a company
record with these fields:

- an id, a name, a cleaned website, a description and a founding year;
- a primary location and a primary work type;
- the full lists of locations and work types.

The site's pages then filter, sort, count and display those records. This
project models that logic in Dafny and proves what the code promises about
it:

- **CSV parsing.** The quote-aware line scanner and the header-keyed record
  builder. One module, `CsvParse`, models both copies of the parser, which
  are the same code.
- **CSV conversion.** The two converters, `CsvData` and `CsvScripts`. They
  differ in the description column, in work-type normalisation and in the
  trailing-slash rule.
- **Website cleaning.** The shared protocol / `www.` / trailing-slash
  rewrite (`Domains`). It is used by the card's logo URL, by the logo script
  and by the converters.
- **Name sort.** The lower-cased name sort (`Utils`). It is modelled as a
  stable insertion sort, with code-point order standing in for
  `localeCompare`.
- **Pages.** The remote, other-cities and home pages. This covers their
  filters, the counting helpers, the home page's blank-skipping statistics,
  and the remote page's "Remote first" remapping.
- **Company card.** The card's display strings, tooltip text and logo URL.
- **Logo script.** Its logo URL and safe file name.
- **Logo marquee.** The logo lookup, the Fisher–Yates shuffle and the
  two-row arrangement.
- **Structured data.** The schema.org Organization, ItemList and
  BreadcrumbList objects.
- **City navigation.** The city links, the remote/other link flags and the
  heading.
- **Companies grid.** Its progressive disclosure.
- **FAQ.** The accordion's open-item toggling.

JavaScript's missing values are modelled explicitly: `undefined` becomes
`Option`, and a thrown error becomes `Result`. Where the code tests a
string's truthiness, the empty string is treated like a missing value.

## Model

| member | source | states |
|---|---|---|
| Utils.InsertByName | src/lib/utils.ts:15-17 | inserting into a name-sorted list keeps it sorted and adds exactly that company |
| Utils.SortCompaniesByName | src/lib/utils.ts:14-18 | the result is a permutation of the input (same multiset, same length) ordered by lower-cased name |
| Utils.SortEmpty | src/lib/utils.ts:14-18 | sorting no companies gives no companies |
| Utils.SortIsStable | src/lib/utils.ts:15-17 | companies with equal lower-cased names keep their input order (stability) |
| Utils.SortOfSorted | src/lib/utils.ts:14-18 | a list already in name order is returned unchanged |
| Utils.SortIdempotent | src/lib/utils.ts:14-18 | sorting twice equals sorting once |
| ViewStats.UniqueCitiesCount | src/app/other/page.tsx:101-110 | the loop's count equals the number of distinct primary and listed locations |
| ViewStats.UniqueWorkArrangementsCount | src/app/other/page.tsx:113-123 | the loop's count equals the number of distinct work types, the primary one being used only when the list is absent |
| ViewStats.SameMembersSameStats | src/app/other/page.tsx:143-150 | two lists with the same members have the same city and work-type sets, whatever their order |
| OtherPage.FilterOtherCitiesCompanies | src/app/other/page.tsx:81-98 | a company is kept iff neither its primary location nor any listed location is a major city (case-insensitive); input order is kept |
| OtherPage.MetaCountMatchesPage | src/app/other/page.tsx:25-46 | the metadata title's count equals the number of companies the page lists; a company appears as often as in the data when it has no major-city location, and not at all otherwise |
| OtherPage.StatsIgnoreSort | src/app/other/page.tsx:143-150 | the statistics of the sorted list equal those of the unsorted filter result |
| OtherPage.NoMajorCityOnPage | src/app/other/page.tsx:84-96 | no listed company has a major-city location, primary or listed |
| RemotePage.FilterRemoteCompanies | src/app/remote/page.tsx:61-68 | a company is kept iff its work type or one of its listed work types lower-cases to "remote"; input order is kept |
| RemotePage.MetaCountMatchesPage | src/app/remote/page.tsx:15-26 | the metadata title's count equals the number of listed companies; a company appears as often as in the data when it offers remote work, and not at all otherwise |
| RemotePage.StatsIgnoreSort | src/app/remote/page.tsx:113-117 | sorting before counting changes neither statistic |
| RemotePage.ShowAsRemote | src/app/remote/page.tsx:172-181 | the card data gets work type "Remote" and lists "Remote" first, then the other work types without any "Remote", in order and each as often as before; other fields are unchanged |
| RemotePage.ShowAsRemoteIdempotent | src/app/remote/page.tsx:172-181 | remapping a remapped company changes nothing |
| RemotePage.ShowAsRemoteStaysRemote | src/app/remote/page.tsx:172-181 | a remapped company still passes the remote filter |
| RemotePage.DisplayedRemoteCompanies | src/app/remote/page.tsx:172-181 | the grid receives every listed company remapped, position by position |
| RemotePage.AllDisplayedAreRemote | src/app/remote/page.tsx:172-181 | every displayed card shows "Remote" as its work type and first listed work type |
| HomePage.BlankIsTrimEmpty | src/app/page.tsx:37 | a value is skipped iff it is empty or only whitespace |
| HomePage.NonBlankMembers | src/app/page.tsx:36-40 | the values collected from a list are exactly its non-blank entries |
| HomePage.AddNonBlank | src/app/page.tsx:36-40 | the inner loop adds exactly the list's non-blank entries to the set |
| HomePage.CalculateStats | src/app/page.tsx:30-54 | it fails iff some company lacks a location or work-type list (where the code throws); otherwise the counts are the sizes of the non-blank location and work-type sets |
| HomePage.HomeCitiesMembers | src/app/page.tsx:34-41 | a string is counted as a city iff some company lists it and it is not blank |
| HomePage.HomeWorkTypesMembers | src/app/page.tsx:42-48 | a string is counted as a work type iff some company lists it and it is not blank |
| HomePage.NoBlankCounted | src/app/page.tsx:37-46 | no counted value trims to the empty string |
| HomePage.OnlyArraysMatter | src/app/page.tsx:34-48 | the statistics depend only on the location and work-type lists, not on the primary fields |
| HomePage.TwoDistinctEntries | src/app/page.tsx:36-40 | two distinct non-blank locations of one company count as two |
| HomePage.CaseSensitiveDistinctness | src/app/page.tsx:36-40 | "Sydney" and "sydney" count as two cities, because the set compares exact strings |
| HomePage.CitiesAtMostEntries | src/app/page.tsx:30-52 | the city count never exceeds the number of listed locations |
| HomePage.WorkTypesAtMostEntries | src/app/page.tsx:30-52 | the work-arrangement count never exceeds the number of listed work types |
| HomePage.AddingCompanyNeverLowersCounts | src/app/page.tsx:30-52 | adding a company never lowers either count |
| HomePage.HomeCitiesWithinViewCities | src/app/page.tsx:34-41 | the home page's city set is contained in the set the other pages count |
| Domains.ProtocolsExclusive | src/data/csv-to-json.js:81-85 | a website cannot start with both "https://" and "http://", so the if/else-if picks at most one |
| Domains.StripProtocol | src/components/CompanyCard.tsx:17 | a leading "https://" or "http://" is removed; otherwise the string is unchanged |
| Domains.StripWww | src/components/CompanyCard.tsx:18 | a leading "www." is removed; otherwise the string is unchanged |
| Domains.StripTrailingSlash | src/components/CompanyCard.tsx:19 | one trailing "/" is removed; otherwise the string is unchanged |
| Domains.CleanDomain | src/components/CompanyCard.tsx:16-19 | the cleaned domain is a suffix of the website, or of the website minus its final slash, at most 13 characters shorter |
| Domains.StripsExactlyOneOfEach | src/components/CompanyCard.tsx:16-19 | a protocol, "www." and trailing "/" around a domain are each removed exactly once |
| Domains.ProtocolStrip | src/components/CompanyCard.tsx:17 | stripping a protocol from protocol + rest gives back the rest |
| Domains.CleanDomainRoundTrip | src/components/CompanyCard.tsx:16-19 | any decoration (optional protocol, "www.", slash) of a bare domain cleans back to that domain |
| Domains.LogoDevUrl | src/components/CompanyCard.tsx:27 | the URL starts with the logo.dev base, the domain follows it directly, and the rest is "?token=" + key + "&size=" + size + "&retina=true" |
| CompanyCard.FindLowered | src/components/CompanyCard.tsx:55-57 | finds the first location whose lower-cased form is the key, or reports that none matches |
| CompanyCard.LocationDisplay | src/components/CompanyCard.tsx:47-66 | at most one location shows the primary location; otherwise "<first or current-city match> + <count − 1>" |
| CompanyCard.CurrentCityFirst | src/components/CompanyCard.tsx:53-61 | on a Sydney page a Perth-and-Sydney company is summarised as "Sydney + 1" |
| CompanyCard.WorkTypeDisplay | src/components/CompanyCard.tsx:76-83 | at most one work type shows the primary one; otherwise "<primary> + <count − 1>" |
| CompanyCard.TooltipText | src/components/CompanyCard.tsx:70-74 | with more than one entry the tooltip lists them all separated by ", ": for comma-free entries it holds exactly one comma fewer than there are entries; otherwise it is the primary value |
| CompanyCard.TooltipCommas | src/components/CompanyCard.tsx:72 | joining comma-free entries puts exactly one comma between consecutive entries |
| CompanyCard.CapitalizeAppendLower | src/components/CompanyCard.tsx:160 | capitalising a non-empty word followed by a lower-case tail capitalises the word and keeps the tail |
| CompanyCard.CapitalizeSummary | src/components/CompanyCard.tsx:160 | capitalising a "W + N" summary capitalises the work type and keeps " + N" |
| CompanyCard.WorkTypeLabel | src/components/CompanyCard.tsx:154-172 | the label is the capitalised work type, or the capitalised summary when there are several |
| CompanyCard.CardLogoUrl | src/components/CompanyCard.tsx:14-28 | empty iff the key is missing or empty; otherwise the size-48 logo.dev URL of the cleaned domain |
| CompanyCard.CardLogoUrlRoundTrip | src/components/CompanyCard.tsx:14-28 | a decorated website yields the URL of its bare domain |
| CsvParse.ParseLine | src/data/csv-to-json.js:27-47 | a line always yields at least one field |
| CsvParse.ParseCSVLine | src/data/csv-to-json.js:27-47 | the character loop computes the scanner's fields |
| CsvParse.QuoteParity | src/data/csv-to-json.js:35-36 | after a prefix, the scanner is inside quotes iff the prefix holds an odd number of '"' |
| CsvParse.FieldCount | src/data/csv-to-json.js:32-46 | the number of fields is one more than the number of commas outside quotes |
| CsvParse.NoQuoteInFields | src/data/csv-to-json.js:35-36 | no field contains a '"' |
| CsvParse.QuotedFieldKeepsCommas | src/data/csv-to-json.js:35-45 | a quoted value with commas stays one field, trimmed |
| CsvParse.QuoteFreeLineIsSplit | src/data/csv-to-json.js:32-46 | on a quote-free line the parser is split-on-comma then trim |
| CsvParse.JoinFieldsRoundTrip | src/data/csv-to-json.js:27-47 | rejoining the fields of a quote-free line of trimmed fields gives the line back |
| CsvParse.HeaderName | src/data/csv-to-json.js:8 | the trimmed header with every '"' removed: no quote is left, every other character keeps its multiplicity and order, and a quote-free header is just trimmed |
| CsvParse.Headers | src/data/csv-to-json.js:8 | headers are a plain comma split (quotes ignored), trimmed and unquoted, one more than the commas |
| CsvParse.BuildRecord | src/data/csv-to-json.js:15-18 | the record's keys are exactly the headers |
| CsvParse.RecordLastWins | src/data/csv-to-json.js:16-18 | with a repeated header the last column wins, its value stripped of quotes |
| CsvParse.RowRecords | src/data/csv-to-json.js:12-21 | never more records than rows |
| CsvParse.Lines | src/data/csv-to-json.js:7 | the trimmed content splits into at least one line |
| CsvParse.FillRecord | src/data/csv-to-json.js:15-18 | the header loop builds the record of the headers and values |
| CsvParse.ParseCSV | src/data/csv-to-json.js:6-24 | the parse equals the records of the rows after the header line |
| CsvParse.PushRow | src/data/csv-to-json.js:13-20 | a record of the line's fields is pushed iff the line has as many fields as there are headers |
| CsvParse.ParseRows | src/data/csv-to-json.js:12-21 | the row loop builds the records of the rows that fit the headers |
| CsvParse.KeptRows | src/data/csv-to-json.js:14 | the kept rows are exactly those whose field count equals the header count |
| CsvParse.RowRecordsOfKeptRows | src/data/csv-to-json.js:12-21 | the k-th record is built from the k-th kept row, and there is one record per kept row |
| CsvParse.RecordKeys | src/data/csv-to-json.js:14-19 | every record has exactly the header keys |
| CsvParse.ValueQuoteRemovalIsNoop | src/data/csv-to-json.js:17 | removing quotes from parsed values changes nothing |
| CsvParse.HeaderSplitIgnoresQuotes | src/data/csv-to-json.js:8 | a quoted header with a comma becomes two header names, where a value line keeps one field |
| CsvData.NormalizeWorkType | src/data/csv-to-json.js:50-66 | with k the trimmed, lower-cased input: "on-site" or "onsite" gives "On-site", "remote" gives "Remote", "hybrid" gives "Hybrid", and anything else is the trimmed input with its first character upper-cased and the rest lower-cased |
| CsvData.LowerEqualsIsToLower | src/data/csv-to-json.js:54 | the case-insensitive word test is `toLowerCase() === word` |
| CsvData.NormalizeCaseInsensitive | src/data/csv-to-json.js:50-66 | two work types that agree after trimming and lower-casing normalise alike |
| CsvData.CapitalizeTrimmed | src/data/csv-to-json.js:65 | capitalising a trimmed string leaves it trimmed |
| CsvData.KnownSpelling | src/data/csv-to-json.js:54-62 | any spelling of on-site, onsite, remote or hybrid normalises to the canonical label |
| CsvData.CanonicalSpelling | src/data/csv-to-json.js:54-62 | a spelling with no outer whitespace that lower-cases character by character to on-site, onsite, remote or hybrid normalises to the canonical label |
| CsvData.OnsiteSpelling | src/data/csv-to-json.js:54-56 | "OnSite", without a hyphen, normalises to "On-site" |
| CsvData.PaddedTrim | src/data/csv-to-json.js:51 | one space of padding on each side of a word with no outer whitespace is trimmed away |
| CsvData.UnknownLead | src/data/csv-to-json.js:53-65 | a work type whose lower-cased form starts with a letter other than o, r or h takes the capitalising fallback |
| CsvData.FallbackCapitalizes | src/data/csv-to-json.js:64-65 | the unknown arrangement " full-time " normalises to "Full-time" |
| CsvData.OnSiteFixed | src/data/csv-to-json.js:54-56 | "On-site" is its own normal form |
| CsvData.RemoteFixed | src/data/csv-to-json.js:57-59 | "Remote" is its own normal form |
| CsvData.HybridFixed | src/data/csv-to-json.js:60-62 | "Hybrid" is its own normal form |
| CsvData.NormalizeIdempotent | src/data/csv-to-json.js:50-66 | normalising a normalised work type changes nothing |
| CsvData.TrimBeforeNormalize | src/data/csv-to-json.js:76 | trimming before normalising (as the caller does) changes nothing |
| CsvData.NormalizeEach | src/data/csv-to-json.js:76 | each work arrangement is normalised, position by position |
| CsvData.CleanWebsite | src/data/csv-to-json.js:80-92 | the step-by-step rewrites compute the shared cleaned domain |
| CsvData.MissingColumn | src/data/csv-to-json.js:72-98 | names a column the record really lacks |
| CsvData.ConvertRecord | src/data/csv-to-json.js:70-105 | succeeds iff the record has every column read; a failure names a missing column |
| CsvData.ConvertedShape | src/data/csv-to-json.js:70-105 | the id prints index + 1; primary location and work type are the first of their lists; locations trimmed; work types normalised; one entry more than commas; website cleaned |
| CsvData.Collect | src/data/csv-to-json.js:70-106 | succeeds iff every element does, with their values in order; otherwise fails with one element's error |
| CsvData.ConvertAll | src/data/csv-to-json.js:69-107 | succeeds iff every record has its columns, with one company per record in order |
| CsvData.ConvertAllFirstFailure | src/data/csv-to-json.js:70-106 | a failure reports the first record that lacks a column, and names a column it lacks |
| CsvData.ConvertedIdsDistinct | src/data/csv-to-json.js:95 | converted companies have pairwise distinct ids |
| CsvScripts.MissingColumn | scripts/csv-to-json.js:52-75 | names a column the record really lacks |
| CsvScripts.CleanWebsite | scripts/csv-to-json.js:60-68 | the rewrites remove a protocol and "www." but no trailing slash |
| CsvScripts.ConvertRecord | scripts/csv-to-json.js:50-81 | succeeds iff the record has every column read; a failure names a missing column |
| CsvScripts.ConvertAll | scripts/csv-to-json.js:49-83 | succeeds iff every record has its columns, with one company per record in order |
| CsvScripts.ConvertedShape | scripts/csv-to-json.js:52-79 | the id prints index + 1; name, year and the "Oneliner" description are copied; one location and one work arrangement per comma-separated part, each only trimmed; the primary location and work type are the first of their lists; the website loses a protocol and "www." only |
| CsvScripts.CopiesAgree | scripts/csv-to-json.js:49-83 | the two converters agree on id, name, year and locations; the data copy's website is this one's without a trailing slash |
| CsvScripts.WorkTypesNormalized | scripts/csv-to-json.js:56 | the data copy's work types are this copy's, normalised |
| CsvScripts.TrailingSlashKept | scripts/csv-to-json.js:60-68 | "https://www.d/" becomes "d/" here but "d" in the data copy |
| FetchLogos.Sanitize | scripts/fetch-logos.js:56 | same length; safe characters kept and every other character replaced by '_' |
| FetchLogos.SanitizeIdempotent | scripts/fetch-logos.js:56 | sanitising twice equals sanitising once |
| FetchLogos.SanitizeSafe | scripts/fetch-logos.js:56 | a name of safe characters is unchanged |
| FetchLogos.CreateSafeFilename | scripts/fetch-logos.js:51-57 | the file name is as long as the cleaned domain; each character in [a-zA-Z0-9.-] keeps its place and every other one becomes a single '_' |
| FetchLogos.SanitizeAppend | scripts/fetch-logos.js:56 | the character replacement works piece by piece: sanitising a concatenation concatenates the sanitised parts |
| FetchLogos.PathSlashReplaced | scripts/fetch-logos.js:51-57 | a website "domain/path" of safe characters, with any scheme, "www." and trailing slash, is saved as "domain_path": the slash becomes '_' and the decorations are dropped |
| FetchLogos.GenerateLogoUrl | scripts/fetch-logos.js:15-27 | fails with the missing-key message iff the key is absent or empty; otherwise the size-60 logo.dev URL of the cleaned domain |
| FetchLogos.GenerateLogoUrlRoundTrip | scripts/fetch-logos.js:15-27 | a decorated website yields its bare domain's URL, and a safe bare domain is its own file name |
| LogoMarquee.GetLogoPath | src/components/LogoMarquee.tsx:12-16 | every logo path is non-empty and is either the placeholder or one of the mapped paths: the mapped one when present and non-empty |
| LogoMarquee.SwappedPermutes | src/components/LogoMarquee.tsx:23 | one destructuring swap keeps the multiset of entries, and swapping an entry with itself changes nothing |
| LogoMarquee.ShuffleArray | src/components/LogoMarquee.tsx:19-26 | the swap loop returns a permutation of the input; identity draws keep the order |
| LogoMarquee.WhitelistedInInputOrder | src/components/LogoMarquee.tsx:62-71 | the whitelisted pool companies are the input's whitelisted companies, in input order |
| LogoMarquee.Slice | src/components/LogoMarquee.tsx:83-86 | `slice` with clamped bounds: the length and the entries copied from `start` |
| LogoMarquee.BottomRow | src/components/LogoMarquee.tsx:90-93 | with k = min(shuffled, max(0, 20 − whitelisted)), the bottom row is exactly the min(20, shuffled − k) shuffled companies from index k on, so never more than 20 |
| LogoMarquee.TopRowShape | src/components/LogoMarquee.tsx:81-87 | the top row is every whitelisted company then min(others, max(0, 20 − whitelisted)) others |
| LogoMarquee.RowsShareNoOther | src/components/LogoMarquee.tsx:79-93 | the two rows' shuffled parts together use each shuffled company at most once |
| LogoMarquee.RowsAreSlices | src/components/LogoMarquee.tsx:81-93 | the top row is the whitelisted companies followed by the first k shuffled ones, and the bottom row is the shuffled slice [k, k + min(20, shuffled − k)) |
| LogoMarquee.RowsInPool | src/components/LogoMarquee.tsx:60-93 | for any shuffle of the others, the bottom row has no whitelisted company and every company in either row is an input company in the pool |
| LogoMarquee.ArrangedRows | src/components/LogoMarquee.tsx:60-100 | for any shuffle of the others, the rows are the two slices and have every property the effect promises |
| LogoMarquee.RowsFromShuffled | src/components/LogoMarquee.tsx:81-93 | both rows' others come from the shuffled list |
| LogoMarquee.ArrangeRows | src/components/LogoMarquee.tsx:60-100 | returns, as a ghost, the shuffled others, a permutation of the non-whitelisted pool; the top row is the whitelisted companies then its first k entries and the bottom row its next min(20, shuffled − k); top row shape and whitelisted prefix; bottom row at most 20 with no whitelisted company; no other shared; every entry an input company in the pool |
| StructuredData.WorkArrangement | src/lib/structuredData.ts:17 | non-empty unless the company carries an empty work-type list (an empty array is truthy) |
| StructuredData.WorkArrangementIsCounted | src/lib/structuredData.ts:17 | a company's schema names exactly the work arrangements the listing pages' statistic counts for it |
| StructuredData.OrganizationSchema | src/lib/structuredData.ts:5-19 | name, description and founding year copied from the company; URL "https://" + website; country "AU"; locality the primary location; the work arrangements of `allWorkTypes || [workType]` |
| StructuredData.OrganizationUrlRoundTrip | src/lib/structuredData.ts:9 | cleaning the schema URL of a bare domain gives the website back |
| StructuredData.ItemListSchema | src/lib/structuredData.ts:22-39 | numberOfItems is the list length, and item i is at position i + 1 holding company i's organisation |
| StructuredData.ItemListWorkArrangements | src/app/remote/page.tsx:96-120 | the work arrangements named anywhere in a page's item list are exactly those its work-arrangement statistic counts |
| StructuredData.ItemListConcat | src/lib/structuredData.ts:32-37 | the list of a + b is the list of a followed by b's items, shifted by \|a\| |
| StructuredData.BreadcrumbSchema | src/lib/structuredData.ts:42-53 | one crumb per item, at position i + 1 |
| StructuredData.CrumbItems | src/lib/structuredData.ts:46-51 | reading the items back gives one per crumb |
| StructuredData.BreadcrumbRoundTrip | src/lib/structuredData.ts:46-51 | the crumbs keep every item's name and URL, in order |
| CityNavigation.FilteredCities | src/components/CityNavigation.tsx:21-26 | without a city every link is kept; otherwise exactly the cities whose lower-cased name differs, in order |
| CityNavigation.CityNamesDistinctLowered | src/components/CityNavigation.tsx:12-19 | no two cities share a lower-cased name |
| CityNavigation.AtMostOneCityRemoved | src/components/CityNavigation.tsx:12-26 | the filter removes at most one city |
| CityNavigation.LinksAndHeading | src/components/CityNavigation.tsx:28-38 | at least one of the two links is shown; the heading is "Browse by city" iff the remote link is hidden, "Browse by location" iff the other link is hidden, and "Other locations" iff both are shown |
| CompaniesGrid.VisibleCardsArePrefix | src/components/CompaniesGrid.tsx:39-52 | the first 8 cards are never hidden, a hidden card has only hidden cards after it, and nothing is hidden without disclosure or once expanded |
| CompaniesGrid.HiddenIffButton | src/components/CompaniesGrid.tsx:39-71 | some card is hidden iff the expand button is shown |
| CompaniesGrid.ButtonLabel | src/components/CompaniesGrid.tsx:87 | the label is "Show all " + digits + " companies" |
| CompaniesGrid.ButtonLabelStatesCount | src/components/CompaniesGrid.tsx:87 | the label's number reads back as the company count |
| CompaniesGrid.Grid.constructor | src/components/CompaniesGrid.tsx:18 | `isExpanded` starts at `expandedByDefault` |
| CompaniesGrid.Grid.Expand | src/components/CompaniesGrid.tsx:82 | afterwards the grid is expanded, no card is hidden and the button is gone |
| Faq.Toggled | src/components/FAQ.tsx:46-50 | the toggled index flips membership, every other index keeps it, a closed index is appended at the end, an open one is removed keeping the order |
| Faq.FilterKeepsNoDuplicates | src/components/FAQ.tsx:48 | removing an index keeps a duplicate-free list duplicate-free |
| Faq.ToggleKeepsNoDuplicates | src/components/FAQ.tsx:46-50 | toggling never introduces a duplicate |
| Faq.ToggleTwice | src/components/FAQ.tsx:46-50 | toggling twice restores every membership, and restores the very list from a closed index |
| Faq.Accordion.constructor | src/components/FAQ.tsx:44 | every item starts closed |
| Faq.Accordion.Toggle | src/components/FAQ.tsx:46-50 | the new list is the toggled one; the item flips, others keep their state, no duplicates appear |

## Left out

- Rendering, styling, page metadata other than the title counts, and the
  home page's scroll listener are out of scope. They are JSX, CSS and
  browser events.
- `Math.random` is replaced by a sequence of draws passed to
  `LogoMarquee.ShuffleArray`, each draw `draws[i] <= i`. The model proves a
  permutation for every draw sequence, but says nothing about uniformity.
- Environment variables are not read. The logo API key is a parameter.
- The logo mapping data file and the company JSON are passed in as values.
- File reading and writing, the command-line entry points, logo downloads
  and console logging are left out. That covers `convertCSVToJSON`,
  `showUsage`, `downloadLogo` and the fetch script's `main`.
- `generateWebsiteSchema` builds a constant object and has no logic, so it
  is not modelled. `CompaniesStats` only displays numbers.
- `toLowerCase`, `toUpperCase` and `trim` are modelled on ASCII letters and
  the common whitespace characters. Unicode case mapping is not modelled.
- FetchLogos.Sanitize: strings are sequences of Unicode code points, while
  JavaScript strings are UTF-16 code units. The regular-expression replace
  writes two '_' for a character outside the Basic Multilingual Plane,
  where the model writes one, so the length is preserved in code points
  only. Likewise `charAt(0)` in the work-type capitaliser can split a
  surrogate pair; `Strings.Capitalize` works on whole code points.
- `localeCompare` is modelled as code-point order on the lower-cased names.
  Locale collation rules are not modelled.
- Missing CSV columns are modelled as failures:
  - for Location, Work Arrangement and Website the JavaScript throws a
    TypeError;
  - for Company, the description column and Year Founded it yields
    `undefined`, a value the company type cannot hold.
- JavaScript objects used as maps (parsed records, the logo mapping) are
  modelled as maps. Keys such as `__proto__` or inherited property names
  are not modelled.
- CsvData.NormalizeEach: the converter trims each work type and the
  normaliser trims it again. The model applies the normaliser once.
  `CsvData.TrimBeforeNormalize` proves the two agree.
- CsvData.BuildCompany and CsvScripts.BuildCompany use the cleaning
  functions directly. The step-by-step methods `CsvData.CleanWebsite` and
  `CsvScripts.CleanWebsite` are proved equal to them.
- HomePage.CalculateStats returns nothing where the code throws partway
  through. The partial updates to the sets before the throw are not
  modelled.
- CompaniesGrid.Grid.Expand may be called in any state. In the page it is
  only reachable while the button is shown.
