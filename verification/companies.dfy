/** The company record every view works on. The two arrays are optional:
    the views guard them with `company.allLocations ? … : …`, and an empty
    array is present (JavaScript treats `[]` as truthy). */
module Companies {
  import opened Wrappers
  import opened Strings

  datatype Company = Company(
    id: String,
    name: String,
    website: String,
    description: String,
    year: String,
    location: String,
    workType: String,
    allLocations: Option<seq<String>>,
    allWorkTypes: Option<seq<String>>
  )

  /** The entries of an optional array, `[]` when it is absent. */
  function Entries(xs: Option<seq<String>>): seq<String> {
    match xs
    case Some(v) => v
    case None => []
  }
}
