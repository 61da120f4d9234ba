/**
 * The draft records a scrape produces: an extraction whose skills and
 * requirements are grounded in a quoted passage, and the conversions
 * between a draft and a saved listing.
 */
module Scraping {
  import opened Wrappers
  import opened Schemas

  datatype ScrapeStatus = Completed | DuplicateUrl | DuplicateSemantic | Failed

  /** A value with the passage of the page that justifies it. */
  datatype GroundedItem = GroundedItem(value: string, quote: Option<string>)

  /** The listing fields the LLM extracts, with its own `error` when the page is not a listing. */
  datatype Extraction = Extraction(
    title: string,
    company: string,
    domain: string,
    location: Option<string>,
    description: string,
    postedDate: Option<string>,
    skills: seq<GroundedItem>,
    requirements: seq<GroundedItem>,
    error: Option<string>)

  /** `ScrapingListing`: an extraction together with the scrape's identity and outcome. */
  datatype ScrapingListing = ScrapingListing(
    extraction: Extraction,
    id: Uuid,
    url: string,
    html: Option<string>,
    status: ScrapeStatus,
    duplicateOf: Option<Listing>)

  function Values(items: seq<GroundedItem>): (r: seq<string>)
    ensures |r| == |items|
    ensures forall i :: 0 <= i < |items| ==> r[i] == items[i].value
  {
    seq(|items|, i requires 0 <= i < |items| => items[i].value)
  }

  /** The error `to_listing` raises. */
  datatype ConversionError = ConversionError(message: string)

  /** A listing built from the extracted fields, with each grounded item replaced by its value. */
  function ListingOf(e: Extraction, id: Uuid, url: string): Listing
  {
    Listing(id, url, e.title, e.company, e.domain, e.location, e.description, e.postedDate,
            Values(e.skills), Values(e.requirements))
  }

  /** `to_listing`: refused exactly when the extraction carries an error. */
  function ToListing(s: ScrapingListing): (r: Result<Listing, ConversionError>)
    ensures r.Err? <==> s.extraction.error.Some?
    ensures r.Err? ==> r.error.message == "Cannot convert to Listing: extraction failed with error: " + s.extraction.error.value
    ensures r.Ok? ==> r.value.id == s.id && r.value.url == s.url
    ensures r.Ok? ==> r.value.title == s.extraction.title && r.value.company == s.extraction.company
    ensures r.Ok? ==> r.value.domain == s.extraction.domain && r.value.location == s.extraction.location
    ensures r.Ok? ==> r.value.description == s.extraction.description && r.value.postedDate == s.extraction.postedDate
    ensures r.Ok? ==> |r.value.skills| == |s.extraction.skills| && |r.value.requirements| == |s.extraction.requirements|
    ensures r.Ok? ==> forall i :: 0 <= i < |s.extraction.skills| ==> r.value.skills[i] == s.extraction.skills[i].value
    ensures r.Ok? ==> forall i :: 0 <= i < |s.extraction.requirements| ==> r.value.requirements[i] == s.extraction.requirements[i].value
  {
    match s.extraction.error
    case Some(msg) => Err(ConversionError("Cannot convert to Listing: extraction failed with error: " + msg))
    case None => Ok(ListingOf(s.extraction, s.id, s.url))
  }

  /**
   * `from_error`: a failed draft with every text field empty. `freshId` is
   * the value `uuid4()` would produce; a supplied id is kept (a UUID object
   * is never falsy).
   */
  function FromError(url: string, error: string, html: Option<string>, id: Option<Uuid>, freshId: Uuid): (r: ScrapingListing)
    ensures r.status == Failed && r.extraction.error == Some(error) && r.html == html && r.url == url
    ensures r.extraction.title == "" && r.extraction.company == "" && r.extraction.domain == "" && r.extraction.description == ""
    ensures r.extraction.skills == [] && r.extraction.requirements == [] && r.duplicateOf.None?
    ensures id.Some? ==> r.id == id.value
    ensures id.None? ==> r.id == freshId
  {
    ScrapingListing(
      Extraction("", "", "", None, "", None, [], [], Some(error)),
      if id.Some? then id.value else freshId,
      url, html, Failed, None)
  }

  /** A draft made by `from_error` can never be converted into a listing. */
  lemma FailedNeverConverts(url: string, error: string, html: Option<string>, id: Option<Uuid>, freshId: Uuid)
    ensures ToListing(FromError(url, error, html, id, freshId)).Err?
    ensures ToListing(FromError(url, error, html, id, freshId)).error.message
      == "Cannot convert to Listing: extraction failed with error: " + error
  {
  }

  /** The string each status serialises to. */
  function StatusValue(s: ScrapeStatus): (r: string)
    ensures r in {"completed", "duplicate_url", "duplicate_semantic", "failed"}
  {
    match s
    case Completed => "completed"
    case DuplicateUrl => "duplicate_url"
    case DuplicateSemantic => "duplicate_semantic"
    case Failed => "failed"
  }

  /** The four statuses serialise to four different strings, so the enum has exactly four values. */
  lemma StatusValuesDistinct(a: ScrapeStatus, b: ScrapeStatus)
    ensures StatusValue(a) == StatusValue(b) <==> a == b
  {
    if a != b {
      assert StatusValue(a)[0] != StatusValue(b)[0] || |StatusValue(a)| != |StatusValue(b)|;
    }
  }
}
