/**
 * The listing ingestion endpoints. `scrape_listing` canonicalises the URL,
 * short-circuits on a listing already saved under it, fetches the page and
 * hands it to `extract_listing`, which turns the LLM's answer into one of
 * four drafts: a duplicate URL, an error, a duplicate of an existing
 * listing's content, or a unique listing. `save_listings` stores each
 * accepted listing with a new application.
 *
 * The page fetch, the LLM call, the extraction schema's validation, the
 * similarity search and the two database lookups are parameters: their
 * outcome is what the router reacts to.
 */
module ListingsRouter {
  import opened Wrappers
  import opened Schemas
  import opened Scraping
  import opened Text
  import Url
  import ApplicationsService

  /**
   * The draft returned to the client. `listing` is the validated extraction;
   * `source` is the `html` field of the two drafts that always carry one.
   */
  datatype ListingDraft =
    | DraftDuplicateUrl(id: Uuid, url: string, duplicateOf: Listing, duplicateOfApplicationId: Uuid)
    | DraftError(id: Uuid, url: string, error: string, html: Option<string>)
    | DraftDuplicateContent(id: Uuid, url: string, listing: Extraction, duplicateOf: Listing,
                            duplicateOfApplicationId: Uuid, source: string)
    | DraftUnique(id: Uuid, url: string, listing: Extraction, source: string)

  /** An exception the endpoint does not catch: a duplicate whose listing has no application (`None.id`). */
  datatype Unhandled = MissingApplication(listingId: Uuid)

  /** What the router depends on but does not compute. */
  datatype Services = Services(
    byUrl: map<string, Listing>,                      // `listings_service.get_by_url`
    applicationOf: map<Uuid, Uuid>,                  // `applications_service.get_by_listing_id(...).id`
    validate: Extraction -> Result<Extraction, string>, // `ListingExtraction.model_validate`
    findSimilar: Listing -> Option<Listing>)          // `listings_service.find_similar`

  /** The fetched page: the text given to the LLM and the page's HTML. */
  datatype Page = Page(content: string, html: string)

  /** `html or ''`. */
  function HtmlOr(html: Option<string>): (r: string)
    ensures html.Some? ==> r == html.value
    ensures html.None? ==> r == ""
  {
    if html.Some? then html.value else ""
  }

  /** `extraction.error or 'Unknown extraction error'`: an empty message is replaced. */
  function ErrorText(error: string): (r: string)
    ensures r != ""
    ensures error != "" ==> r == error
  {
    if error == "" then "Unknown extraction error" else error
  }

  const IncompletePrefix := "LLM success indicated but data was incomplete: "

  /** `extract_listing`, given the outcome of the LLM call (`Err` carries the exception's text). */
  function ExtractListing(id: Uuid, url: string, html: Option<string>, llm: Result<Extraction, string>, s: Services)
    : (r: Result<ListingDraft, Unhandled>)
    ensures r.Ok? ==> DraftId(r.value) == id && r.value.url == url && !r.value.DraftDuplicateUrl?
  {
    if llm.Err? then Ok(DraftError(id, url, llm.error, None))
    else if llm.value.error.Some? then Ok(DraftError(id, url, ErrorText(llm.value.error.value), None))
    else
      match s.validate(llm.value)
      case Err(e) => Ok(DraftError(id, url, IncompletePrefix + e, None))
      case Ok(listing) =>
        match s.findSimilar(ListingOf(listing, id, url))
        case Some(similar) =>
          if similar.id in s.applicationOf then
            Ok(DraftDuplicateContent(id, url, listing, similar, s.applicationOf[similar.id], HtmlOr(html)))
          else Err(MissingApplication(similar.id))
        case None => Ok(DraftUnique(id, url, listing, HtmlOr(html)))
  }

  /** `scrape_listing`: `fetch` is the outcome of `fetch_and_clean` on the canonical URL. */
  function ScrapeListing(id: Uuid, c: Url.Codecs, u: Url.SplitUrl, fetch: Result<Page, string>,
                         llm: Result<Extraction, string>, s: Services)
    : (r: Result<ListingDraft, Unhandled>)
    ensures r.Ok? ==> DraftId(r.value) == id && r.value.url == Url.Canonical(c, u)
  {
    var url := Url.Canonical(c, u);
    if url in s.byUrl then
      var existing := s.byUrl[url];
      if existing.id in s.applicationOf then Ok(DraftDuplicateUrl(id, url, existing, s.applicationOf[existing.id]))
      else Err(MissingApplication(existing.id))
    else if fetch.Err? then Ok(DraftError(id, url, fetch.error, None))
    else ExtractListing(id, url, Some(fetch.value.html), llm, s)
  }

  /** The id of a draft. */
  function DraftId(d: ListingDraft): Uuid
  {
    match d
    case DraftDuplicateUrl(id, _, _, _) => id
    case DraftError(id, _, _, _) => id
    case DraftDuplicateContent(id, _, _, _, _, _) => id
    case DraftUnique(id, _, _, _) => id
  }

  /** The three failures of the extraction step, in the order they are checked. */
  lemma ExtractErrors(id: Uuid, url: string, html: Option<string>, llm: Result<Extraction, string>, s: Services)
    ensures llm.Err? ==> ExtractListing(id, url, html, llm, s) == Ok(DraftError(id, url, llm.error, None))
    ensures llm.Ok? && llm.value.error.Some? ==>
      ExtractListing(id, url, html, llm, s) == Ok(DraftError(id, url, ErrorText(llm.value.error.value), None))
    ensures llm.Ok? && llm.value.error.None? && s.validate(llm.value).Err? ==>
      var d := ExtractListing(id, url, html, llm, s);
      d.Ok? && d.value.DraftError? && StartsWith(d.value.error, IncompletePrefix)
  {
  }

  /** An error draft never carries HTML, and it arises exactly from one of the three failures. */
  lemma ErrorDraftIff(id: Uuid, url: string, html: Option<string>, llm: Result<Extraction, string>, s: Services)
    ensures ExtractListing(id, url, html, llm, s).Ok? && ExtractListing(id, url, html, llm, s).value.DraftError? <==>
      llm.Err? || llm.value.error.Some? || s.validate(llm.value).Err?
    ensures ExtractListing(id, url, html, llm, s).Ok? && ExtractListing(id, url, html, llm, s).value.DraftError? ==>
      ExtractListing(id, url, html, llm, s).value.html.None?
  {
  }

  /**
   * After a clean validation, the similarity search decides: a match whose
   * application exists gives a duplicate that names the match and its
   * application, no match gives a unique draft; both carry the validated
   * extraction and the page's HTML.
   */
  lemma ExtractVerdict(id: Uuid, url: string, html: Option<string>, llm: Result<Extraction, string>, s: Services)
    requires llm.Ok? && llm.value.error.None? && s.validate(llm.value).Ok?
    ensures var listing := s.validate(llm.value).value;
      var similar := s.findSimilar(ListingOf(listing, id, url));
      var r := ExtractListing(id, url, html, llm, s);
      && (similar.None? ==> r == Ok(DraftUnique(id, url, listing, HtmlOr(html))))
      && (similar.Some? && similar.value.id in s.applicationOf ==>
            r == Ok(DraftDuplicateContent(id, url, listing, similar.value, s.applicationOf[similar.value.id], HtmlOr(html))))
      && (similar.Some? && similar.value.id !in s.applicationOf ==> r == Err(MissingApplication(similar.value.id)))
  {
  }

  /** The listing handed to the similarity search carries the draft's id and URL and the grounded values. */
  lemma SearchedListing(listing: Extraction, id: Uuid, url: string)
    ensures ListingOf(listing, id, url).id == id && ListingOf(listing, id, url).url == url
    ensures ListingOf(listing, id, url).skills == Values(listing.skills)
    ensures ListingOf(listing, id, url).requirements == Values(listing.requirements)
  {
  }

  /**
   * A URL already saved (after canonicalisation) yields a duplicate-URL draft
   * without any fetch or extraction: the outcome does not depend on them.
   */
  lemma DuplicateUrlSkipsScrape(id: Uuid, c: Url.Codecs, u: Url.SplitUrl, fetch: Result<Page, string>, fetch': Result<Page, string>,
                                llm: Result<Extraction, string>, llm': Result<Extraction, string>, s: Services)
    requires Url.Canonical(c, u) in s.byUrl
    ensures ScrapeListing(id, c, u, fetch, llm, s) == ScrapeListing(id, c, u, fetch', llm', s)
    ensures var existing := s.byUrl[Url.Canonical(c, u)];
      existing.id in s.applicationOf ==>
        ScrapeListing(id, c, u, fetch, llm, s) == Ok(DraftDuplicateUrl(id, Url.Canonical(c, u), existing, s.applicationOf[existing.id]))
  {
  }

  /** A new URL whose fetch fails gives an error draft without HTML, on the canonical URL. */
  lemma FetchFailure(id: Uuid, c: Url.Codecs, u: Url.SplitUrl, fetch: Result<Page, string>, llm: Result<Extraction, string>, s: Services)
    requires Url.Canonical(c, u) !in s.byUrl && fetch.Err?
    ensures ScrapeListing(id, c, u, fetch, llm, s) == Ok(DraftError(id, Url.Canonical(c, u), fetch.error, None))
  {
  }

  /** A draft that is neither an error nor a URL duplicate carries the page's HTML. */
  lemma ExtractSource(id: Uuid, url: string, html: string, llm: Result<Extraction, string>, s: Services)
    ensures var r := ExtractListing(id, url, Some(html), llm, s);
      r.Ok? && !r.value.DraftError? ==> r.value.source == html
  {
  }

  /** A new URL whose fetch succeeds is decided by `extract_listing` on the canonical URL and the page's HTML. */
  lemma FetchSuccess(id: Uuid, c: Url.Codecs, u: Url.SplitUrl, fetch: Result<Page, string>, llm: Result<Extraction, string>, s: Services)
    requires Url.Canonical(c, u) !in s.byUrl && fetch.Ok?
    ensures ScrapeListing(id, c, u, fetch, llm, s) == ExtractListing(id, Url.Canonical(c, u), Some(fetch.value.html), llm, s)
    ensures ScrapeListing(id, c, u, fetch, llm, s).Ok? && !ScrapeListing(id, c, u, fetch, llm, s).value.DraftError? ==>
      ScrapeListing(id, c, u, fetch, llm, s).value.source == fetch.value.html
  {
    var url := Url.Canonical(c, u);
    var html := fetch.value.html;
    assert ScrapeListing(id, c, u, fetch, llm, s) == ExtractListing(id, url, Some(html), llm, s);
    ExtractSource(id, url, html, llm, s);
  }

  /** Two spellings of the same URL are treated identically. */
  lemma CanonicalUrlDecides(id: Uuid, c: Url.Codecs, u: Url.SplitUrl, v: Url.SplitUrl, fetch: Result<Page, string>,
                            llm: Result<Extraction, string>, s: Services)
    requires Url.Canonical(c, u) == Url.Canonical(c, v)
    ensures ScrapeListing(id, c, u, fetch, llm, s) == ScrapeListing(id, c, v, fetch, llm, s)
  {
  }

  // ---------------------------------------------------------------- save_listings

  /**
   * `save_listings`: each listing is stored (`listings_service.create` is
   * taken to return what it stores) and gets a new application with its
   * default `SAVED` event. The ids and the time the application defaults
   * would draw are supplied; each application's transaction is returned.
   */
  method SaveListings(listings: seq<Listing>, appIds: seq<Uuid>, eventIds: seq<Uuid>, now: string)
    returns (saved: seq<Listing>, transactions: seq<seq<ApplicationsService.Operation>>)
    requires |appIds| == |listings| && |eventIds| == |listings|
    ensures saved == listings
    ensures |transactions| == |listings|
    ensures forall i :: 0 <= i < |listings| ==>
      transactions[i] == [ApplicationsService.InsertApplication(appIds[i], listings[i].id),
                          ApplicationsService.InsertEvent(eventIds[i], appIds[i], Saved, 0, now, None)]
  {
    saved := [];
    transactions := [];
    var i := 0;
    while i < |listings|
      invariant 0 <= i <= |listings|
      invariant saved == listings[..i]
      invariant |transactions| == i
      invariant forall j :: 0 <= j < i ==>
        transactions[j] == [ApplicationsService.InsertApplication(appIds[j], listings[j].id),
                            ApplicationsService.InsertEvent(eventIds[j], appIds[j], Saved, 0, now, None)]
    {
      var application := NewApplication(appIds[i], listings[i], eventIds[i], now);
      var created := ApplicationsService.Create(application);
      assert created.Ok?;
      transactions := transactions + [created.value];
      saved := saved + [listings[i]];
      i := i + 1;
    }
  }
}
