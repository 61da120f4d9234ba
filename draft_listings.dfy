/**
 * The listing drafts the new-listings page works on, as the client sees
 * them: one variant per draft status. The status accessors, the status
 * definitions and the reference panel's tab choice.
 */
module DraftListings {
  import opened Wrappers

  /** A grounded value: an extracted value and the quote that supports it. */
  datatype Grounded = Grounded(value: string, quote: Option<string>)

  /** An extraction as the client receives it. */
  datatype Extracted = Extracted(
    title: string, company: string, domain: string, location: Option<string>, description: string,
    postedDate: Option<string>, skills: seq<Grounded>, requirements: seq<Grounded>)

  /** A stored listing, as `duplicateOf` carries it: plain strings for skills and requirements. */
  datatype Stored = Stored(
    id: string, url: string, title: string, company: string, domain: string, location: Option<string>,
    description: string, postedDate: Option<string>, skills: seq<string>, requirements: seq<string>)

  datatype Status = Pending | Unique | DuplicateUrl | DuplicateContent | Error

  datatype Draft =
    | PendingDraft(id: string, url: string)
    | UniqueDraft(id: string, url: string, listing: Extracted, html: Option<string>)
    | DuplicateUrlDraft(id: string, url: string, duplicateOf: Stored, duplicateOfApplicationId: string)
    | DuplicateContentDraft(id: string, url: string, listing: Extracted, duplicateOf: Stored, duplicateOfApplicationId: string, html: Option<string>)
    | ErrorDraft(id: string, url: string, error: string, html: Option<string>)

  function StatusOf(d: Draft): (r: Status)
    ensures r == Pending <==> d.PendingDraft?
    ensures r == Unique <==> d.UniqueDraft?
    ensures r == DuplicateUrl <==> d.DuplicateUrlDraft?
    ensures r == DuplicateContent <==> d.DuplicateContentDraft?
    ensures r == Error <==> d.ErrorDraft?
  {
    match d
    case PendingDraft(_, _) => Pending
    case UniqueDraft(_, _, _, _) => Unique
    case DuplicateUrlDraft(_, _, _, _) => DuplicateUrl
    case DuplicateContentDraft(_, _, _, _, _, _) => DuplicateContent
    case ErrorDraft(_, _, _, _) => Error
  }

  predicate IsDuplicate(d: Draft)
  {
    d.DuplicateUrlDraft? || d.DuplicateContentDraft?
  }

  /** A status's definition: its label and colour palette (the icon is left out). */
  datatype Definition = Definition(caption: string, palette: string)

  function DefinitionOf(s: Status): (r: Definition)
    ensures r.palette == "orange" <==> s == DuplicateUrl || s == DuplicateContent
  {
    match s
    case Pending => Definition("Pending", "blue")
    case Unique => Definition("OK", "green")
    case DuplicateUrl => Definition("Duplicate URL", "orange")
    case DuplicateContent => Definition("Duplicate Content", "orange")
    case Error => Definition("Error", "red")
  }

  /** Every status has its own label. */
  lemma DefinitionLabelsDistinct(a: Status, b: Status)
    ensures DefinitionOf(a).caption == DefinitionOf(b).caption ==> a == b
  {
    if a != b {
      var la, lb := DefinitionOf(a).caption, DefinitionOf(b).caption;
      assert |la| != |lb|;
    }
  }

  // ---------------------------------------------------------------- accessors

  /** The record a draft shows: its extraction for unique drafts, the stored listing for both duplicate kinds. */
  function Shown(d: Draft): (r: Option<(string, string, string)>)
    ensures r.None? <==> d.PendingDraft? || d.ErrorDraft?
    ensures d.UniqueDraft? ==> r == Some((d.listing.title, d.listing.company, d.listing.domain))
    ensures d.DuplicateUrlDraft? || d.DuplicateContentDraft? ==> r == Some((d.duplicateOf.title, d.duplicateOf.company, d.duplicateOf.domain))
  {
    match d
    case UniqueDraft(_, _, l, _) => Some((l.title, l.company, l.domain))
    case DuplicateUrlDraft(_, _, o, _) => Some((o.title, o.company, o.domain))
    case DuplicateContentDraft(_, _, _, o, _, _) => Some((o.title, o.company, o.domain))
    case _ => None
  }

  function GetTitle(d: Draft): (r: string)
  {
    match d
    case UniqueDraft(_, _, l, _) => l.title
    case DuplicateUrlDraft(_, _, o, _) => o.title
    case DuplicateContentDraft(_, _, _, o, _, _) => o.title
    case ErrorDraft(_, _, _, _) => "Error"
    case PendingDraft(_, _) => "Scraping..."
  }

  function GetCompany(d: Draft): (r: string)
  {
    match d
    case UniqueDraft(_, _, l, _) => l.company
    case DuplicateUrlDraft(_, _, o, _) => o.company
    case DuplicateContentDraft(_, _, _, o, _, _) => o.company
    case ErrorDraft(_, _, _, _) => ""
    case PendingDraft(_, _) => ""
  }

  function GetDomain(d: Draft): (r: string)
  {
    match d
    case UniqueDraft(_, _, l, _) => l.domain
    case DuplicateUrlDraft(_, _, o, _) => o.domain
    case DuplicateContentDraft(_, _, _, o, _, _) => o.domain
    case ErrorDraft(_, _, _, _) => ""
    case PendingDraft(_, _) => ""
  }

  /**
   * The three accessors read one and the same record: a duplicate of
   * either kind shows the stored listing it duplicates (not its own
   * extraction); drafts without a record show placeholders.
   */
  lemma AccessorsAgree(d: Draft)
    ensures Shown(d).Some? ==> (GetTitle(d), GetCompany(d), GetDomain(d)) == Shown(d).value
    ensures d.DuplicateContentDraft? ==> GetTitle(d) == d.duplicateOf.title && GetCompany(d) == d.duplicateOf.company
    ensures d.ErrorDraft? ==> GetTitle(d) == "Error"
    ensures d.PendingDraft? ==> GetTitle(d) == "Scraping..."
    ensures Shown(d).None? ==> GetCompany(d) == "" && GetDomain(d) == ""
  {
  }

  // ---------------------------------------------------------------- reference tabs

  datatype Tab = Info | Source | Extract | ErrorTab

  /** `!!html`: present and not empty. */
  predicate Truthy(s: Option<string>)
  {
    s.Some? && s.value != ""
  }

  predicate HasHtml(d: Draft)
  {
    match d
    case UniqueDraft(_, _, _, html) => Truthy(html)
    case DuplicateContentDraft(_, _, _, _, _, html) => Truthy(html)
    case _ => false
  }

  /** Info is off for completed drafts that are not duplicates. */
  predicate InfoDisabled(d: Draft)
  {
    StatusOf(d) == Unique && !IsDuplicate(d)
  }

  predicate SourceDisabled(d: Draft)
  {
    !HasHtml(d)
  }

  predicate ExtractDisabled(d: Draft)
  {
    IsDuplicate(d)
  }

  /** The first enabled tab in the order info, source, extract; `'error'` when none is. */
  function TargetTab(d: Draft): (r: Tab)
    ensures r == Info <==> !InfoDisabled(d)
    ensures r == Source ==> InfoDisabled(d) && !SourceDisabled(d)
    ensures r == Extract ==> InfoDisabled(d) && SourceDisabled(d) && !ExtractDisabled(d)
  {
    if !InfoDisabled(d) then Info
    else if !SourceDisabled(d) then Source
    else if !ExtractDisabled(d) then Extract
    else ErrorTab
  }

  /** What each tab flag means in terms of the draft's status. */
  lemma TabFlags(d: Draft)
    ensures InfoDisabled(d) <==> d.UniqueDraft?
    ensures ExtractDisabled(d) <==> d.DuplicateUrlDraft? || d.DuplicateContentDraft?
    ensures !SourceDisabled(d) <==> (d.UniqueDraft? && Truthy(d.html)) || (d.DuplicateContentDraft? && Truthy(d.html))
  {
  }

  /** The `'error'` fallback cannot be reached: every draft enables Info or Extract. */
  lemma {:induction false} NeverErrorTab(d: Draft)
    ensures TargetTab(d) != ErrorTab
    ensures d.UniqueDraft? ==> TargetTab(d) == (if Truthy(d.html) then Source else Extract)
    ensures !d.UniqueDraft? ==> TargetTab(d) == Info
  {
    TabFlags(d);
  }
}
