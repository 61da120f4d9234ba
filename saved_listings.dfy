/**
 * The saved-listings board: the coarse column a backend status is shown
 * in, and the caption and colour of each column.
 */
module SavedListings {
  import opened Schemas

  /** `ApplicationStatus`. */
  datatype Column = SavedColumn | AppliedColumn | InterviewOne | InterviewTwo | Offer | RejectedColumn

  datatype Config = Config(caption: string, palette: string)

  /** `STATUS_CONFIG`: every column has an entry. */
  function StatusConfig(c: Column): (r: Config)
  {
    match c
    case SavedColumn => Config("Saved", "gray")
    case AppliedColumn => Config("Applied", "blue")
    case InterviewOne => Config("Interview 1", "purple")
    case InterviewTwo => Config("Interview 2", "purple")
    case Offer => Config("Offer", "green")
    case RejectedColumn => Config("Rejected", "red")
  }

  /** `mapStatus`: every status not named in the switch falls back to the saved column. */
  function MapStatus(s: StatusEnum): (r: Column)
  {
    match s
    case Saved => SavedColumn
    case Applied => AppliedColumn
    case Interview => InterviewOne
    case Accepted => Offer
    case Rejected => RejectedColumn
    case Ghosted => RejectedColumn
    case _ => SavedColumn
  }

  /** The column a status lands in, stated status by status. */
  lemma MapStatusCases(s: StatusEnum)
    ensures MapStatus(s) == RejectedColumn <==> s == Rejected || s == Ghosted
    ensures MapStatus(s) == Offer <==> s == Accepted
    ensures MapStatus(s) == InterviewOne <==> s == Interview
    ensures MapStatus(s) == AppliedColumn <==> s == Applied
    ensures MapStatus(s) == SavedColumn <==> s in {Saved, Screening, OfferReceived, Withdrawn, Rescinded}
  {
  }

  /** The second interview column is never produced. */
  lemma InterviewTwoUnused(s: StatusEnum)
    ensures MapStatus(s) != InterviewTwo
  {
  }

  /** The captions of the columns are pairwise distinct. */
  lemma CaptionsDistinct(a: Column, b: Column)
    requires a != b
    ensures StatusConfig(a).caption != StatusConfig(b).caption
  {
    var ca, cb := StatusConfig(a).caption, StatusConfig(b).caption;
    assert |ca| != |cb| || ca[0] != cb[0] || ca[|ca| - 1] != cb[|cb| - 1];
  }
}
