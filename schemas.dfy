/**
 * The records the routers and services pass around: listings, status
 * events and applications, with the fields these files read and write.
 */
module Schemas {
  import opened Wrappers

  /** A UUID, as its 128-bit number. */
  type Uuid = nat

  /** A saved job listing, with the columns `list_all` selects. */
  datatype Listing = Listing(
    id: Uuid,
    url: string,
    title: string,
    company: string,
    domain: string,
    location: Option<string>,
    description: string,
    postedDate: Option<string>,
    skills: seq<string>,
    requirements: seq<string>)

  datatype StatusEnum =
    | Saved | Applied | Screening | Interview | OfferReceived
    | Accepted | Rejected | Ghosted | Withdrawn | Rescinded

  /** One status event; `date` is the ISO timestamp the services store. */
  datatype StatusEvent = StatusEvent(id: Uuid, status: StatusEnum, stage: int, date: string, notes: Option<string>)

  datatype Application = Application(id: Uuid, listing: Listing, resumeId: Option<Uuid>, statusEvents: seq<StatusEvent>)

  /** `Application(listing=...)`: a fresh id, no resume, and one `SAVED` event at stage 0. */
  function NewApplication(id: Uuid, listing: Listing, eventId: Uuid, now: string): (r: Application)
    ensures r.listing == listing && r.resumeId.None?
    ensures |r.statusEvents| == 1 && r.statusEvents[0].status == Saved && r.statusEvents[0].stage == 0
  {
    Application(id, listing, None, [StatusEvent(eventId, Saved, 0, now, None)])
  }
}
