/**
 * The progress header of an application in the listings drawer: how far
 * along the pipeline its current status is, whether it is closed, and the
 * dates it reads from the timeline.
 */
module ApplicationProgress {
  import opened Wrappers
  import opened Schemas

  /** Where a status sits on the pipeline SAVED → APPLIED → SCREENING → INTERVIEW → any outcome. */
  function PipelineStep(s: StatusEnum): (r: nat)
    ensures r <= 4
    ensures r == 0 <==> s == Saved
  {
    match s
    case Saved => 0
    case Applied => 1
    case Screening => 2
    case Interview => 3
    case _ => 4
  }

  /** `STAGE_TO_PROGRESS_MAP`. */
  function Progress(s: StatusEnum): (r: int)
  {
    match s
    case Saved => 0
    case Applied => 25
    case Screening => 50
    case Interview => 75
    case OfferReceived => 100
    case Accepted => 100
    case Rejected => 100
    case Ghosted => 100
    case Withdrawn => 100
    case Rescinded => 100
  }

  /** Progress is a quarter per pipeline step, so it stays in [0, 100] and reaches 100 exactly at an outcome. */
  lemma ProgressIsStep(s: StatusEnum)
    ensures Progress(s) == 25 * PipelineStep(s)
    ensures 0 <= Progress(s) <= 100
    ensures Progress(s) == 100 <==> PipelineStep(s) == 4
  {
  }

  /** Progress never goes down along the pipeline. */
  lemma ProgressMonotone(a: StatusEnum, b: StatusEnum)
    requires PipelineStep(a) <= PipelineStep(b)
    ensures Progress(a) <= Progress(b)
  {
    ProgressIsStep(a);
    ProgressIsStep(b);
  }

  /** The closed statuses. */
  function IsClosed(s: StatusEnum): (r: bool)
    ensures r <==> s in {Rejected, Ghosted, Withdrawn, Rescinded}
  {
    s == Rejected || s == Ghosted || s == Withdrawn || s == Rescinded
  }

  datatype Activity = Closed | Active

  function ActivityOf(s: StatusEnum): (r: Activity)
    ensures r == Closed <==> IsClosed(s)
  {
    if IsClosed(s) then Closed else Active
  }

  /** A closed application is complete, but not every complete one is closed: offers stay active. */
  lemma ClosedIsComplete(s: StatusEnum)
    ensures IsClosed(s) ==> Progress(s) == 100
    ensures Progress(s) == 100 && !IsClosed(s) <==> s == OfferReceived || s == Accepted
  {
  }

  /** The stage number appears in the label only when it is positive. */
  function ShownStage(stage: int): (r: Option<int>)
    ensures r.Some? <==> stage > 0
    ensures r.Some? ==> r.value == stage
  {
    if stage > 0 then Some(stage) else None
  }

  /** The Applied and Updated dates: the first and the last timeline entry; the timeline must not be empty. */
  function AppliedAndUpdated<T>(timeline: seq<T>): (r: (T, T))
    requires |timeline| >= 1
    ensures r.0 in timeline && r.1 in timeline
    ensures |timeline| == 1 ==> r.0 == r.1
  {
    (timeline[0], timeline[|timeline| - 1])
  }

  /** Appending an event moves the Updated date to it and leaves the Applied date alone. */
  lemma AppendMovesUpdated<T>(timeline: seq<T>, e: T)
    requires |timeline| >= 1
    ensures AppliedAndUpdated(timeline + [e]) == (AppliedAndUpdated(timeline).0, e)
  {
  }
}
