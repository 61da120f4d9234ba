/**
 * The status form of the applications drawer: the stage bounds a status
 * allows, the stage set when the status changes, and the status event the
 * form submits. `StatusForm` is the current `TimelineEditor`; `DrawerForm`
 * is the older editor inside `Drawer.tsx`, whose status change always sets
 * stage 1.
 */
module Timeline {
  import opened Wrappers
  import opened Schemas
  import opened Text

  /** Only screening and interview rounds are numbered. */
  predicate Stageable(s: Option<StatusEnum>)
  {
    s == Some(Screening) || s == Some(Interview)
  }

  /** The lowest stage the number input accepts for the current status. */
  function MinStage(s: Option<StatusEnum>): (r: int)
    ensures r == 1 <==> Stageable(s)
    ensures r == 0 <==> !Stageable(s)
  {
    if Stageable(s) then 1 else 0
  }

  /** The highest stage the number input accepts: 19 screenings, 39 interviews, 0 otherwise. */
  function MaxStage(s: Option<StatusEnum>): (r: int)
    ensures Stageable(s) ==> MinStage(s) < r
    ensures !Stageable(s) ==> r == 0
    ensures s == Some(Screening) ==> r == 19
    ensures s == Some(Interview) ==> r == 39
  {
    if s == Some(Screening) then 19
    else if s == Some(Interview) then 39
    else 0
  }

  predicate InBounds(s: Option<StatusEnum>, stage: int)
  {
    MinStage(s) <= stage <= MaxStage(s)
  }

  /** The stage `TimelineEditor` sets when the status changes: 1 for a stageable status, 0 otherwise. */
  function StageOnChange(s: Option<StatusEnum>): (r: int)
    ensures InBounds(s, r)
    ensures r == MinStage(s)
  {
    if Stageable(s) then 1 else 0
  }

  /** The stage `Drawer.tsx` sets when the status changes, whatever the status. */
  function DrawerStageOnChange(s: Option<StatusEnum>): (r: int)
    ensures r == 1
  {
    1
  }

  /** The older rule leaves the stage outside its bounds for every status that is not stageable. */
  lemma DrawerStageOutOfBounds(s: Option<StatusEnum>)
    ensures InBounds(s, DrawerStageOnChange(s)) <==> Stageable(s)
  {
  }

  /** Concretely: choosing Applied in the older editor yields stage 1 against a maximum of 0. */
  lemma AppliedGetsStageOne()
    ensures DrawerStageOnChange(Some(Applied)) == 1 && MaxStage(Some(Applied)) == 0
    ensures !InBounds(Some(Applied), DrawerStageOnChange(Some(Applied)))
  {
  }

  /** The two rules agree exactly on the stageable statuses. */
  lemma RulesAgreeOnStageable(s: Option<StatusEnum>)
    ensures StageOnChange(s) == DrawerStageOnChange(s) <==> Stageable(s)
  {
  }

  /** The event sent to `updateApplicationStatus`. */
  datatype StatusUpdate = StatusUpdate(status: StatusEnum, stage: int, notes: Option<string>)

  /** `data.notes || null`: the empty string becomes null. */
  function NotesOrNull(notes: string): (r: Option<string>)
    ensures r == None <==> notes == ""
    ensures r.Some? ==> r.value == notes
  {
    if notes == "" then None else Some(notes)
  }

  /** The zod schema: at least one status selected and a stage that is not negative. */
  predicate SchemaValid(status: seq<StatusEnum>, stage: int)
  {
    |status| >= 1 && stage >= 0
  }

  /** The status the form is showing, `watch('status')?.[0]`. */
  function Current(status: seq<StatusEnum>): (r: Option<StatusEnum>)
    ensures r.None? <==> status == []
    ensures r.Some? ==> r.value == status[0]
  {
    if status == [] then None else Some(status[0])
  }

  /** `TimelineEditor`'s form. */
  class StatusForm {
    var status: seq<StatusEnum>
    var stage: int
    var notes: string

    /** The form starts empty with stage 0. */
    constructor ()
      ensures status == [] && stage == 0 && notes == ""
    {
      status := [];
      stage := 0;
      notes := "";
    }

    /** The submit button is enabled only once a status is chosen. */
    function SubmitDisabled(): (r: bool)
      reads this
      ensures r <==> Current(status).None?
    {
      status == []
    }

    /** The stage input is disabled unless the chosen status is stageable. */
    function StageDisabled(): (r: bool)
      reads this
      ensures r <==> !(Current(status) == Some(Screening) || Current(status) == Some(Interview))
    {
      !Stageable(Current(status))
    }

    /** Choosing a status records it and moves the stage to the lowest value it allows. */
    method ChangeStatus(value: seq<StatusEnum>)
      modifies this
      ensures status == value && notes == old(notes)
      ensures stage == MinStage(Current(value))
      ensures InBounds(Current(status), stage)
    {
      status := value;
      stage := StageOnChange(Current(value));
    }

    method ChangeStage(value: int)
      modifies this
      ensures stage == value && status == old(status) && notes == old(notes)
    {
      stage := value;
    }

    method ChangeNotes(value: string)
      modifies this
      ensures notes == value && status == old(status) && stage == old(stage)
    {
      notes := value;
    }

    /**
     * Submit: when the schema accepts the values, send the first status, the
     * stage and the notes (empty notes as null), then reset to
     * `{status: [], stage: 1, notes: ''}`; otherwise nothing is sent and the
     * form keeps its values.
     */
    method Submit() returns (sent: Option<StatusUpdate>)
      modifies this
      ensures sent.Some? <==> old(SchemaValid(status, stage))
      ensures sent.Some? ==> sent.value.status == old(status)[0] && sent.value.stage == old(stage)
      ensures sent.Some? ==> sent.value.notes == NotesOrNull(old(notes))
      ensures sent.Some? ==> status == [] && stage == 1 && notes == ""
      ensures sent.None? ==> status == old(status) && stage == old(stage) && notes == old(notes)
    {
      if !SchemaValid(status, stage) {
        return None;
      }
      sent := Some(StatusUpdate(status[0], stage, NotesOrNull(notes)));
      status := [];
      stage := 1;
      notes := "";
    }
  }

  /** The event the older editor sends: notes are passed through unchanged. */
  datatype DrawerEvent = DrawerEvent(status: StatusEnum, stage: int, notes: string)

  /** The older editor in `Drawer.tsx`. */
  class DrawerForm {
    var status: seq<StatusEnum>
    var stage: int
    var notes: string

    /** The form starts empty with stage 1. */
    constructor ()
      ensures status == [] && stage == 1 && notes == ""
    {
      status := [];
      stage := 1;
      notes := "";
    }

    /** Choosing any status sets stage 1 (see `DrawerStageOutOfBounds`). */
    method ChangeStatus(value: seq<StatusEnum>)
      modifies this
      ensures status == value && notes == old(notes)
      ensures stage == DrawerStageOnChange(Current(value))
    {
      status := value;
      stage := DrawerStageOnChange(Current(value));
    }

    /**
     * Submit: nothing happens without a loaded application or when the schema
     * rejects the values; otherwise the event goes to that application and
     * the form resets to `{status: [], stage: 1, notes: ''}`.
     */
    method Submit(application: Option<string>) returns (sent: Option<(string, DrawerEvent)>)
      modifies this
      ensures sent.Some? <==> application.Some? && old(SchemaValid(status, stage))
      ensures sent.Some? ==> sent.value.0 == application.value
      ensures sent.Some? ==> sent.value.1 == DrawerEvent(old(status)[0], old(stage), old(notes))
      ensures sent.Some? ==> status == [] && stage == 1 && notes == ""
      ensures sent.None? ==> status == old(status) && stage == old(stage) && notes == old(notes)
    {
      if !SchemaValid(status, stage) || application.None? {
        return None;
      }
      sent := Some((application.value, DrawerEvent(status[0], stage, notes)));
      status := [];
      stage := 1;
      notes := "";
    }
  }

  // ---------------------------------------------------------------- listing rows

  /** The listing an application points at, as far as the drawer shows it. */
  datatype ListingSummary = ListingSummary(title: string, location: Option<string>, postedDate: Option<string>, skills: seq<string>)

  datatype Row = Row(caption: string, value: Option<string>)

  /** `listingData`: four rows for a loaded application, none without one. */
  function ListingData(listing: Option<ListingSummary>): (r: seq<Row>)
    ensures listing.None? <==> r == []
    ensures listing.Some? ==> |r| == 4
    ensures listing.Some? ==> r[0] == Row("Role", Some(listing.value.title))
    ensures listing.Some? ==> r[1] == Row("Location", listing.value.location)
    ensures listing.Some? ==> r[2] == Row("Posted", listing.value.postedDate)
    ensures listing.Some? ==> r[3].caption == "Skills" && r[3].value == Some(Join(", ", listing.value.skills))
  {
    match listing
    case None => []
    case Some(l) =>
      [Row("Role", Some(l.title)), Row("Location", l.location), Row("Posted", l.postedDate),
       Row("Skills", Some(Join(", ", l.skills)))]
  }
}
