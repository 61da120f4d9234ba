/**
 * The applications service as the database sees it: `create` and
 * `update` build the list of statements they hand to one transaction,
 * and `list_all` rebuilds applications from joined rows.
 */
module ApplicationsService {
  import opened Wrappers
  import opened Schemas

  /** One SQL statement of a transaction, with its bound parameters. */
  datatype Operation =
    | InsertApplication(id: Uuid, listingId: Uuid)
    | DeleteEvents(applicationId: Uuid)
    | InsertEvent(id: Uuid, applicationId: Uuid, status: StatusEnum, stage: int, date: string, notes: Option<string>)

  datatype ServiceError = NoStatusEvents

  /** The insert of one status event of `app`. */
  function EventInsert(app: Application, e: StatusEvent): (r: Operation)
    ensures r.InsertEvent? && r.applicationId == app.id && r.id == e.id
  {
    InsertEvent(e.id, app.id, e.status, e.stage, e.date, e.notes)
  }

  /** One insert per status event, in order. */
  function EventInserts(app: Application): (r: seq<Operation>)
    ensures |r| == |app.statusEvents|
  {
    seq(|app.statusEvents|, i requires 0 <= i < |app.statusEvents| => EventInsert(app, app.statusEvents[i]))
  }

  /** Appends the event inserts of `app` to `ops`, as `operations.extend(...)` does. */
  method ExtendWithEvents(ops: seq<Operation>, app: Application) returns (r: seq<Operation>)
    ensures r == ops + EventInserts(app)
  {
    r := ops;
    var i := 0;
    while i < |app.statusEvents|
      invariant 0 <= i <= |app.statusEvents|
      invariant r == ops + EventInserts(app)[..i]
    {
      r := r + [EventInsert(app, app.statusEvents[i])];
      i := i + 1;
    }
  }

  /** `create`: refused without status events; otherwise the application insert, then one insert per event. */
  method Create(app: Application) returns (r: Result<seq<Operation>, ServiceError>)
    ensures r.Err? <==> app.statusEvents == []
    ensures r.Ok? ==> |r.value| == 1 + |app.statusEvents|
    ensures r.Ok? ==> r.value[0] == InsertApplication(app.id, app.listing.id)
    ensures r.Ok? ==> forall i :: 0 <= i < |app.statusEvents| ==> r.value[1 + i] == EventInsert(app, app.statusEvents[i])
  {
    if app.statusEvents == [] {
      return Err(NoStatusEvents);
    }
    var ops := ExtendWithEvents([InsertApplication(app.id, app.listing.id)], app);
    return Ok(ops);
  }

  /** `update`: delete every event of the application, then insert exactly the given ones. */
  method Update(app: Application) returns (ops: seq<Operation>)
    ensures |ops| == 1 + |app.statusEvents|
    ensures ops[0] == DeleteEvents(app.id)
    ensures forall i :: 0 <= i < |app.statusEvents| ==> ops[1 + i] == EventInsert(app, app.statusEvents[i])
    ensures forall i :: 1 <= i < |ops| ==> ops[i].InsertEvent? && ops[i].applicationId == app.id
  {
    ops := ExtendWithEvents([DeleteEvents(app.id)], app);
  }

  /** After `update`, the events of the application are exactly the inserted ones, in order. */
  function EventsAfter(events: seq<StatusEvent>, appId: Uuid, ops: seq<Operation>): seq<StatusEvent>
  {
    if ops == [] then events
    else
      var before := EventsAfter(events, appId, ops[..|ops| - 1]);
      match ops[|ops| - 1]
      case DeleteEvents(a) => if a == appId then [] else before
      case InsertEvent(id, a, status, stage, date, notes) =>
        if a == appId then before + [StatusEvent(id, status, stage, date, notes)] else before
      case InsertApplication(_, _) => before
  }

  lemma {:induction false} EventsAfterInserts(events: seq<StatusEvent>, app: Application, n: nat)
    requires n <= |app.statusEvents|
    ensures EventsAfter(events, app.id, [DeleteEvents(app.id)] + EventInserts(app)[..n]) == app.statusEvents[..n]
  {
    if n > 0 {
      var ops := [DeleteEvents(app.id)] + EventInserts(app)[..n];
      assert ops[..|ops| - 1] == [DeleteEvents(app.id)] + EventInserts(app)[..n - 1];
      EventsAfterInserts(events, app, n - 1);
      assert app.statusEvents[..n] == app.statusEvents[..n - 1] + [app.statusEvents[n - 1]];
    } else {
      assert [DeleteEvents(app.id)] + EventInserts(app)[..0] == [DeleteEvents(app.id)];
    }
  }

  /** Whatever events were stored, running `update`'s statements leaves exactly the application's events. */
  lemma UpdateReplacesEvents(events: seq<StatusEvent>, app: Application)
    ensures EventsAfter(events, app.id, [DeleteEvents(app.id)] + EventInserts(app)) == app.statusEvents
  {
    EventsAfterInserts(events, app, |app.statusEvents|);
    assert EventInserts(app)[..|app.statusEvents|] == EventInserts(app);
  }

  // ---------------------------------------------------------------- list_all

  /** One element of `status_events_json`; the LEFT JOIN yields one with a null id for an application without events. */
  datatype JsonEvent = JsonEvent(id: Option<string>, event: StatusEvent)

  /** One joined row: the application id, its listing and the aggregated events. */
  datatype Row = Row(applicationId: Uuid, listing: Listing, events: seq<JsonEvent>)

  /** `if event.get('id')`: a missing, null or empty id is dropped. */
  predicate HasId(e: JsonEvent)
  {
    e.id.Some? && e.id.value != ""
  }

  function KeptEvents(events: seq<JsonEvent>): seq<StatusEvent>
  {
    if events == [] then []
    else KeptEvents(events[..|events| - 1]) + (if HasId(events[|events| - 1]) then [events[|events| - 1].event] else [])
  }

  /** `list_all`: one application per row, keeping only the events that have an id. */
  method ListAll(rows: seq<Row>) returns (apps: seq<Application>)
    ensures |apps| == |rows|
    ensures forall i :: 0 <= i < |rows| ==>
      apps[i] == Application(rows[i].applicationId, rows[i].listing, None, KeptEvents(rows[i].events))
  {
    apps := [];
    var i := 0;
    while i < |rows|
      invariant 0 <= i <= |rows|
      invariant |apps| == i
      invariant forall j :: 0 <= j < i ==> apps[j] == Application(rows[j].applicationId, rows[j].listing, None, KeptEvents(rows[j].events))
    {
      var kept := FilterEvents(rows[i].events);
      apps := apps + [Application(rows[i].applicationId, rows[i].listing, None, kept)];
      i := i + 1;
    }
  }

  /** The comprehension that builds `status_events`. */
  method FilterEvents(events: seq<JsonEvent>) returns (kept: seq<StatusEvent>)
    ensures kept == KeptEvents(events)
  {
    kept := [];
    var i := 0;
    while i < |events|
      invariant 0 <= i <= |events|
      invariant kept == KeptEvents(events[..i])
    {
      assert events[..i + 1][..i] == events[..i];
      if HasId(events[i]) {
        kept := kept + [events[i].event];
      }
      i := i + 1;
    }
    assert events[..i] == events;
  }

  /** The kept events are exactly, in order, the events whose id is present: the null placeholder never survives. */
  lemma KeptEventsExact(events: seq<JsonEvent>)
    ensures |KeptEvents(events)| == |set i | 0 <= i < |events| && HasId(events[i])|
    ensures forall e :: e in KeptEvents(events) <==> exists i :: 0 <= i < |events| && HasId(events[i]) && events[i].event == e
  {
    KeptEventsCount(events);
    KeptEventsMembers(events);
  }

  ghost function IdIndices(events: seq<JsonEvent>): set<int>
  {
    set i | 0 <= i < |events| && HasId(events[i])
  }

  lemma {:induction false} KeptEventsCount(events: seq<JsonEvent>)
    ensures |KeptEvents(events)| == |IdIndices(events)|
  {
    if events != [] {
      var init := events[..|events| - 1];
      var last := |events| - 1;
      KeptEventsCount(init);
      var step: set<int> := if HasId(events[last]) then {last} else {};
      assert IdIndices(events) == IdIndices(init) + step by {
        forall i | i in IdIndices(events) ensures i in IdIndices(init) + step {
          if i < last {
            assert init[i] == events[i];
          }
        }
        forall i | i in IdIndices(init) ensures i in IdIndices(events) {
          assert init[i] == events[i];
        }
      }
      assert last !in IdIndices(init);
    }
  }

  lemma {:induction false} KeptEventsMembers(events: seq<JsonEvent>)
    ensures forall e :: e in KeptEvents(events) <==> exists i :: 0 <= i < |events| && HasId(events[i]) && events[i].event == e
  {
    if events != [] {
      var init := events[..|events| - 1];
      var last := |events| - 1;
      KeptEventsMembers(init);
      forall e ensures e in KeptEvents(events) <==> exists i :: 0 <= i < |events| && HasId(events[i]) && events[i].event == e {
        if e in KeptEvents(init) {
          var i :| 0 <= i < |init| && HasId(init[i]) && init[i].event == e;
          assert events[i] == init[i];
        }
        if i :| 0 <= i < |events| && HasId(events[i]) && events[i].event == e {
          if i < last {
            assert init[i] == events[i];
          }
        }
      }
    }
  }

  /** A row whose only element is the LEFT JOIN placeholder gives an application with no events. */
  lemma PlaceholderDropped(e: StatusEvent)
    ensures KeptEvents([JsonEvent(None, e)]) == []
  {
    assert [JsonEvent(None, e)][..0] == [];
  }
}
