/** The tool table and its append-only event log, and the write transactions of the
    repository. Each transaction is atomic (BEGIN IMMEDIATE); reads outside one may be stale. */
module ToolDatabase {
  import opened Wrappers

  datatype Status = InSlot | Out | Staged | Missing | FodAlert

  datatype EventKind = Fetch | Return | Rejected | Error | Timeout | Alert | Reconciled

  datatype Track = A | B | C

  type ToolId = string

  type Time = int

  datatype Row = Row(status: Status, lastEvent: Option<nat>, updated: Time)

  datatype Event = Event(tool: ToolId, kind: EventKind, track: Option<Track>, before: Status, after: Status,
                         notes: string, time: Time)

  // Event ids are AUTOINCREMENT: the event at index i has id i + 1. `scan` is the row order.
  datatype Db = Db(tools: map<ToolId, Row>, scan: seq<ToolId>, events: seq<Event>)

  ghost predicate WellFormed(db: Db) {
    && (forall id :: id in db.scan <==> id in db.tools)
    && (forall i, j :: 0 <= i < j < |db.scan| ==> db.scan[i] != db.scan[j])
  }

  // An update request as it arrives; None stands for a text outside the allowed values.
  datatype Update = Update(tool: ToolId, status: Option<Status>, kind: Option<EventKind>, track: Option<Track>,
                           notes: string)

  predicate Blank(notes: string) {
    forall i :: 0 <= i < |notes| ==> notes[i] in " \t\n\r"
  }

  predicate ValuesOk(u: Update) {
    u.tool != "" && u.status.Some? && u.kind.Some? && u.track.Some?
  }

  // _ALLOWED_TRANSITIONS
  function AllowedKind(before: Status, after: Status): Option<EventKind> {
    match (before, after)
    case (InSlot, Out) => Some(Fetch)
    case (Out, Staged) => Some(Fetch)
    case (Staged, Out) => Some(Return)
    case (Out, InSlot) => Some(Return)
    case _ => None
  }

  /** _validate_transition, true when it finds nothing to object to. */
  predicate TransitionOk(before: Status, after: Status, kind: EventKind, notes: string) {
    if kind == Reconciled then !Blank(notes)
    else if kind == Error then after == before
    else if after == Missing || after == FodAlert then false
    else AllowedKind(before, after) == Some(kind)
  }

  function Append(db: Db, e: Event): Db {
    db.(events := db.events + [e])
  }

  // An event together with the snapshot row it brings about.
  function Commit(db: Db, e: Event): Db {
    Append(db, e).(tools := db.tools[e.tool := Row(e.after, Some(|db.events| + 1), e.time)])
  }

  predicate Accepts(db: Db, u: Update) {
    && ValuesOk(u) && u.tool in db.tools
    && TransitionOk(db.tools[u.tool].status, u.status.value, u.kind.value, u.notes)
  }

  /** The transaction of update_tool_status. */
  function UpdateTx(db: Db, u: Update, now: Time): Db {
    if Accepts(db, u) then
      Commit(db, Event(u.tool, u.kind.value, u.track, db.tools[u.tool].status, u.status.value, u.notes, now))
    else db
  }

  /** The transaction of _append_rejection: the caller's idea of the status is written down
      twice, the row keeps its status and its time. */
  function RejectTx(db: Db, tool: ToolId, status: Status, track: Option<Track>, notes: string, now: Time): Db {
    if tool in db.tools then
      Append(db, Event(tool, Rejected, track, status, status, notes, now))
        .(tools := db.tools[tool := db.tools[tool].(lastEvent := Some(|db.events| + 1))])
    else db
  }

  datatype Limits = Limits(timeout: Time, grace: Time)

  // The level the monitor raises a row to, if any.
  function Escalation(row: Row, now: Time, lim: Limits): Option<Status> {
    if (row.status == Out || row.status == Staged) && now - row.updated >= lim.timeout then Some(Missing)
    else if row.status == Missing && now - row.updated >= lim.grace then Some(FodAlert)
    else None
  }

  function EscalationEvent(tool: ToolId, row: Row, level: Status, now: Time): Event {
    Event(tool, if level == Missing then Timeout else Alert, None, row.status, level, "FOD timeout transition", now)
  }

  function EscalateRow(db: Db, tool: ToolId, row: Row, now: Time, lim: Limits): Db {
    var level := Escalation(row, now, lim);
    if level == None then db else Commit(db, EscalationEvent(tool, row, level.value, now))
  }

  // Later rows of the scan, judged by their rows in the snapshot `seen`.
  function EscalateRows(db: Db, seen: map<ToolId, Row>, rows: seq<ToolId>, now: Time, lim: Limits): Db
    requires forall i :: 0 <= i < |rows| ==> rows[i] in seen
    decreases |rows|
  {
    if rows == [] then db
    else EscalateRows(EscalateRow(db, rows[0], seen[rows[0]], now, lim), seen, rows[1..], now, lim)
  }

  /** The transaction of mark_checkout_timeouts. */
  function FodTx(db: Db, now: Time, lim: Limits): Db
    requires WellFormed(db)
  {
    EscalateRows(db, db.tools, db.scan, now, lim)
  }

  /** The database file, shared by every process that opens it. */
  class Database {
    var tools: map<ToolId, Row>
    var scan: seq<ToolId>
    var events: seq<Event>

    constructor (tools: map<ToolId, Row>, scan: seq<ToolId>)
      ensures Now() == Db(tools, scan, [])
    {
      this.tools, this.scan, events := tools, scan, [];
    }

    function Now(): Db
      reads this
    {
      Db(tools, scan, events)
    }

    // _insert_tool_event
    method InsertEvent(e: Event) returns (id: nat)
      modifies this`events
      ensures events == old(events) + [e] && id == |events|
    {
      events := events + [e];
      id := |events|;
    }

    /** update_tool_status between BEGIN IMMEDIATE and commit. */
    method UpdateToolStatus(u: Update, now: Time) returns (success: bool)
      modifies this
      ensures Now() == UpdateTx(old(Now()), u, now)
      ensures success <==> Accepts(old(Now()), u)
    {
      if !ValuesOk(u) || u.tool !in tools {
        return false;
      }
      var before := tools[u.tool].status;
      if !TransitionOk(before, u.status.value, u.kind.value, u.notes) {
        return false;
      }
      var id := InsertEvent(Event(u.tool, u.kind.value, u.track, before, u.status.value, u.notes, now));
      tools := tools[u.tool := Row(u.status.value, Some(id), now)];
      return true;
    }

    /** _append_rejection: `status` was read before this transaction began. */
    method AppendRejection(tool: ToolId, status: Status, track: Option<Track>, notes: string, now: Time)
      requires tool in tools
      modifies this
      ensures Now() == RejectTx(old(Now()), tool, status, track, notes, now)
    {
      var id := InsertEvent(Event(tool, Rejected, track, status, status, notes, now));
      tools := tools[tool := tools[tool].(lastEvent := Some(id))];
    }

    /** mark_checkout_timeouts between BEGIN IMMEDIATE and commit. */
    method MarkCheckoutTimeouts(now: Time, lim: Limits) returns (updates: seq<(ToolId, Status, Status)>)
      requires WellFormed(Now())
      modifies this
      ensures Now() == FodTx(old(Now()), now, lim)
      ensures old(events) <= events && updates == Reports(events[|old(events)|..])
    {
      hide EscalateRows, EscalationEvent, Reports;
      var seen := tools;
      var i := 0;
      updates := [];
      ghost var added: seq<Event> := [];
      NoReports();
      while i < |scan|
        invariant i <= |scan| && scan == old(scan)
        invariant EscalateRows(Now(), seen, scan[i..], now, lim) == FodTx(old(Now()), now, lim)
        invariant events == old(events) + added && updates == Reports(added)
      {
        var tool := scan[i];
        var row := seen[tool];
        EscalateStep(Now(), seen, scan, i, now, lim);
        i := i + 1;
        var level: Option<Status> := None;
        if (row.status == Out || row.status == Staged) && now - row.updated >= lim.timeout {
          level := Some(Missing);
        } else if row.status == Missing && now - row.updated >= lim.grace {
          level := Some(FodAlert);
        }
        if level == None {
          continue;
        }
        var e := EscalationEvent(tool, row, level.value, now);
        EscalationEventIs(tool, row, level.value, now);
        var id := InsertEvent(e);
        tools := tools[tool := Row(level.value, Some(id), now)];
        ReportsAppend(added, e);
        added := added + [e];
        updates := updates + [(tool, row.status, level.value)];
      }
      EscalateNone(Now(), seen, scan[i..], now, lim);
    }
  }

  // The transitions a list of events reports.
  function Reports(events: seq<Event>): seq<(ToolId, Status, Status)> {
    if events == [] then []
    else
      var last := events[|events| - 1];
      Reports(events[..|events| - 1]) + [(last.tool, last.before, last.after)]
  }

  lemma NoReports()
    ensures Reports([]) == []
  {
  }

  lemma ReportsAppend(events: seq<Event>, e: Event)
    ensures Reports(events + [e]) == Reports(events) + [(e.tool, e.before, e.after)]
  {
    assert (events + [e])[..|events|] == events;
  }

  lemma EscalationEventIs(tool: ToolId, row: Row, level: Status, now: Time)
    ensures var e := EscalationEvent(tool, row, level, now);
            e.tool == tool && e.before == row.status && e.after == level && e.time == now
  {
  }

  lemma EscalateStep(db: Db, seen: map<ToolId, Row>, rows: seq<ToolId>, i: nat, now: Time, lim: Limits)
    requires i < |rows| && forall k :: 0 <= k < |rows| ==> rows[k] in seen
    ensures EscalateRows(db, seen, rows[i..], now, lim) ==
            EscalateRows(EscalateRow(db, rows[i], seen[rows[i]], now, lim), seen, rows[i + 1..], now, lim)
  {
    assert rows[i..][1..] == rows[i + 1..];
  }

  lemma EscalateNone(db: Db, seen: map<ToolId, Row>, rows: seq<ToolId>, now: Time, lim: Limits)
    requires |rows| == 0
    ensures EscalateRows(db, seen, rows, now, lim) == db
  {
  }

  // ---------------------------------------------------------------- runs

  // One transaction of any process. A rejection may carry any status: it was read earlier.
  datatype Step =
    | DoUpdate(u: Update, now: Time)
    | DoReject(tool: ToolId, status: Status, track: Option<Track>, notes: string, now: Time)
    | DoPoll(now: Time, lim: Limits)

  function Next(db: Db, step: Step): Db
    requires WellFormed(db)
  {
    match step
    case DoUpdate(u, now) => UpdateTx(db, u, now)
    case DoReject(tool, status, track, notes, now) => RejectTx(db, tool, status, track, notes, now)
    case DoPoll(now, lim) => FodTx(db, now, lim)
  }

  lemma {:induction false} EscalateRowsShape(db: Db, seen: map<ToolId, Row>, rows: seq<ToolId>, now: Time, lim: Limits)
    requires forall i :: 0 <= i < |rows| ==> rows[i] in seen && rows[i] in db.tools
    ensures var t := EscalateRows(db, seen, rows, now, lim); t.tools.Keys == db.tools.Keys && t.scan == db.scan
    decreases |rows|
  {
    if rows != [] {
      var next := EscalateRow(db, rows[0], seen[rows[0]], now, lim);
      EscalateRowsShape(next, seen, rows[1..], now, lim);
    }
  }

  /** No transaction adds, removes or reorders tools. */
  lemma NextShape(db: Db, step: Step)
    requires WellFormed(db)
    ensures Next(db, step).tools.Keys == db.tools.Keys && Next(db, step).scan == db.scan
    ensures WellFormed(Next(db, step))
  {
    if step.DoPoll? {
      EscalateRowsShape(db, db.tools, db.scan, step.now, step.lim);
    }
  }

  function Run(db: Db, steps: seq<Step>): (t: Db)
    requires WellFormed(db)
    ensures WellFormed(t)
    decreases |steps|
  {
    NextShape(db, if steps == [] then DoPoll(0, Limits(0, 0)) else steps[0]);
    if steps == [] then db else Run(Next(db, steps[0]), steps[1..])
  }

  // A freshly seeded table.
  ghost predicate Seeded(db: Db) {
    WellFormed(db) && db.events == [] && forall id :: id in db.tools ==> db.tools[id].lastEvent == None
  }

  // ---------------------------------------------------------------- one row of a poll

  lemma {:induction false} EscalateOthers(db: Db, seen: map<ToolId, Row>, rows: seq<ToolId>, now: Time, lim: Limits,
                                          tool: ToolId)
    requires forall i :: 0 <= i < |rows| ==> rows[i] in seen
    requires tool !in rows && tool in db.tools
    ensures var t := EscalateRows(db, seen, rows, now, lim); tool in t.tools && t.tools[tool] == db.tools[tool]
    decreases |rows|
  {
    if rows != [] {
      var next := EscalateRow(db, rows[0], seen[rows[0]], now, lim);
      EscalateOthers(next, seen, rows[1..], now, lim, tool);
    }
  }

  lemma {:induction false} EscalateOne(db: Db, seen: map<ToolId, Row>, rows: seq<ToolId>, now: Time, lim: Limits,
                                       tool: ToolId)
    requires forall i :: 0 <= i < |rows| ==> rows[i] in seen
    requires forall i, j :: 0 <= i < j < |rows| ==> rows[i] != rows[j]
    requires tool in rows && tool in db.tools && db.tools[tool] == seen[tool]
    ensures var t := EscalateRows(db, seen, rows, now, lim);
            var level := Escalation(seen[tool], now, lim);
            && tool in t.tools
            && (level == None ==> t.tools[tool] == db.tools[tool])
            && (level.Some? ==> t.tools[tool].status == level.value && t.tools[tool].updated == now)
    decreases |rows|
  {
    var next := EscalateRow(db, rows[0], seen[rows[0]], now, lim);
    if rows[0] == tool {
      assert tool !in rows[1..];
      EscalateOthers(next, seen, rows[1..], now, lim, tool);
    } else {
      EscalateOne(next, seen, rows[1..], now, lim, tool);
    }
  }

  /** A poll raises each tool by its own row alone, and by one level at most. */
  lemma PollRaisesOneLevel(db: Db, now: Time, lim: Limits, tool: ToolId)
    requires WellFormed(db) && tool in db.tools
    ensures tool in FodTx(db, now, lim).tools
    ensures var row, level := db.tools[tool], Escalation(db.tools[tool], now, lim);
            var after := FodTx(db, now, lim).tools[tool];
            && (level == None ==> after == row)
            && (level.Some? ==> after.status == level.value && after.updated == now)
            && (row.status == Out || row.status == Staged ==> after.status != FodAlert)
  {
    EscalateOne(db, db.tools, db.scan, now, lim, tool);
  }
}
