/** The event log against the tool table over every run of transactions: latest event and
    snapshot agree, the before/after chain is unbroken, and custody is conserved. */
module ToolHistory {
  import opened Wrappers
  import opened ToolDatabase

  // Events that take part in a tool's chain: rejections may carry a stale status and do not.
  predicate Counts(e: Event, tool: ToolId) {
    e.tool == tool && e.kind != Rejected
  }

  // The status the log leaves a tool in.
  function LatestStatus(events: seq<Event>, tool: ToolId, seed: Status): Status {
    if events == [] then seed
    else
      var e := events[|events| - 1];
      if Counts(e, tool) then e.after else LatestStatus(events[..|events| - 1], tool, seed)
  }

  // The time of a tool's latest event in its chain.
  function LatestTime(events: seq<Event>, tool: ToolId, seed: Time): Time {
    if events == [] then seed
    else
      var e := events[|events| - 1];
      if Counts(e, tool) then e.time else LatestTime(events[..|events| - 1], tool, seed)
  }

  // The greatest id of a tool's events, rejections included.
  function GreatestId(events: seq<Event>, tool: ToolId): Option<nat> {
    if events == [] then None
    else if events[|events| - 1].tool == tool then Some(|events|)
    else GreatestId(events[..|events| - 1], tool)
  }

  predicate Chained(events: seq<Event>, tool: ToolId, seed: Status) {
    events == [] ||
    (var before := events[..|events| - 1]; var e := events[|events| - 1];
     Chained(before, tool, seed) && (Counts(e, tool) ==> e.before == LatestStatus(before, tool, seed)))
  }

  // What a chained event may say: an external transition of the whitelist, an error record,
  // an operator's reconciliation, or a step of the monitor, which carries no track.
  predicate Lawful(e: Event) {
    if e.kind == Reconciled then e.track.Some? && !Blank(e.notes)
    else if e.kind == Error then e.track.Some? && e.before == e.after
    else if e.track.Some? then AllowedKind(e.before, e.after) == Some(e.kind)
    else if e.kind == Timeout then (e.before == Out || e.before == Staged) && e.after == Missing
    else e.kind == Alert && e.before == Missing && e.after == FodAlert
  }

  ghost predicate Agrees(db: Db, start: Db, tool: ToolId)
    requires tool in db.tools && tool in start.tools
  {
    var seed := start.tools[tool].status;
    && db.tools[tool].status == LatestStatus(db.events, tool, seed)
    && db.tools[tool].updated == LatestTime(db.events, tool, start.tools[tool].updated)
    && db.tools[tool].lastEvent == GreatestId(db.events, tool)
    && Chained(db.events, tool, seed)
  }

  ghost predicate Inv(db: Db, start: Db) {
    && WellFormed(db) && db.tools.Keys == start.tools.Keys
    && (forall tool :: tool in db.tools ==> Agrees(db, start, tool))
    && (forall i :: 0 <= i < |db.events| ==> db.events[i].kind == Rejected || Lawful(db.events[i]))
  }

  // ---------------------------------------------------------------- preservation

  lemma AppendOne(events: seq<Event>, e: Event, tool: ToolId, seed: Status, time: Time)
    requires Chained(events, tool, seed)
    requires Counts(e, tool) ==> e.before == LatestStatus(events, tool, seed)
    ensures Chained(events + [e], tool, seed)
    ensures LatestStatus(events + [e], tool, seed)
         == if Counts(e, tool) then e.after else LatestStatus(events, tool, seed)
    ensures LatestTime(events + [e], tool, time) == if Counts(e, tool) then e.time else LatestTime(events, tool, time)
    ensures GreatestId(events + [e], tool) == if e.tool == tool then Some(|events| + 1) else GreatestId(events, tool)
  {
    assert (events + [e])[..|events|] == events;
  }

  // A committed event whose before is the tool's status.
  lemma CommitKeeps(db: Db, start: Db, e: Event)
    requires Inv(db, start) && e.tool in db.tools && e.kind != Rejected && Lawful(e)
    requires e.before == db.tools[e.tool].status
    ensures Inv(Commit(db, e), start)
  {
    var t := Commit(db, e);
    forall tool | tool in t.tools
      ensures Agrees(t, start, tool)
    {
      assert Agrees(db, start, tool);
      AppendOne(db.events, e, tool, start.tools[tool].status, start.tools[tool].updated);
    }
  }

  lemma RejectKeeps(db: Db, start: Db, tool: ToolId, status: Status, track: Option<Track>, notes: string, now: Time)
    requires Inv(db, start)
    ensures Inv(RejectTx(db, tool, status, track, notes, now), start)
  {
    if tool in db.tools {
      var t := RejectTx(db, tool, status, track, notes, now);
      var e := Event(tool, Rejected, track, status, status, notes, now);
      forall id | id in t.tools
        ensures Agrees(t, start, id)
      {
        assert Agrees(db, start, id);
        AppendOne(db.events, e, id, start.tools[id].status, start.tools[id].updated);
      }
    }
  }

  lemma {:induction false} EscalateKeeps(db: Db, start: Db, seen: map<ToolId, Row>, rows: seq<ToolId>, now: Time,
                                         lim: Limits)
    requires Inv(db, start)
    requires forall i :: 0 <= i < |rows| ==>
               rows[i] in seen && rows[i] in db.tools && db.tools[rows[i]] == seen[rows[i]]
    requires forall i, j :: 0 <= i < j < |rows| ==> rows[i] != rows[j]
    ensures Inv(EscalateRows(db, seen, rows, now, lim), start)
    decreases |rows|
  {
    hide Inv, Lawful;
    if rows != [] {
      var tool, row := rows[0], seen[rows[0]];
      var level := Escalation(row, now, lim);
      if level.Some? {
        var e := EscalationEvent(tool, row, level.value, now);
        assert Lawful(e) by { EscalationIsLawful(tool, row, now, lim); }
        CommitKeeps(db, start, e);
      }
      EscalateKeeps(EscalateRow(db, tool, row, now, lim), start, seen, rows[1..], now, lim);
    }
  }

  lemma EscalationIsLawful(tool: ToolId, row: Row, now: Time, lim: Limits)
    requires Escalation(row, now, lim).Some?
    ensures Lawful(EscalationEvent(tool, row, Escalation(row, now, lim).value, now))
  {
  }

  lemma UpdateIsLawful(db: Db, u: Update, now: Time)
    requires Accepts(db, u)
    ensures Lawful(Event(u.tool, u.kind.value, u.track, db.tools[u.tool].status, u.status.value, u.notes, now))
    ensures u.kind.value != Rejected
  {
  }

  lemma NextKeeps(db: Db, start: Db, step: Step)
    requires Inv(db, start)
    ensures Inv(Next(db, step), start)
  {
    match step
    case DoUpdate(u, now) =>
      if Accepts(db, u) {
        UpdateIsLawful(db, u, now);
        CommitKeeps(db, start, Event(u.tool, u.kind.value, u.track, db.tools[u.tool].status, u.status.value,
                                     u.notes, now));
      }
    case DoReject(tool, status, track, notes, now) => RejectKeeps(db, start, tool, status, track, notes, now);
    case DoPoll(now, lim) => EscalateKeeps(db, start, db.tools, db.scan, now, lim);
  }

  lemma {:induction false} RunKeeps(db: Db, start: Db, steps: seq<Step>)
    requires Inv(db, start)
    ensures Inv(Run(db, steps), start)
    decreases |steps|
  {
    hide Inv, Next;
    assert WellFormed(db) by { InvIsWellFormed(db, start); }
    if steps != [] {
      NextKeeps(db, start, steps[0]);
      RunKeeps(Next(db, steps[0]), start, steps[1..]);
    }
  }

  lemma InvIsWellFormed(db: Db, start: Db)
    requires Inv(db, start)
    ensures WellFormed(db)
  {
  }

  /** In every interleaving of updates, polls and rejections, stale ones included, every
      tool's snapshot agrees with its log: status, time of the last change, and last event id. */
  lemma SnapshotAgreesWithLog(start: Db, steps: seq<Step>)
    requires Seeded(start)
    ensures Inv(Run(start, steps), start)
  {
    RunKeeps(start, start, steps);
  }

  // ---------------------------------------------------------------- the chain, event by event

  // Between positions i and j no event of the tool's chain.
  ghost predicate Quiet(events: seq<Event>, tool: ToolId, i: int, j: int) {
    forall k :: i < k < j && 0 <= k < |events| ==> !Counts(events[k], tool)
  }

  lemma {:induction false} LatestIsLast(events: seq<Event>, tool: ToolId, seed: Status, i: nat)
    requires i < |events| && Counts(events[i], tool) && Quiet(events, tool, i, |events|)
    ensures LatestStatus(events, tool, seed) == events[i].after
    decreases |events|
  {
    if i < |events| - 1 {
      LatestIsLast(events[..|events| - 1], tool, seed, i);
    }
  }

  lemma {:induction false} ChainLink(events: seq<Event>, tool: ToolId, seed: Status, j: nat)
    requires Chained(events, tool, seed) && j < |events| && Counts(events[j], tool)
    ensures events[j].before == LatestStatus(events[..j], tool, seed)
    decreases |events|
  {
    if j < |events| - 1 {
      var before := events[..|events| - 1];
      ChainLink(before, tool, seed, j);
      assert before[..j] == events[..j];
    }
  }

  /** Read as a log: consecutive chain events of a tool join, after to before; the snapshot is
      the after of the last one; and no event of the tool has an id above last_event_id. */
  lemma LogJoins(start: Db, steps: seq<Step>, tool: ToolId, i: nat, j: nat)
    requires Seeded(start) && tool in start.tools
    requires var events := Run(start, steps).events;
             i < j <= |events| && Counts(events[i], tool) && Quiet(events, tool, i, j)
    ensures var db := Run(start, steps);
            && tool in db.tools
            && (j == |db.events| ==> db.tools[tool].status == db.events[i].after)
            && (j < |db.events| && Counts(db.events[j], tool) ==> db.events[j].before == db.events[i].after)
            && (forall k :: 0 <= k < |db.events| && db.events[k].tool == tool ==>
                  db.tools[tool].lastEvent.Some? && k + 1 <= db.tools[tool].lastEvent.value)
  {
    var db := Run(start, steps);
    var seed := start.tools[tool].status;
    SnapshotAgreesWithLog(start, steps);
    assert Agrees(db, start, tool);
    if j == |db.events| {
      LatestIsLast(db.events, tool, seed, i);
    } else if Counts(db.events[j], tool) {
      ChainLink(db.events, tool, seed, j);
      LatestIsLast(db.events[..j], tool, seed, i);
    }
    forall k | 0 <= k < |db.events| && db.events[k].tool == tool
      ensures db.tools[tool].lastEvent.Some? && k + 1 <= db.tools[tool].lastEvent.value
    {
      GreatestIdBounds(db.events, tool, k);
    }
  }

  lemma {:induction false} GreatestIdBounds(events: seq<Event>, tool: ToolId, k: nat)
    requires k < |events| && events[k].tool == tool
    ensures GreatestId(events, tool).Some? && k + 1 <= GreatestId(events, tool).value <= |events|
    decreases |events|
  {
    if events[|events| - 1].tool != tool {
      GreatestIdBounds(events[..|events| - 1], tool, k);
    }
  }

  // ---------------------------------------------------------------- custody

  // Accepted moves of a tool from one status to another.
  function Moves(events: seq<Event>, tool: ToolId, before: Status, after: Status): int {
    if events == [] then 0
    else
      var e := events[|events| - 1];
      Moves(events[..|events| - 1], tool, before, after)
        + (if Counts(e, tool) && e.before == before && e.after == after then 1 else 0)
  }

  predicate NeverReconciled(events: seq<Event>, tool: ToolId) {
    forall i :: 0 <= i < |events| && Counts(events[i], tool) ==> events[i].kind != Reconciled
  }

  lemma {:induction false} MovesBalance(events: seq<Event>, tool: ToolId)
    requires Chained(events, tool, InSlot) && NeverReconciled(events, tool)
    requires forall i :: 0 <= i < |events| ==> events[i].kind == Rejected || Lawful(events[i])
    ensures Moves(events, tool, InSlot, Out) - Moves(events, tool, Out, InSlot)
         == if LatestStatus(events, tool, InSlot) == InSlot then 0 else 1
    decreases |events|
  {
    if events != [] {
      MovesBalance(events[..|events| - 1], tool);
      assert events[|events| - 1].kind == Rejected || Lawful(events[|events| - 1]);
    }
  }

  /** Custody is conserved: from a tool in its slot and without reconciliation, it has left the
      slot as often as it came back, plus once when it is not there now. */
  lemma CustodyIsConserved(start: Db, steps: seq<Step>, tool: ToolId)
    requires Seeded(start) && tool in start.tools && start.tools[tool].status == InSlot
    requires NeverReconciled(Run(start, steps).events, tool)
    ensures var db := Run(start, steps);
            && tool in db.tools
            && Moves(db.events, tool, InSlot, Out) - Moves(db.events, tool, Out, InSlot)
               == if db.tools[tool].status == InSlot then 0 else 1
  {
    SnapshotAgreesWithLog(start, steps);
    assert Agrees(Run(start, steps), start, tool);
    MovesBalance(Run(start, steps).events, tool);
  }

  /** Over every run: only a reconciliation or the monitor's alert takes a tool out of missing,
      only a reconciliation out of alert, and no track but a reconciling one brings a tool into
      either from another status. */
  lemma AlarmIsOneWay(start: Db, steps: seq<Step>, i: nat)
    requires Seeded(start)
    requires var events := Run(start, steps).events;
             i < |events| && events[i].kind != Rejected && events[i].kind != Reconciled
    ensures var e := Run(start, steps).events[i];
            && (e.before == Missing && e.after != Missing ==> e.after == FodAlert && e.track == None)
            && (e.before == FodAlert ==> e.after == FodAlert)
            && (e.track.Some? && (e.after == Missing || e.after == FodAlert) ==> e.before == e.after)
  {
    SnapshotAgreesWithLog(start, steps);
    assert Lawful(Run(start, steps).events[i]);
  }

  /** Without a reconciliation a tool that is neither in its slot, out nor staged stays so. */
  lemma AlarmStays(start: Db, steps: seq<Step>, tool: ToolId, later: seq<Step>)
    requires Seeded(start) && tool in start.tools
    requires var db := Run(start, steps);
             tool in db.tools && (db.tools[tool].status == Missing || db.tools[tool].status == FodAlert)
    requires forall k :: 0 <= k < |later| ==>
               later[k].DoUpdate? && later[k].u.tool == tool ==> later[k].u.kind != Some(Reconciled)
    ensures var end := Run(Run(start, steps), later);
            && tool in end.tools
            && (end.tools[tool].status == FodAlert
                || (end.tools[tool].status == Missing && Run(start, steps).tools[tool].status == Missing))
  {
    AlarmStaysFrom(Run(start, steps), tool, later);
  }

  lemma {:induction false} AlarmStaysFrom(db: Db, tool: ToolId, later: seq<Step>)
    requires WellFormed(db) && tool in db.tools &&
             (db.tools[tool].status == Missing || db.tools[tool].status == FodAlert)
    requires forall k :: 0 <= k < |later| ==>
               later[k].DoUpdate? && later[k].u.tool == tool ==> later[k].u.kind != Some(Reconciled)
    ensures var end := Run(db, later);
            && tool in end.tools
            && (end.tools[tool].status == FodAlert
                || (end.tools[tool].status == Missing && db.tools[tool].status == Missing))
    decreases |later|
  {
    if later != [] {
      var next := Next(db, later[0]);
      NextShape(db, later[0]);
      if later[0].DoPoll? {
        PollRaisesOneLevel(db, later[0].now, later[0].lim, tool);
      }
      AlarmStaysFrom(next, tool, later[1..]);
    }
  }

  // ---------------------------------------------------------------- what the log keeps

  lemma {:induction false} EscalateAppends(db: Db, seen: map<ToolId, Row>, rows: seq<ToolId>, now: Time, lim: Limits)
    requires forall i :: 0 <= i < |rows| ==> rows[i] in seen
    ensures var t := EscalateRows(db, seen, rows, now, lim);
            && db.events <= t.events
            && forall i :: |db.events| <= i < |t.events| ==> t.events[i].time == now
    decreases |rows|
  {
    if rows != [] {
      EscalateAppends(EscalateRow(db, rows[0], seen[rows[0]], now, lim), seen, rows[1..], now, lim);
    }
  }

  // A transaction only appends, and what it appends carries its own time.
  lemma StepAppends(db: Db, step: Step)
    requires WellFormed(db)
    ensures var t := Next(db, step);
            && db.events <= t.events
            && forall i :: |db.events| <= i < |t.events| ==> t.events[i].time == step.now
  {
    if step.DoPoll? {
      EscalateAppends(db, db.tools, db.scan, step.now, step.lim);
    }
  }

  lemma {:induction false} RunAppends(db: Db, steps: seq<Step>)
    requires WellFormed(db)
    ensures db.events <= Run(db, steps).events
    decreases |steps|
  {
    hide Next;
    if steps != [] {
      StepAppends(db, steps[0]);
      NextShape(db, steps[0]);
      RunAppends(Next(db, steps[0]), steps[1..]);
    }
  }

  /** Nothing is forgotten: an accepted update is in the log for ever after, under the id its row
      got, with everything it said, the status it found and the time of its transaction; a refused
      one leaves nothing. */
  lemma UpdateStaysInLog(db: Db, u: Update, now: Time, later: seq<Step>)
    requires WellFormed(db)
    ensures var next := Next(db, DoUpdate(u, now));
            && WellFormed(next)
            && (!Accepts(db, u) ==> next == db)
            && (Accepts(db, u) ==>
                  var id := |db.events| + 1;
                  && next.tools == db.tools[u.tool := Row(u.status.value, Some(id), now)]
                  && |next.events| == id <= |Run(next, later).events|
                  && var e := Run(next, later).events[id - 1];
                     && e.tool == u.tool && Some(e.kind) == u.kind && e.track == u.track && e.notes == u.notes
                     && e.before == db.tools[u.tool].status && Some(e.after) == u.status && e.time == now)
  {
    NextShape(db, DoUpdate(u, now));
    RunAppends(Next(db, DoUpdate(u, now)), later);
    hide Run;
  }

  /** And a rejection, whatever status its caller believed in, is in the log and leaves status and
      time of the row alone. */
  lemma RejectionStaysInLog(db: Db, step: Step, later: seq<Step>)
    requires WellFormed(db) && step.DoReject? && step.tool in db.tools
    ensures var next, row := Next(db, step), db.tools[step.tool];
            var id := |db.events| + 1;
            && WellFormed(next) && next.tools == db.tools[step.tool := Row(row.status, Some(id), row.updated)]
            && |next.events| == id <= |Run(next, later).events|
            && var e := Run(next, later).events[id - 1];
               && e.tool == step.tool && e.kind == Rejected && e.track == step.track && e.notes == step.notes
               && e.before == e.after == step.status && e.time == step.now
  {
    NextShape(db, step);
    RunAppends(Next(db, step), later);
    hide Run;
  }
}
