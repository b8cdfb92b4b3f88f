/** How soon the monitor answers a tool that stays out: deadlines over runs in which other
    tools change, rejections pile up and the monitor polls at bounded gaps. */
module FodMonitor {
  import opened Wrappers
  import opened ToolDatabase

  // The step leaves the tool's record alone unless it is the monitor: another tool's update,
  // a refused one of its own, or a rejection.
  ghost predicate Spares(db: Db, step: Step, tool: ToolId, lim: Limits) {
    match step
    case DoUpdate(u, _) => u.tool != tool || !Accepts(db, u)
    case DoReject(_, _, _, _, _) => true
    case DoPoll(_, l) => l == lim
  }

  ghost predicate AllSpare(db: Db, steps: seq<Step>, tool: ToolId, lim: Limits)
    requires WellFormed(db)
    decreases |steps|
  {
    steps == [] ||
    (Spares(db, steps[0], tool, lim) && WellFormed(Next(db, steps[0])) &&
     AllSpare(Next(db, steps[0]), steps[1..], tool, lim))
  }

  // Polls come in time order, no further apart than `gap`, the first of them after `prev`.
  predicate Polled(steps: seq<Step>, prev: Time, gap: Time) {
    if steps == [] then true
    else if steps[0].DoPoll? then prev <= steps[0].now <= prev + gap && Polled(steps[1..], steps[0].now, gap)
    else Polled(steps[1..], prev, gap)
  }

  function LastPoll(steps: seq<Step>, prev: Time): Time {
    if steps == [] then prev
    else LastPoll(steps[1..], if steps[0].DoPoll? then steps[0].now else prev)
  }

  // The time at which the row's level is due to rise.
  function Deadline(row: Row, lim: Limits): Time {
    row.updated + if row.status == Missing then lim.grace else lim.timeout
  }

  predicate Overdueable(row: Row) {
    row.status == Out || row.status == Staged || row.status == Missing
  }

  function Raised(row: Row): Status {
    if row.status == Missing then FodAlert else Missing
  }

  // Same status and same time; rejections may have moved the last event id.
  predicate SameRecord(a: Row, b: Row) {
    a.status == b.status && a.updated == b.updated
  }

  predicate StatusIs(db: Db, tool: ToolId, status: Status) {
    tool in db.tools && db.tools[tool].status == status
  }

  lemma SparingStep(db: Db, step: Step, tool: ToolId, lim: Limits)
    requires WellFormed(db) && tool in db.tools && Spares(db, step, tool, lim) && Overdueable(db.tools[tool])
    ensures var row := db.tools[tool]; var next := Next(db, step);
            && WellFormed(next) && tool in next.tools
            && (if step.DoPoll? && step.now >= Deadline(row, lim)
                then next.tools[tool].status == Raised(row) && next.tools[tool].updated == step.now
                else SameRecord(next.tools[tool], row))
  {
    NextShape(db, step);
    if step.DoPoll? {
      PollRaisesOneLevel(db, step.now, lim, tool);
    }
  }

  /** One level: the first poll at or after the deadline raises the tool, and nothing does
      before it. `k` is the number of steps up to and including that poll. */
  lemma {:induction false} RaisedByDeadline(db: Db, steps: seq<Step>, tool: ToolId, lim: Limits, prev: Time, gap: Time)
    returns (k: nat)
    requires WellFormed(db) && tool in db.tools && Overdueable(db.tools[tool])
    requires AllSpare(db, steps, tool, lim) && Polled(steps, prev, gap)
    requires prev <= Deadline(db.tools[tool], lim) <= LastPoll(steps, prev) && prev < LastPoll(steps, prev)
    ensures 0 < k <= |steps| && steps[k - 1].DoPoll?
    ensures var row, due, at := db.tools[tool], Deadline(db.tools[tool], lim), steps[k - 1].now;
            && due <= at <= due + gap
            && tool in Run(db, steps[..k]).tools
            && Run(db, steps[..k]).tools[tool].status == Raised(row) && Run(db, steps[..k]).tools[tool].updated == at
            && AllSpare(Run(db, steps[..k]), steps[k..], tool, lim)
            && Polled(steps[k..], at, gap) && LastPoll(steps[k..], at) == LastPoll(steps, prev)
            && forall j :: 0 <= j < k ==>
                 tool in Run(db, steps[..j]).tools && SameRecord(Run(db, steps[..j]).tools[tool], row)
    decreases |steps|
  {
    hide Next, Run;
    var next := Next(db, steps[0]);
    SparingStep(db, steps[0], tool, lim);
    RunOne(db, steps);
    if steps[0].DoPoll? && steps[0].now >= Deadline(db.tools[tool], lim) {
      k := 1;
    } else {
      var at := if steps[0].DoPoll? then steps[0].now else prev;
      k := RaisedByDeadline(next, steps[1..], tool, lim, at, gap);
      k := k + 1;
      forall j | 0 < j <= k
        ensures Run(db, steps[..j]) == Run(next, steps[1..][..j - 1])
      {
        RunSplit(db, steps, j);
      }
      assert steps[1..][k - 1..] == steps[k..];
    }
  }

  lemma RunSplit(db: Db, steps: seq<Step>, j: nat)
    requires WellFormed(db) && 0 < j <= |steps|
    ensures WellFormed(Next(db, steps[0])) && Run(db, steps[..j]) == Run(Next(db, steps[0]), steps[1..][..j - 1])
  {
    NextShape(db, steps[0]);
    assert steps[..j][1..] == steps[1..][..j - 1];
  }

  lemma RunOne(db: Db, steps: seq<Step>)
    requires WellFormed(db) && steps != []
    ensures Run(db, steps[..1]) == Next(db, steps[0]) && Run(db, steps[..0]) == db
  {
    RunSplit(db, steps, 1);
    assert |steps[1..][..0]| == 0;
  }

  /** The bounded response. A tool whose last accepted update left it out or staged at time t
      is missing from a poll in [t+T, t+T+P] on, and in alert from a later poll in
      [t+T+G, t+T+G+2P] on; until then it has exactly the record before, whatever happens to
      other tools and however many rejections are logged. */
  lemma AlarmIsRaisedInTime(db: Db, steps: seq<Step>, tool: ToolId, lim: Limits, prev: Time, gap: Time)
    returns (i: nat, k: nat)
    requires WellFormed(db) && tool in db.tools && (db.tools[tool].status == Out || db.tools[tool].status == Staged)
    requires lim.timeout >= 0 && lim.grace >= 0 && gap >= 0
    requires AllSpare(db, steps, tool, lim) && Polled(steps, prev, gap)
    requires var t := db.tools[tool].updated;
             && prev <= t + lim.timeout && LastPoll(steps, prev) > t + lim.timeout + lim.grace + gap
             && prev < LastPoll(steps, prev)
    ensures 0 < i < k <= |steps| && steps[i - 1].DoPoll? && steps[k - 1].DoPoll?
    ensures var due := db.tools[tool].updated + lim.timeout;
            && due <= steps[i - 1].now <= due + gap
            && due + lim.grace <= steps[k - 1].now <= due + lim.grace + 2 * gap
    ensures forall j :: 0 <= j <= k ==>
              StatusIs(Run(db, steps[..j]), tool,
                       if j < i then db.tools[tool].status else if j < k then Missing else FodAlert)
  {
    hide Run, AllSpare, Polled, LastPoll;
    i := RaisedByDeadline(db, steps, tool, lim, prev, gap);
    var mid := Run(db, steps[..i]);
    var at := steps[i - 1].now;
    var rest := steps[i..];
    k := RaisedByDeadline(mid, rest, tool, lim, at, gap);
    k := i + k;
    assert steps[k - 1] == rest[k - i - 1];
    forall j | 0 <= j <= k
      ensures StatusIs(Run(db, steps[..j]), tool,
                       if j < i then db.tools[tool].status else if j < k then Missing else FodAlert)
    {
      if j >= i {
        PrefixSplits(steps, i, j);
        RunJoins(db, steps[..i], rest[..j - i]);
      }
    }
  }

  /** And t is the time of the update itself: a tool that a track reports as taken out or staged at
      time t is in that status until a poll in [t+T, t+T+P], missing from it on, and in alert from
      a later poll in [t+T+G, t+T+G+2P] on. */
  lemma UpdateStartsClock(db: Db, u: Update, t: Time, steps: seq<Step>, lim: Limits, prev: Time, gap: Time)
    returns (i: nat, k: nat)
    requires WellFormed(db) && Accepts(db, u) && (u.status == Some(Out) || u.status == Some(Staged))
    requires lim.timeout >= 0 && lim.grace >= 0 && gap >= 0
    requires WellFormed(UpdateTx(db, u, t)) && AllSpare(UpdateTx(db, u, t), steps, u.tool, lim)
    requires Polled(steps, prev, gap)
    requires prev <= t + lim.timeout && prev < LastPoll(steps, prev)
    requires LastPoll(steps, prev) > t + lim.timeout + lim.grace + gap
    ensures 0 < i < k <= |steps| && steps[i - 1].DoPoll? && steps[k - 1].DoPoll?
    ensures t + lim.timeout <= steps[i - 1].now <= t + lim.timeout + gap
    ensures t + lim.timeout + lim.grace <= steps[k - 1].now <= t + lim.timeout + lim.grace + 2 * gap
    ensures forall j :: 0 <= j <= k ==>
              StatusIs(Run(UpdateTx(db, u, t), steps[..j]), u.tool,
                       if j < i then u.status.value else if j < k then Missing else FodAlert)
  {
    assert UpdateTx(db, u, t).tools[u.tool].updated == t;
    hide UpdateTx, AllSpare, Polled, LastPoll, Run;
    i, k := AlarmIsRaisedInTime(UpdateTx(db, u, t), steps, u.tool, lim, prev, gap);
  }

  lemma PrefixSplits(steps: seq<Step>, i: nat, j: nat)
    requires i <= j <= |steps|
    ensures steps[..j] == steps[..i] + steps[i..][..j - i]
  {
  }

  lemma {:induction false} RunJoins(db: Db, a: seq<Step>, b: seq<Step>)
    requires WellFormed(db)
    ensures Run(db, a + b) == Run(Run(db, a), b)
    decreases |a|
  {
    if a == [] {
      assert a + b == b;
    } else {
      NextShape(db, a[0]);
      assert (a + b)[1..] == a[1..] + b;
      RunJoins(Next(db, a[0]), a[1..], b);
    }
  }

  /** What does move the deadline: an accepted error record restarts the clock, so a poll less
      than the timeout after it finds nothing, however long the tool has been out; a rejection
      at the same moment moves nothing. */
  lemma ErrorRestartsClockRejectionDoesNot(db: Db, tool: ToolId, lim: Limits, now: Time, poll: Time)
    requires WellFormed(db) && tool in db.tools && tool != "" &&
             (db.tools[tool].status == Out || db.tools[tool].status == Staged)
    requires db.tools[tool].updated + lim.timeout <= poll < now + lim.timeout
    ensures var u := Update(tool, Some(db.tools[tool].status), Some(Error), Some(A), "");
            var recorded := UpdateTx(db, u, now);
            && WellFormed(recorded)
            && StatusIs(FodTx(recorded, poll, lim), tool, db.tools[tool].status)
    ensures var refused := RejectTx(db, tool, db.tools[tool].status, None, "", now);
            && WellFormed(refused)
            && StatusIs(FodTx(refused, poll, lim), tool, Missing)
  {
    var u := Update(tool, Some(db.tools[tool].status), Some(Error), Some(A), "");
    NextShape(db, DoUpdate(u, now));
    NextShape(db, DoReject(tool, db.tools[tool].status, None, "", now));
    PollRaisesOneLevel(UpdateTx(db, u, now), poll, lim, tool);
    PollRaisesOneLevel(RejectTx(db, tool, db.tools[tool].status, None, "", now), poll, lim, tool);
  }
}
