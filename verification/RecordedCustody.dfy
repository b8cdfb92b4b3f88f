/** One fetch or return from the first step to the last database update: the executor, the
    update threads started at its markers, and the database they reach in any order or never. */
module RecordedCustody {
  import opened Wrappers
  import opened ToolDatabase
  import opened MotionSequences

  // An update thread: the tool id was read when it was started.
  datatype Thread = Thread(tool: ToolId, marker: Marker)

  // `active` is _active_tool_id; `arrived` is the history of updates that reached the database.
  datatype World = World(pc: nat, running: bool, scene: Scene, active: ToolId, threads: seq<Thread>,
                         arrived: seq<Thread>, db: Db)

  datatype Step =
    | Succeeds
    | Fails(effect: bool, arm: Place)
    | Halts
    | Arrives(i: nat, now: Time)
    | GetsLost(i: nat)
    | Others(step: ToolDatabase.Step)
    | Overwrites(tool: ToolId)

  // The update a marker stands for.
  function UpdateOf(task: Task, t: Thread): Update {
    match (task, t.marker)
    case (FetchTask, PickMarker) => Update(t.tool, Some(Out), Some(Fetch), Some(A), "fetch pick")
    case (FetchTask, PlaceMarker) => Update(t.tool, Some(Staged), Some(Fetch), Some(A), "fetch place")
    case (ReturnTask, PickMarker) => Update(t.tool, Some(Out), Some(Return), Some(A), "return pick")
    case (ReturnTask, PlaceMarker) => Update(t.tool, Some(InSlot), Some(Return), Some(A), "return place")
  }

  function StatusOf(task: Task, stage: int): Status {
    if stage == 1 then Out
    else if (stage == 0) == (task == FetchTask) then InSlot
    else Staged
  }

  function Without<T>(s: seq<T>, i: nat): seq<T>
    requires i < |s|
  {
    s[..i] + s[i + 1..]
  }

  // The executor runs its next step and finds that it succeeded: a marker starts a thread.
  function Advance(w: World, steps: seq<MotionSequences.Step>): World
    requires w.pc < |steps|
  {
    var marker := steps[w.pc].marker;
    w.(pc := w.pc + 1, scene := Apply(w.scene, steps[w.pc]),
       threads := w.threads + if marker.Some? then [Thread(w.active, marker.value)] else [])
  }

  // A step that failed: the arm may be anywhere, its effect on the tool there or not.
  function Broken(w: World, steps: seq<MotionSequences.Step>, effect: bool, arm: Place): World
    requires w.pc < |steps|
  {
    w.(running := false, scene := Scene(arm, if effect then Apply(w.scene, steps[w.pc]).tool else w.scene.tool))
  }

  function Next(task: Task, steps: seq<MotionSequences.Step>, w: World, step: Step): World
    requires WellFormed(w.db)
  {
    match step
    case Succeeds => if w.running && w.pc < |steps| then Advance(w, steps) else w
    case Fails(effect, arm) => if w.running && w.pc < |steps| then Broken(w, steps, effect, arm) else w
    case Halts => w.(running := false)
    case Arrives(i, now) =>
      if i < |w.threads| then
        w.(db := UpdateTx(w.db, UpdateOf(task, w.threads[i]), now), threads := Without(w.threads, i),
           arrived := w.arrived + [w.threads[i]])
      else w
    case GetsLost(i) => if i < |w.threads| then w.(threads := Without(w.threads, i)) else w
    case Others(s) => w.(db := ToolDatabase.Next(w.db, s))
    case Overwrites(tool) => w.(active := tool)
  }

  lemma NextIsWellFormed(task: Task, steps: seq<MotionSequences.Step>, w: World, step: Step)
    requires WellFormed(w.db)
    ensures var db := Next(task, steps, w, step).db; WellFormed(db) && db.tools.Keys == w.db.tools.Keys
  {
    match step
    case Arrives(i, now) =>
      if i < |w.threads| {
        NextShape(w.db, DoUpdate(UpdateOf(task, w.threads[i]), now));
      }
    case Others(s) => NextShape(w.db, s);
    case _ =>
  }

  function Run(task: Task, steps: seq<MotionSequences.Step>, w: World, events: seq<Step>): (t: World)
    requires WellFormed(w.db)
    ensures WellFormed(t.db)
    decreases |events|
  {
    if events == [] then w
    else
      NextIsWellFormed(task, steps, w, events[0]);
      Run(task, steps, Next(task, steps, w, events[0]), events[1..])
  }

  // What may happen meanwhile: further intents, and of other processes anything but moving this
  // tool; the monitor may poll, and errors and rejections of this very tool may be recorded.
  predicate Allowed(step: Step, own: ToolId) {
    match step
    case Others(DoUpdate(u, _)) => u.tool != own || u.kind == Some(Error)
    case _ => true
  }

  // The record is at or behind the tool's stage, or the monitor has flagged it.
  predicate AtOrBehind(task: Task, status: Status, spot: Spot) {
    || status == Missing || status == FodAlert
    || (exists stage | 0 <= stage <= Stage(task, spot) && stage <= 2 :: status == StatusOf(task, stage))
  }

  predicate ThreadOk(task: Task, own: ToolId, spot: Spot, t: Thread) {
    t.tool == own ==> StageOf(t.marker) <= Stage(task, spot)
  }

  ghost predicate Inv(task: Task, steps: seq<MotionSequences.Step>, own: ToolId, w: World) {
    && WellFormed(w.db) && own in w.db.tools && own != ""
    && w.pc <= |steps| && (w.running ==> Honest(task, w.scene, steps[w.pc..]))
    && (forall i :: 0 <= i < |w.threads| ==> ThreadOk(task, own, w.scene.tool, w.threads[i]))
    && AtOrBehind(task, w.db.tools[own].status, w.scene.tool)
  }

  // A run begins: tool and record agree at the origin. The active tool id may already be
  // another's, and updates of earlier runs in the same direction may still be under way.
  ghost predicate Begins(task: Task, own: ToolId, w: World) {
    && WellFormed(w.db) && own in w.db.tools && own != ""
    && w.pc == 0 && w.running
    && w.scene.tool == Origin(task) && w.db.tools[own].status == StatusOf(task, 0)
  }

  // A run begins and nothing is under way.
  ghost predicate Start(task: Task, own: ToolId, w: World) {
    Begins(task, own, w) && w.threads == [] && w.arrived == []
  }

  predicate NoneNamed(threads: seq<Thread>, id: ToolId) {
    forall i :: 0 <= i < |threads| ==> threads[i].tool != id
  }

  function Opposite(task: Task): Task {
    match task
    case FetchTask => ReturnTask
    case ReturnTask => FetchTask
  }

  // What a run withstands besides: a late update of this tool from
  // an earlier run in the other direction.
  predicate Tolerated(task: Task, step: Step, own: ToolId) {
    || Allowed(step, own)
    || (step.Others? && step.step.DoUpdate?
        && (step.step.u == UpdateOf(Opposite(task), Thread(own, PickMarker))
            || step.step.u == UpdateOf(Opposite(task), Thread(own, PlaceMarker))))
  }

  // ---------------------------------------------------------------- one step

  /** Which updates the database takes: a pick exactly on the origin's status, a place exactly
      on out, so a place that overtook its pick is refused. */
  lemma UpdateIsTakenIff(task: Task, db: Db, t: Thread)
    requires t.tool in db.tools && t.tool != ""
    ensures Accepts(db, UpdateOf(task, t)) <==>
            db.tools[t.tool].status == if t.marker == PickMarker then StatusOf(task, 0) else Out
  {
  }

  lemma ArrivalMoves(task: Task, db: Db, t: Thread, now: Time)
    requires t.tool in db.tools && t.tool != ""
    ensures var next := UpdateTx(db, UpdateOf(task, t), now);
            && t.tool in next.tools
            && next.tools[t.tool].status ==
               (if db.tools[t.tool].status == StatusOf(task, StageOf(t.marker) - 1)
                then StatusOf(task, StageOf(t.marker))
                else db.tools[t.tool].status)
  {
    UpdateIsTakenIff(task, db, t);
  }

  lemma OthersKeepStatus(db: Db, s: ToolDatabase.Step, own: ToolId)
    requires WellFormed(db) && own in db.tools && Allowed(Others(s), own)
    ensures own in ToolDatabase.Next(db, s).tools
    ensures var after, before := ToolDatabase.Next(db, s).tools[own].status, db.tools[own].status;
            after == before || (s.DoPoll? && (after == Missing || after == FodAlert))
  {
    NextShape(db, s);
    if s.DoPoll? {
      PollRaisesOneLevel(db, s.now, s.lim, own);
    }
  }

  // The stage never falls, and a later stage stays at or behind nothing new.
  lemma AtOrBehindGrows(task: Task, status: Status, before: Spot, after: Spot)
    requires AtOrBehind(task, status, before) && Stage(task, before) <= Stage(task, after)
    ensures AtOrBehind(task, status, after)
  {
  }

  lemma AdvanceKeeps(task: Task, steps: seq<MotionSequences.Step>, own: ToolId, w: World)
    requires Inv(task, steps, own, w) && w.running && w.pc < |steps|
    ensures Inv(task, steps, own, Advance(w, steps))
    ensures forall effect, arm :: Inv(task, steps, own, Broken(w, steps, effect, arm))
  {
    var rest := steps[w.pc..];
    assert rest[0] == steps[w.pc] && rest[1..] == steps[w.pc + 1..];
    assert HonestStep(task, w.scene, steps[w.pc]);
    var next := Apply(w.scene, steps[w.pc]);
    assert Stage(task, w.scene.tool) <= Stage(task, next.tool);
    AtOrBehindGrows(task, w.db.tools[own].status, w.scene.tool, next.tool);
    hide Honest, HonestStep, AtOrBehind, Apply;
    forall i | 0 <= i < |w.threads|
      ensures ThreadOk(task, own, next.tool, w.threads[i])
    {
      assert ThreadOk(task, own, w.scene.tool, w.threads[i]);
    }
    assert steps[w.pc].marker.Some? ==> ThreadOk(task, own, next.tool, Thread(w.active, steps[w.pc].marker.value)) by {
      HonestMarker(task, w.scene, steps[w.pc]);
    }
  }

  lemma HonestMarker(task: Task, s: Scene, step: MotionSequences.Step)
    ensures HonestStep(task, s, step) && step.marker.Some? ==>
              StageOf(step.marker.value) == Stage(task, Apply(s, step).tool)
  {
  }

  lemma ArrivalKeeps(task: Task, steps: seq<MotionSequences.Step>, own: ToolId, w: World, i: nat, now: Time)
    requires Inv(task, steps, own, w) && i < |w.threads|
    ensures Inv(task, steps, own, Next(task, steps, w, Arrives(i, now)))
  {
    hide Honest;
    var t := w.threads[i];
    assert ThreadOk(task, own, w.scene.tool, t);
    NextIsWellFormed(task, steps, w, Arrives(i, now));
    ArrivalRecords(task, own, w.db, t, w.scene.tool, now);
    hide UpdateTx, UpdateOf, AtOrBehind;
  }

  lemma ArrivalRecords(task: Task, own: ToolId, db: Db, t: Thread, spot: Spot, now: Time)
    requires own in db.tools && own != "" && ThreadOk(task, own, spot, t) &&
             AtOrBehind(task, db.tools[own].status, spot)
    ensures var next := UpdateTx(db, UpdateOf(task, t), now);
            own in next.tools && AtOrBehind(task, next.tools[own].status, spot)
  {
    if t.tool == own {
      ArrivalMoves(task, db, t, now);
    } else {
      OtherUpdateKeeps(db, UpdateOf(task, t), now, own);
    }
    hide UpdateTx, UpdateOf;
  }

  lemma OtherUpdateKeeps(db: Db, u: Update, now: Time, id: ToolId)
    requires id in db.tools && u.tool != id
    ensures id in UpdateTx(db, u, now).tools && UpdateTx(db, u, now).tools[id] == db.tools[id]
  {
  }

  // An update of the other direction only takes the record back.
  lemma OppositeKeeps(task: Task, own: ToolId, db: Db, u: Update, now: Time, spot: Spot)
    requires own in db.tools && own != "" && AtOrBehind(task, db.tools[own].status, spot)
    requires u == UpdateOf(Opposite(task), Thread(own, PickMarker))
          || u == UpdateOf(Opposite(task), Thread(own, PlaceMarker))
    ensures own in UpdateTx(db, u, now).tools && AtOrBehind(task, UpdateTx(db, u, now).tools[own].status, spot)
  {
    var marker := if u == UpdateOf(Opposite(task), Thread(own, PickMarker)) then PickMarker else PlaceMarker;
    var status := db.tools[own].status;
    ArrivalMoves(Opposite(task), db, Thread(own, marker), now);
    hide UpdateTx, UpdateOf;
    if status == StatusOf(Opposite(task), StageOf(marker) - 1) {
      assert status == StatusOf(task, 3 - StageOf(marker));
      OneStageBack(task, 3 - StageOf(marker), spot);
      assert StatusOf(Opposite(task), StageOf(marker)) == StatusOf(task, 2 - StageOf(marker));
    }
  }

  lemma OneStageBack(task: Task, stage: int, spot: Spot)
    requires 1 <= stage <= 2 && AtOrBehind(task, StatusOf(task, stage), spot)
    ensures AtOrBehind(task, StatusOf(task, stage - 1), spot)
  {
    var k :| 0 <= k <= Stage(task, spot) && k <= 2 && StatusOf(task, stage) == StatusOf(task, k);
    assert StatusOf(task, stage - 1) == StatusOf(task, k - 1);
  }

  lemma StepKeeps(task: Task, steps: seq<MotionSequences.Step>, own: ToolId, w: World, step: Step)
    requires Inv(task, steps, own, w) && Tolerated(task, step, own)
    ensures Inv(task, steps, own, Next(task, steps, w, step))
  {
    hide Honest, Advance, Broken, AtOrBehind;
    match step
    case Succeeds =>
      if w.running && w.pc < |steps| {
        AdvanceKeeps(task, steps, own, w);
      }
    case Fails(effect, arm) =>
      if w.running && w.pc < |steps| {
        AdvanceKeeps(task, steps, own, w);
        assert Inv(task, steps, own, Broken(w, steps, effect, arm));
      }
    case Arrives(i, now) =>
      if i < |w.threads| {
        ArrivalKeeps(task, steps, own, w, i, now);
      }
    case Others(s) =>
      NextShape(w.db, s);
      if Allowed(step, own) {
        OthersKeepStatus(w.db, s, own);
      } else {
        OppositeKeeps(task, own, w.db, s.u, s.now, w.scene.tool);
      }
      assert AtOrBehind(task, Missing, w.scene.tool) && AtOrBehind(task, FodAlert, w.scene.tool) by {
        FlaggedIsFine(task, w.scene.tool);
      }
    case _ =>
  }

  lemma FlaggedIsFine(task: Task, spot: Spot)
    ensures AtOrBehind(task, Missing, spot) && AtOrBehind(task, FodAlert, spot)
  {
  }

  // ---------------------------------------------------------------- whole runs

  predicate AllAllowed(events: seq<Step>, own: ToolId) {
    forall i :: 0 <= i < |events| ==> Allowed(events[i], own)
  }

  predicate AllTolerated(task: Task, events: seq<Step>, own: ToolId) {
    forall i :: 0 <= i < |events| ==> Tolerated(task, events[i], own)
  }

  lemma {:induction false} RunKeeps(task: Task, steps: seq<MotionSequences.Step>, own: ToolId, w: World,
                                    events: seq<Step>)
    requires Inv(task, steps, own, w) && AllTolerated(task, events, own)
    ensures Inv(task, steps, own, Run(task, steps, w, events))
    decreases |events|
  {
    hide Next;
    if events != [] {
      assert Tolerated(task, events[0], own);
      StepKeeps(task, steps, own, w, events[0]);
      hide Inv;
      assert AllTolerated(task, events[1..], own);
      NextIsWellFormed(task, steps, w, events[0]);
      RunKeeps(task, steps, own, Next(task, steps, w, events[0]), events[1..]);
    }
  }

  /** The record of the tool that is moved never runs ahead of it: whatever step fails, with or
      without its effect, wherever the run is cancelled or stopped, and however its two updates
      are delayed, reordered or lost or named after the tool of a further intent, while the
      monitor polls and other processes write. Updates of earlier runs may still be under way and
      come in at any time, if they are for other tools or of the other direction. */
  lemma RecordNeverAhead(task: Task, own: ToolId, w: World, events: seq<Step>)
    requires Begins(task, own, w) && NoneNamed(w.threads, own) && AllTolerated(task, events, own)
    ensures var end := Run(task, Sequence(task), w, events);
            own in end.db.tools && AtOrBehind(task, end.db.tools[own].status, end.scene.tool)
  {
    SequencesAreHonest(task, w.scene);
    assert Sequence(task)[0..] == Sequence(task);
    hide Honest, Sequence;
    assert AtOrBehind(task, StatusOf(task, 0), w.scene.tool) by { OriginIsFine(task); }
    RunKeeps(task, Sequence(task), own, w, events);
  }

  lemma OriginIsFine(task: Task)
    ensures AtOrBehind(task, StatusOf(task, 0), Origin(task))
  {
    assert StatusOf(task, 0) == StatusOf(task, 0);
  }

  // ---------------------------------------------------------------- what the arrivals record

  // An update for this marker moves a record with this status.
  predicate Takes(task: Task, status: Status, marker: Marker) {
    status == StatusOf(task, StageOf(marker) - 1)
  }

  // What the arrived updates make of one tool's record.
  function StatusAfter(task: Task, start: Status, arrived: seq<Thread>, id: ToolId): Status {
    if arrived == [] then start
    else
      var status, t := StatusAfter(task, start, arrived[..|arrived| - 1], id), arrived[|arrived| - 1];
      if t.tool == id && Takes(task, status, t.marker) then StatusOf(task, StageOf(t.marker)) else status
  }

  predicate NoPolls(events: seq<Step>) {
    forall i :: 0 <= i < |events| ==> !(events[i].Others? && events[i].step.DoPoll?)
  }

  // The record of tool `id`, which started with status `start`, is what arrived for it.
  ghost predicate Told(task: Task, w: World, id: ToolId, start: Status) {
    WellFormed(w.db) && id in w.db.tools && w.db.tools[id].status == StatusAfter(task, start, w.arrived, id)
  }

  lemma ArrivalTells(task: Task, steps: seq<MotionSequences.Step>, w: World, i: nat, now: Time, id: ToolId,
                     start: Status)
    requires Told(task, w, id, start) && id != "" && i < |w.threads|
    ensures Told(task, Next(task, steps, w, Arrives(i, now)), id, start)
  {
    var t := w.threads[i];
    NextIsWellFormed(task, steps, w, Arrives(i, now));
    assert (w.arrived + [t])[..|w.arrived|] == w.arrived;
    if t.tool == id {
      ArrivalMoves(task, w.db, t, now);
    } else {
      OtherUpdateKeeps(w.db, UpdateOf(task, t), now, id);
    }
    hide UpdateTx, UpdateOf;
  }

  lemma StepTells(task: Task, steps: seq<MotionSequences.Step>, w: World, step: Step, id: ToolId, start: Status)
    requires Told(task, w, id, start) && id != "" && Allowed(step, id) && !(step.Others? && step.step.DoPoll?)
    ensures Told(task, Next(task, steps, w, step), id, start)
  {
    hide StatusAfter, Apply;
    NextIsWellFormed(task, steps, w, step);
    match step
    case Arrives(i, now) =>
      if i < |w.threads| {
        ArrivalTells(task, steps, w, i, now, id, start);
      }
    case Others(s) => OthersKeepStatus(w.db, s, id);
    case _ =>
  }

  lemma {:induction false} RunTells(task: Task, steps: seq<MotionSequences.Step>, w: World, events: seq<Step>,
                                    id: ToolId, start: Status)
    requires Told(task, w, id, start) && id != "" && AllAllowed(events, id) && NoPolls(events)
    ensures Told(task, Run(task, steps, w, events), id, start)
    decreases |events|
  {
    hide Next, StatusAfter;
    if events != [] {
      assert Allowed(events[0], id);
      StepTells(task, steps, w, events[0], id, start);
      assert AllAllowed(events[1..], id) && NoPolls(events[1..]);
      NextIsWellFormed(task, steps, w, events[0]);
      RunTells(task, steps, Next(task, steps, w, events[0]), events[1..], id, start);
    }
  }

  // ---------------------------------------------------------------- when they agree again

  predicate PickBeforePlace(arrived: seq<Thread>, id: ToolId) {
    exists i, j ::
      0 <= i < j < |arrived| && arrived[i] == Thread(id, PickMarker) && arrived[j] == Thread(id, PlaceMarker)
  }

  lemma {:induction false} StatusAfterIff(task: Task, arrived: seq<Thread>, id: ToolId)
    ensures var status := StatusAfter(task, StatusOf(task, 0), arrived, id);
            && (status != StatusOf(task, 0) <==> Thread(id, PickMarker) in arrived)
            && (status == StatusOf(task, 2) <==> PickBeforePlace(arrived, id))
            && (status == StatusOf(task, 0) || status == StatusOf(task, 1) || status == StatusOf(task, 2))
    decreases |arrived|
  {
    if arrived != [] {
      var n := |arrived| - 1;
      var before := arrived[..n];
      StatusAfterIff(task, before, id);
      assert arrived == before + [arrived[n]];
      PickBeforePlaceGrows(before, arrived[n], id);
      hide PickBeforePlace;
    }
  }

  lemma PickBeforePlaceGrows(before: seq<Thread>, last: Thread, id: ToolId)
    ensures PickBeforePlace(before + [last], id)
       <==> PickBeforePlace(before, id) || (Thread(id, PickMarker) in before && last == Thread(id, PlaceMarker))
  {
    var arrived, n := before + [last], |before|;
    var pick, place := Thread(id, PickMarker), Thread(id, PlaceMarker);
    if PickBeforePlace(arrived, id) {
      var i, j :| 0 <= i < j < |arrived| && arrived[i] == pick && arrived[j] == place;
      assert before[i] == pick;
      assert j < n ==> before[j] == place;
    }
    if PickBeforePlace(before, id) {
      var i, j :| 0 <= i < j < n && before[i] == pick && before[j] == place;
      assert arrived[i] == pick && arrived[j] == place;
    }
    if pick in before && last == place {
      var i :| 0 <= i < n && before[i] == pick;
      assert arrived[i] == pick && arrived[n] == place;
    }
  }

  // A run that has carried out every step has brought the tool to its goal.
  ghost predicate Reaches(task: Task, steps: seq<MotionSequences.Step>, w: World) {
    && (w.running && w.pc <= |steps| ==> ApplyAll(w.scene, steps[w.pc..]).tool == Goal(task))
    && (w.pc == |steps| ==> w.scene.tool == Goal(task))
  }

  lemma StepReaches(task: Task, steps: seq<MotionSequences.Step>, w: World, step: Step)
    requires Reaches(task, steps, w) && WellFormed(w.db)
    ensures Reaches(task, steps, Next(task, steps, w, step))
  {
    hide Apply;
    if (step.Succeeds? || step.Fails?) && w.running && w.pc < |steps| {
      var rest := steps[w.pc..];
      assert rest[0] == steps[w.pc] && rest[1..] == steps[w.pc + 1..];
    }
  }

  lemma {:induction false} RunReaches(task: Task, steps: seq<MotionSequences.Step>, w: World, events: seq<Step>)
    requires Reaches(task, steps, w) && WellFormed(w.db)
    ensures Reaches(task, steps, Run(task, steps, w, events))
    decreases |events|
  {
    hide Next, Reaches;
    if events != [] {
      StepReaches(task, steps, w, events[0]);
      NextIsWellFormed(task, steps, w, events[0]);
      RunReaches(task, steps, Next(task, steps, w, events[0]), events[1..]);
    }
  }

  /** Exactly when record and tool agree at the end of a run that carried out every step, as long
      as the monitor stays out of it: when the pick's update for this tool arrived before the
      place's. */
  lemma FinishedRunAgreesIff(task: Task, own: ToolId, w: World, events: seq<Step>)
    requires Start(task, own, w) && AllAllowed(events, own) && NoPolls(events)
    requires Run(task, Sequence(task), w, events).pc == |Sequence(task)|
    ensures var end := Run(task, Sequence(task), w, events);
            && own in end.db.tools && end.scene.tool == Goal(task)
            && (end.db.tools[own].status == StatusOf(task, 2) <==> PickBeforePlace(end.arrived, own))
  {
    SequencesAreHonest(task, w.scene);
    assert Sequence(task)[0..] == Sequence(task);
    SequenceIsLong(task);
    hide Honest, Sequence, ApplyAll;
    RunTells(task, Sequence(task), w, events, own, StatusOf(task, 0));
    RunReaches(task, Sequence(task), w, events);
    StatusAfterIff(task, Run(task, Sequence(task), w, events).arrived, own);
  }

  lemma SequenceIsLong(task: Task)
    ensures |Sequence(task)| > 0
  {
  }

  // ---------------------------------------------------------------- the other tools' records

  // How far along the path a status is; a flagged record is not on it.
  function Rank(task: Task, status: Status): int {
    if status == StatusOf(task, 0) then 0 else if status == Out then 1 else if status == StatusOf(task, 2) then 2 else 3
  }

  lemma {:induction false} StatusAfterClimbs(task: Task, start: Status, arrived: seq<Thread>, id: ToolId)
    ensures var status := StatusAfter(task, start, arrived, id);
            && (status == start || Rank(task, status) > Rank(task, start))
            && (status != start <==> exists i :: 0 <= i < |arrived| && Moves(task, start, arrived[i], id))
    decreases |arrived|
  {
    if arrived != [] {
      var n := |arrived| - 1;
      StatusAfterClimbs(task, start, arrived[..n], id);
      assert arrived == arrived[..n] + [arrived[n]];
      MovesGrow(task, start, arrived[..n], arrived[n], id);
    }
  }

  // The update is for this tool and moves a record with this status.
  predicate Moves(task: Task, status: Status, t: Thread, id: ToolId) {
    t.tool == id && Takes(task, status, t.marker)
  }

  lemma MovesGrow(task: Task, start: Status, before: seq<Thread>, last: Thread, id: ToolId)
    ensures (exists i :: 0 <= i < |before + [last]| && Moves(task, start, (before + [last])[i], id))
       <==> (exists i :: 0 <= i < |before| && Moves(task, start, before[i], id)) || Moves(task, start, last, id)
  {
    hide Moves;
    var arrived := before + [last];
    assert arrived[|before|] == last;
    if i :| 0 <= i < |arrived| && Moves(task, start, arrived[i], id) {
      assert i < |before| ==> before[i] == arrived[i];
    }
    if i :| 0 <= i < |before| && Moves(task, start, before[i], id) {
      assert arrived[i] == before[i];
    }
  }

  /** Any tool's record, whatever intents come in: without the monitor and without other processes
      it leaves its status exactly if an update named after the tool arrived that moves that
      status, which at the origin is a pick and at out a place. For a tool that no arm moves this
      is exactly when its record is wrong. */
  lemma RecordMovesIff(task: Task, id: ToolId, w: World, events: seq<Step>)
    requires WellFormed(w.db) && id in w.db.tools && id != "" && w.arrived == []
    requires AllAllowed(events, id) && NoPolls(events)
    ensures var end := Run(task, Sequence(task), w, events);
            && id in end.db.tools
            && (end.db.tools[id].status != w.db.tools[id].status
                <==> exists i :: 0 <= i < |end.arrived| && Moves(task, w.db.tools[id].status, end.arrived[i], id))
  {
    hide Sequence;
    RunTells(task, Sequence(task), w, events, id, w.db.tools[id].status);
    StatusAfterClimbs(task, w.db.tools[id].status, Run(task, Sequence(task), w, events).arrived, id);
  }

  // The step, if it succeeds, starts an update named after this tool.
  predicate Names(steps: seq<MotionSequences.Step>, w: World, step: Step, id: ToolId) {
    step == Succeeds && w.running && w.pc < |steps| && steps[w.pc].marker.Some? && w.active == id
  }

  predicate NeverNames(task: Task, steps: seq<MotionSequences.Step>, w: World, events: seq<Step>, id: ToolId)
    requires WellFormed(w.db)
    decreases |events|
  {
    if events == [] then true
    else
      NextIsWellFormed(task, steps, w, events[0]);
      !Names(steps, w, events[0], id) && NeverNames(task, steps, Next(task, steps, w, events[0]), events[1..], id)
  }

  // No update is named after the tool, and its record is as it was or flagged.
  ghost predicate Untouched(w: World, id: ToolId, start: Status) {
    && WellFormed(w.db) && id in w.db.tools
    && (forall i :: 0 <= i < |w.threads| ==> w.threads[i].tool != id)
    && (w.db.tools[id].status == start || w.db.tools[id].status == Missing || w.db.tools[id].status == FodAlert)
  }

  lemma ArrivalLeavesUntouched(task: Task, steps: seq<MotionSequences.Step>, w: World, i: nat, now: Time, id: ToolId,
                               start: Status)
    requires Untouched(w, id, start) && i < |w.threads|
    ensures Untouched(Next(task, steps, w, Arrives(i, now)), id, start)
  {
    NextIsWellFormed(task, steps, w, Arrives(i, now));
    assert w.threads[i].tool != id;
    OtherUpdateKeeps(w.db, UpdateOf(task, w.threads[i]), now, id);
    hide UpdateTx, UpdateOf, Advance, Broken;
  }

  lemma StepLeavesUntouched(task: Task, steps: seq<MotionSequences.Step>, w: World, step: Step, id: ToolId,
                            start: Status)
    requires Untouched(w, id, start) && Allowed(step, id) && !Names(steps, w, step, id)
    ensures Untouched(Next(task, steps, w, step), id, start)
  {
    NextIsWellFormed(task, steps, w, step);
    match step
    case Arrives(i, now) =>
      if i < |w.threads| {
        ArrivalLeavesUntouched(task, steps, w, i, now, id, start);
      }
    case Others(s) => OthersKeepStatus(w.db, s, id);
    case _ => hide Apply;
  }

  lemma {:induction false} RunLeavesUntouched(task: Task, steps: seq<MotionSequences.Step>, w: World,
                                              events: seq<Step>, id: ToolId, start: Status)
    requires Untouched(w, id, start) && AllAllowed(events, id) && NeverNames(task, steps, w, events, id)
    ensures Untouched(Run(task, steps, w, events), id, start)
    decreases |events|
  {
    hide Next, Names;
    if events != [] {
      assert Allowed(events[0], id);
      StepLeavesUntouched(task, steps, w, events[0], id, start);
      hide Untouched;
      assert AllAllowed(events[1..], id);
      NextIsWellFormed(task, steps, w, events[0]);
      RunLeavesUntouched(task, steps, Next(task, steps, w, events[0]), events[1..], id, start);
    }
  }

  /** Every other tool: as long as the active tool id is not this tool's whenever a marked step
      succeeds, its record stays as it was, polls of the monitor apart, whatever further intents
      come in. */
  lemma OthersStayPut(task: Task, own: ToolId, w: World, events: seq<Step>, id: ToolId)
    requires Start(task, own, w) && id in w.db.tools
    requires AllAllowed(events, id) && NeverNames(task, Sequence(task), w, events, id)
    ensures Untouched(Run(task, Sequence(task), w, events), id, w.db.tools[id].status)
  {
    hide Sequence;
    RunLeavesUntouched(task, Sequence(task), w, events, id, w.db.tools[id].status);
  }

  /** And the condition is needed at every pick: when it succeeds and its update arrives, of all
      the tools at their origin exactly the one then active is recorded as out, held or not. */
  lemma PickRecordsActiveIff(task: Task, steps: seq<MotionSequences.Step>, w: World, now: Time, id: ToolId)
    requires WellFormed(w.db) && w.running && w.pc < |steps| && steps[w.pc].marker == Some(PickMarker)
    requires id in w.db.tools && id != "" && w.db.tools[id].status == StatusOf(task, 0)
    ensures var end := Run(task, steps, w, [Succeeds] + [Arrives(|w.threads|, now)]);
            id in end.db.tools && (end.db.tools[id].status == Out <==> w.active == id)
  {
    PickArrives(task, steps, w, now);
    if w.active == id {
      ArrivalMoves(task, w.db, Thread(id, PickMarker), now);
    } else {
      OtherUpdateKeeps(w.db, UpdateOf(task, Thread(w.active, PickMarker)), now, id);
    }
    hide UpdateTx, UpdateOf, Run;
  }

  lemma PickArrives(task: Task, steps: seq<MotionSequences.Step>, w: World, now: Time)
    requires WellFormed(w.db) && w.running && w.pc < |steps| && steps[w.pc].marker == Some(PickMarker)
    ensures Run(task, steps, w, [Succeeds] + [Arrives(|w.threads|, now)]).db
         == UpdateTx(w.db, UpdateOf(task, Thread(w.active, PickMarker)), now)
  {
    hide UpdateTx, UpdateOf, Apply;
    RunJoins(task, steps, w, [Succeeds], [Arrives(|w.threads|, now)]);
    RunOne(task, steps, w, Succeeds);
    var picked := Next(task, steps, w, Succeeds);
    RunOne(task, steps, picked, Arrives(|w.threads|, now));
    hide Run;
    assert picked.threads[|w.threads|] == Thread(w.active, PickMarker);
  }

  lemma {:induction false} RunJoins(task: Task, steps: seq<MotionSequences.Step>, w: World, a: seq<Step>, b: seq<Step>)
    requires WellFormed(w.db)
    ensures Run(task, steps, w, a + b) == Run(task, steps, Run(task, steps, w, a), b)
    decreases |a|
  {
    hide Next;
    if a == [] {
      assert a + b == b;
    } else {
      NextIsWellFormed(task, steps, w, a[0]);
      assert (a + b)[1..] == a[1..] + b;
      RunJoins(task, steps, Next(task, steps, w, a[0]), a[1..], b);
    }
  }

  lemma RunOne(task: Task, steps: seq<MotionSequences.Step>, w: World, step: Step)
    requires WellFormed(w.db)
    ensures Run(task, steps, w, [step]) == Next(task, steps, w, step)
  {
    NextIsWellFormed(task, steps, w, step);
  }

  function Successes(n: nat): seq<Step> {
    seq(n, _ => Succeeds)
  }

  function Threads(active: ToolId, markers: seq<Marker>): seq<Thread> {
    seq(|markers|, i requires 0 <= i < |markers| => Thread(active, markers[i]))
  }

  // The world after the first n steps of the run in w have succeeded.
  function Through(w: World, steps: seq<MotionSequences.Step>, n: nat): World
    requires n <= |steps|
  {
    w.(pc := n, scene := ApplyAll(w.scene, steps[..n]), threads := w.threads + Threads(w.active, Feedback(steps[..n])))
  }

  lemma ThroughStep(w: World, steps: seq<MotionSequences.Step>, n: nat)
    requires n < |steps|
    ensures Advance(Through(w, steps, n), steps) == Through(w, steps, n + 1)
  {
    var before, last := steps[..n], steps[n];
    assert steps[..n + 1] == before + [last];
    assert steps[..n + 1][..n] == before;
    ApplyLast(w.scene, before, last);
    hide Apply, ApplyAll;
    var more := if last.marker.Some? then [last.marker.value] else [];
    assert Feedback(steps[..n + 1]) == Feedback(before) + more;
    assert Threads(w.active, Feedback(before) + more) == Threads(w.active, Feedback(before)) + Threads(w.active, more);
  }

  lemma {:induction false} ApplyLast(s: Scene, steps: seq<MotionSequences.Step>, last: MotionSequences.Step)
    ensures ApplyAll(s, steps + [last]) == Apply(ApplyAll(s, steps), last)
    decreases |steps|
  {
    if steps == [] {
      assert steps + [last] == [last] && [last][1..] == [];
    } else {
      assert (steps + [last])[1..] == steps[1..] + [last];
      ApplyLast(Apply(s, steps[0]), steps[1..], last);
    }
  }

  /** The machine does what the executor's loop does: after n successful steps it stands where
      RunSequence stands with ran == n, and the threads started are those of its feedback. */
  lemma {:induction false} SuccessesRun(task: Task, steps: seq<MotionSequences.Step>, w: World, n: nat)
    requires WellFormed(w.db) && w.running && w.pc == 0 && n <= |steps|
    ensures Run(task, steps, w, Successes(n)) == Through(w, steps, n)
    decreases n
  {
    if n > 0 {
      SuccessesRun(task, steps, w, n - 1);
      assert Successes(n) == Successes(n - 1) + [Succeeds];
      RunJoins(task, steps, w, Successes(n - 1), [Succeeds]);
      RunOne(task, steps, Through(w, steps, n - 1), Succeeds);
      hide Run;
      ThroughStep(w, steps, n - 1);
    } else {
      assert steps[..0] == [] && Threads(w.active, []) == [];
    }
  }

  // ---------------------------------------------------------------- runs up to the pick

  // The steps up to the pick.
  function BeforePick(task: Task): seq<MotionSequences.Step> {
    match task
    case FetchTask => FetchMoves().0
    case ReturnTask => ReturnMoves().0
  }

  lemma Approach(task: Task)
    ensures EndsAt(BeforePick(task), Site(Origin(task)))
    ensures forall i :: 0 <= i < |BeforePick(task)| ==> Untouching(Origin(task), BeforePick(task), i)
  {
  }

  lemma PickFollows(task: Task)
    ensures BeforePick(task) + [Marked(G(PULSE_GRIP_TOOL), PickMarker)] <= Sequence(task)
  {
    var m := if task == FetchTask then FetchMoves() else ReturnMoves();
    FetchCarries();
    ReturnCarries();
    hide FullSocketFetchSeq, FullSocketReturnSeq, FetchMoves, ReturnMoves;
    assert Carrying(m.0, m.1, m.2)[..|m.0| + 1] == m.0 + [Marked(G(PULSE_GRIP_TOOL), PickMarker)];
  }

  lemma UpToPick(task: Task, s: Scene)
    requires s.tool == Origin(task)
    ensures var n := |BeforePick(task)|;
            && |Sequence(task)| > n && Sequence(task)[..n] == BeforePick(task)
            && Sequence(task)[n] == Marked(G(PULSE_GRIP_TOOL), PickMarker)
    ensures Feedback(BeforePick(task)) == []
    ensures ApplyAll(s, BeforePick(task)) == Scene(Site(Origin(task)), Origin(task))
  {
    hide BeforePick, Sequence, ApplyAll, Honest;
    var a, n := BeforePick(task), |BeforePick(task)|;
    Approach(task);
    PickFollows(task);
    assert Sequence(task)[..n] == a && Sequence(task)[n] == (a + [Marked(G(PULSE_GRIP_TOOL), PickMarker)])[n];
    UntouchingIsHonest(task, s, a);
    forall i | 0 <= i < n
      ensures a[i].marker == None
    {
      assert Untouching(s.tool, a, i);
    }
    NoFeedback(a);
  }

  lemma {:induction false} NoFeedback(steps: seq<MotionSequences.Step>)
    requires forall i :: 0 <= i < |steps| ==> steps[i].marker == None
    ensures Feedback(steps) == []
    decreases |steps|
  {
    if steps != [] {
      NoFeedback(steps[..|steps| - 1]);
    }
  }

  // The active tool id becomes b's, and every step up to the pick succeeds, the pick included.
  function UpToPickAs(task: Task, b: ToolId): seq<Step> {
    [Overwrites(b)] + Successes(|BeforePick(task)|) + [Succeeds]
  }

  // The world just before the pick, and once the arm has the tool and the pick's thread has
  // started, for the tool then active.
  function AtPick(task: Task, w: World, b: ToolId): World {
    w.(active := b, pc := |BeforePick(task)|, scene := Scene(Site(Origin(task)), Origin(task)))
  }

  function PickedAs(task: Task, w: World, b: ToolId): World {
    w.(active := b, pc := |BeforePick(task)| + 1, scene := Scene(Site(Origin(task)), InGripper),
       threads := w.threads + [Thread(b, PickMarker)])
  }

  lemma ReachesPick(task: Task, own: ToolId, b: ToolId, w: World)
    requires Begins(task, own, w)
    ensures Run(task, Sequence(task), w.(active := b), Successes(|BeforePick(task)|)) == AtPick(task, w, b)
  {
    UpToPick(task, w.scene);
    hide Sequence, ApplyAll, BeforePick;
    SuccessesRun(task, Sequence(task), w.(active := b), |BeforePick(task)|);
    hide Run;
    assert Threads(b, []) == [] && w.threads + [] == w.threads;
  }

  lemma PicksUp(task: Task, own: ToolId, b: ToolId, w: World)
    requires Begins(task, own, w)
    ensures Next(task, Sequence(task), AtPick(task, w, b), Succeeds) == PickedAs(task, w, b)
  {
    UpToPick(task, w.scene);
    hide Sequence, ApplyAll, BeforePick;
  }

  lemma PicksAs(task: Task, own: ToolId, b: ToolId, w: World)
    requires Begins(task, own, w)
    ensures Run(task, Sequence(task), w, UpToPickAs(task, b)) == PickedAs(task, w, b)
  {
    hide Sequence, Successes, BeforePick;
    var steps, n := Sequence(task), |BeforePick(task)|;
    RunOne(task, steps, w, Overwrites(b));
    RunOne(task, steps, AtPick(task, w, b), Succeeds);
    hide Run;
    ReachesPick(task, own, b, w);
    PicksUp(task, own, b, w);
    RunJoins(task, steps, w, [Overwrites(b)], Successes(n));
    RunJoins(task, steps, w, [Overwrites(b)] + Successes(n), [Succeeds]);
  }

  // And then the pick's update arrives.
  function PickRecordedAs(task: Task, w: World, b: ToolId): seq<Step> {
    UpToPickAs(task, b) + [Arrives(|w.threads|, 0)]
  }

  lemma PickIsRecorded(task: Task, own: ToolId, b: ToolId, w: World)
    requires Begins(task, own, w)
    ensures var end := Run(task, Sequence(task), w, PickRecordedAs(task, w, b));
            && end.db == UpdateTx(w.db, UpdateOf(task, Thread(b, PickMarker)), 0)
            && end.threads == w.threads && end.scene.tool == InGripper
  {
    hide Sequence, UpToPickAs;
    var picked := PickedAs(task, w, b);
    PicksAs(task, own, b, w);
    RunOne(task, Sequence(task), picked, Arrives(|w.threads|, 0));
    RunJoins(task, Sequence(task), w, UpToPickAs(task, b), [Arrives(|w.threads|, 0)]);
    hide Run, UpdateTx, UpdateOf;
    assert Without(picked.threads, |w.threads|) == w.threads;
  }

  /** Such a run: the active tool id is overwritten before the lock is tried, so the pick of one
      tool is recorded for another, which is then out in the record while it lies where it was. */
  lemma SecondIntentRunsAhead(task: Task, own: ToolId, b: ToolId, w: World)
    requires Begins(task, own, w)
    requires b != own && b != "" && b in w.db.tools && w.db.tools[b].status == StatusOf(task, 0)
    ensures var end := Run(task, Sequence(task), w, PickRecordedAs(task, w, b));
            && own in end.db.tools && b in end.db.tools && end.scene.tool == InGripper
            && end.db.tools[b].status == Out && end.db.tools[own].status == StatusOf(task, 0)
  {
    hide Sequence, PickRecordedAs;
    PickIsRecorded(task, own, b, w);
    hide Run;
    ArrivalMoves(task, w.db, Thread(b, PickMarker), 0);
    OtherUpdateKeeps(w.db, UpdateOf(task, Thread(b, PickMarker)), 0, own);
    hide UpdateTx, UpdateOf;
  }

  // ---------------------------------------------------------------- updates of earlier runs

  // The record of the tool is at or behind it.
  predicate IsBehind(task: Task, own: ToolId, w: World) {
    own in w.db.tools && AtOrBehind(task, w.db.tools[own].status, w.scene.tool)
  }

  // A run that lets the i-th leftover update put the record ahead: a pick comes in at once, a
  // place once the new pick is recorded.
  function Misled(task: Task, own: ToolId, w: World, i: nat): seq<Step>
    requires i < |w.threads|
  {
    if w.threads[i].marker == PickMarker then [Arrives(i, 0)]
    else PickRecordedAs(task, w, own) + [Arrives(i, 0)]
  }

  lemma MisledIsTolerated(task: Task, own: ToolId, w: World, i: nat)
    requires i < |w.threads|
    ensures AllTolerated(task, Misled(task, own, w, i), own)
  {
    forall k | 0 <= k < |Misled(task, own, w, i)|
      ensures !Misled(task, own, w, i)[k].Others?
    {
    }
  }

  lemma LeftoverMisleads(task: Task, own: ToolId, w: World, i: nat)
    requires Begins(task, own, w) && i < |w.threads| && w.threads[i].tool == own
    ensures !IsBehind(task, own, Run(task, Sequence(task), w, Misled(task, own, w, i)))
  {
    hide Sequence, PickRecordedAs;
    RunOne(task, Sequence(task), w, Arrives(i, 0));
    RunJoins(task, Sequence(task), w, PickRecordedAs(task, w, own), [Arrives(i, 0)]);
    if w.threads[i].marker == PickMarker {
      hide Run, UpdateTx, UpdateOf;
      ArrivalMoves(task, w.db, w.threads[i], 0);
    } else {
      PlaceMisleads(task, own, Run(task, Sequence(task), w, PickRecordedAs(task, w, own)), i) by {
        PickIsRecorded(task, own, own, w);
        hide Run, UpdateTx, UpdateOf;
        ArrivalMoves(task, w.db, Thread(own, PickMarker), 0);
      }
    }
  }

  lemma PlaceMisleads(task: Task, own: ToolId, w: World, i: nat)
    requires WellFormed(w.db) && own in w.db.tools && own != "" && w.db.tools[own].status == Out
    requires w.scene.tool == InGripper && i < |w.threads| && w.threads[i] == Thread(own, PlaceMarker)
    ensures !IsBehind(task, own, Run(task, Sequence(task), w, [Arrives(i, 0)]))
  {
    hide Sequence;
    RunOne(task, Sequence(task), w, Arrives(i, 0));
    hide Run, UpdateTx, UpdateOf;
    ArrivalMoves(task, w.db, w.threads[i], 0);
  }

  /** Exactly which updates of earlier runs are harmless: however the run goes, the record stays at
      or behind the tool if and only if none of those still under way in the same direction is
      for this tool. */
  lemma LeftoversAreHarmlessIff(task: Task, own: ToolId, w: World)
    requires Begins(task, own, w)
    ensures (forall events :: AllTolerated(task, events, own)
               ==> IsBehind(task, own, Run(task, Sequence(task), w, events)))
       <==> NoneNamed(w.threads, own)
  {
    hide Run, Sequence, AllTolerated, AtOrBehind;
    if NoneNamed(w.threads, own) {
      forall events | AllTolerated(task, events, own)
        ensures IsBehind(task, own, Run(task, Sequence(task), w, events))
      {
        RecordNeverAhead(task, own, w, events);
      }
    } else {
      var i :| 0 <= i < |w.threads| && w.threads[i].tool == own;
      MisledIsTolerated(task, own, w, i);
      LeftoverMisleads(task, own, w, i);
    }
  }
}
