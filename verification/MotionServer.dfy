/** The action server over every interleaving of its callbacks: action and service requests, the
    sequence that holds the lock, E-stop and its reset, and what is published of them. */
module MotionServer {
  import opened Wrappers

  // A `Watch` waits for a camera or a hand and looks at the latch while it waits.
  datatype StepKind = Sleep | Watch | Motion | HandApproach | Close | Open

  // Motion and grip commands a step sends.
  function Commands(kind: StepKind): nat {
    match kind
    case Sleep => 0
    case Watch => 0
    case HandApproach => 2
    case _ => 1
  }

  // Where a request's thread stands. `pc` is the step it is about to enter or is in, `left`
  // the commands that step has still to send.
  datatype Phase =
    | Accepted
    | Locked
    | AtHead(pc: nat)
    | InStep(pc: nat, left: nat)
    | Leaving(ok: bool)
    | Refused
    | Returned(ok: bool)

  // `grip` is there for the two handovers: whether the tool counts as gripped from the start.
  datatype Thread = Thread(steps: seq<StepKind>, grip: Option<bool>, phase: Phase)

  datatype PlcState = PlcIdle | PlcMoving | PlcError | PlcEStop

  // What a latch callback has still to publish; a reset remembers whether a tool was gripped.
  datatype Due = EStopDue | ResetDue(taken: bool)

  // What others see: the last messages on the two status topics, the grip flag, and the stop
  // requests sent to the arm.
  datatype Outside = Outside(moving: bool, plc: Option<PlcState>, taken: bool, due: Option<Due>, stops: nat)

  // `issued` is the history of commands, by thread.
  datatype Server =
    Server(latch: bool, holder: Option<nat>, threads: map<nat, Thread>, issued: seq<nat>, out: Outside)

  datatype Step =
    | Request(id: nat, steps: seq<StepKind>, grip: Option<bool>)
    | TryLock(id: nat)
    | Announce(id: nat)
    | Enter(id: nat)
    | Looks(id: nat)
    | SeesCancel(id: nat)
    | Issue(id: nat)
    | EndStep(id: nat, ok: bool)
    | Release(id: nat, cancelled: bool)
    | EStop
    | Reset
    | Report(ready: bool)

  function Init(): Server {
    Server(false, None, map[], [], Outside(false, None, false, None, 0))
  }

  predicate Is(s: Server, id: nat) {
    id in s.threads
  }

  function Set(s: Server, id: nat, phase: Phase): Server
    requires Is(s, id)
  {
    s.(threads := s.threads[id := s.threads[id].(phase := phase)])
  }

  // The thread is about to enter one of its steps.
  predicate AtStep(s: Server, id: nat) {
    Is(s, id) && s.threads[id].phase.AtHead? && s.threads[id].phase.pc < |s.threads[id].steps|
  }

  // The thread is in a step of this kind.
  predicate In(s: Server, id: nat, kind: StepKind) {
    && Is(s, id) && s.threads[id].phase.InStep? && s.threads[id].phase.pc < |s.threads[id].steps|
    && s.threads[id].steps[s.threads[id].phase.pc] == kind
  }

  predicate IsLeaving(s: Server, id: nat) {
    Is(s, id) && s.threads[id].phase.Leaving?
  }

  // The head of the loop of _run_sequence: it ends behind the last step without a look at the
  // latch, and looks at it before any other step.
  function LoopHead(t: Thread, latch: bool): Phase
    requires t.phase.AtHead?
  {
    if t.phase.pc >= |t.steps| then Leaving(true)
    else if latch then Leaving(false)
    else InStep(t.phase.pc, Commands(t.steps[t.phase.pc]))
  }

  // The grip flag after a step of a handover that went well.
  function Gripped(s: Server, id: nat): bool {
    if !Is(s, id) || s.threads[id].grip == None then s.out.taken
    else if In(s, id, Close) then true
    else if In(s, id, Open) then false
    else s.out.taken
  }

  // What is published before the first step.
  function Announced(out: Outside, t: Thread): Outside {
    out.(moving := true, plc := Some(PlcMoving), taken := if t.grip.Some? then t.grip.value else out.taken)
  }

  // What is published at the end of a request's callback: the outcome, unless the goal was
  // cancelled, and that the arm stands still; but a handover that leaves a tool gripped is an
  // error and stays announced as moving.
  function Closing(out: Outside, t: Thread, ok: bool, cancelled: bool): Outside {
    if t.grip.Some? && out.taken then out.(plc := Some(PlcError), taken := false)
    else
      out.(moving := false, plc := if cancelled then out.plc else Some(if ok then PlcIdle else PlcError))
  }

  // The second half of a latch callback: what it publishes, and the E-stop's request to the arm.
  function Reported(out: Outside, ready: bool): Outside {
    match out.due
    case None => out
    case Some(EStopDue) =>
      out.(moving := false, plc := Some(PlcEStop), stops := out.stops + (if ready then 1 else 0), due := None)
    case Some(ResetDue(true)) => out.(plc := Some(PlcError), due := None)
    case Some(ResetDue(false)) => out.(moving := false, plc := Some(PlcIdle), due := None)
  }

  /** One atomic step; a step that is not possible changes nothing. E-stop and reset are served
      one after the other, so neither begins while the other has still to publish. */
  function Next(s: Server, step: Step): Server {
    match step
    case Request(id, steps, grip) =>
      if Is(s, id) then s
      else s.(threads := s.threads[id := Thread(steps, grip, if s.latch then Refused else Accepted)])
    case TryLock(id) =>
      if Is(s, id) && s.threads[id].phase == Accepted then
        if s.holder == None then Set(s, id, Locked).(holder := Some(id)) else Set(s, id, Returned(false))
      else s
    case Announce(id) =>
      if Is(s, id) && s.threads[id].phase == Locked then
        Set(s, id, AtHead(0)).(out := Announced(s.out, s.threads[id]))
      else s
    case Enter(id) =>
      if Is(s, id) && s.threads[id].phase.AtHead? then Set(s, id, LoopHead(s.threads[id], s.latch)) else s
    case Looks(id) =>
      if In(s, id, Watch) && s.latch then Set(s, id, Leaving(false)) else s
    case SeesCancel(id) =>
      if AtStep(s, id) then Set(s, id, Leaving(false)) else s
    case Issue(id) =>
      if Is(s, id) && s.threads[id].phase.InStep? && s.threads[id].phase.left > 0 then
        var p := s.threads[id].phase;
        Set(s, id, InStep(p.pc, p.left - 1)).(issued := s.issued + [id])
      else s
    case EndStep(id, ok) =>
      if Is(s, id) && s.threads[id].phase.InStep? && (ok ==> s.threads[id].phase.left == 0) then
        if ok then Set(s, id, AtHead(s.threads[id].phase.pc + 1)).(out := s.out.(taken := Gripped(s, id)))
        else Set(s, id, Leaving(false))
      else s
    case Release(id, cancelled) =>
      if IsLeaving(s, id) then
        var ok := s.threads[id].phase.ok;
        Set(s, id, Returned(ok && !cancelled)).(
          holder := None, out := Closing(s.out, s.threads[id], ok, cancelled))
      else s
    case EStop => if s.out.due == None then s.(latch := true, out := s.out.(due := Some(EStopDue))) else s
    case Reset =>
      if s.out.due == None then
        s.(latch := false, out := s.out.(taken := false, due := Some(ResetDue(s.out.taken))))
      else s
    case Report(ready) => s.(out := Reported(s.out, ready))
  }

  function Run(s: Server, steps: seq<Step>): Server
    decreases |steps|
  {
    if steps == [] then s else Run(Next(s, steps[0]), steps[1..])
  }

  // ---------------------------------------------------------------- mutual exclusion

  predicate Critical(t: Thread) {
    t.phase.Locked? || t.phase.AtHead? || t.phase.InStep? || t.phase.Leaving?
  }

  predicate PhaseOk(t: Thread) {
    match t.phase
    case AtHead(pc) => pc <= |t.steps|
    case InStep(pc, left) => pc < |t.steps| && left <= Commands(t.steps[pc])
    case _ => true
  }

  ghost predicate Inv(s: Server) {
    && (forall id :: Is(s, id) ==> PhaseOk(s.threads[id]))
    && (forall id :: Is(s, id) ==> (Critical(s.threads[id]) <==> s.holder == Some(id)))
    && (s.holder.Some? ==> Is(s, s.holder.value))
  }

  // A thread's phase changes, and the lock goes where it says.
  lemma MoveKeeps(s: Server, t: Server, id: nat, phase: Phase)
    requires Inv(s) && Is(s, id) && PhaseOk(s.threads[id].(phase := phase))
    requires t.threads == Set(s, id, phase).threads
    requires Critical(s.threads[id].(phase := phase)) <==> t.holder == Some(id)
    requires t.holder == s.holder || s.holder == Some(id) || s.holder == None
    requires t.holder == s.holder || t.holder == Some(id) || t.holder == None
    ensures Inv(t)
  {
  }

  lemma NextKeeps(s: Server, step: Step)
    requires Inv(s)
    ensures Inv(Next(s, step))
  {
    hide Closing, Announced, Reported, Gripped;
    match step
    case TryLock(id) =>
      if Is(s, id) && s.threads[id].phase == Accepted {
        MoveKeeps(s, Next(s, step), id, if s.holder == None then Locked else Returned(false));
      }
    case Release(id, cancelled) =>
      if IsLeaving(s, id) {
        MoveKeeps(s, Next(s, step), id, Returned(s.threads[id].phase.ok && !cancelled));
      }
    case Request(_, _, _) =>
    case EStop =>
    case Reset =>
    case Report(_) =>
    case _ => LoopStepKeeps(s, step);
  }

  lemma LoopStepKeeps(s: Server, step: Step)
    requires Inv(s)
    requires step.Announce? || step.Enter? || step.Looks? || step.SeesCancel? || step.Issue? || step.EndStep?
    ensures Inv(Next(s, step))
  {
    var id := step.id;
    var t := Next(s, step);
    if Is(s, id) && t != s {
      assert PhaseOk(s.threads[id]) && Critical(s.threads[id]);
      MoveKeeps(s, t, id, t.threads[id].phase);
    }
  }

  lemma {:induction false} RunKeeps(s: Server, steps: seq<Step>)
    requires Inv(s)
    ensures Inv(Run(s, steps))
    decreases |steps|
  {
    hide Inv, Next;
    if steps != [] {
      NextKeeps(s, steps[0]);
      RunKeeps(Next(s, steps[0]), steps[1..]);
    }
  }

  /** At most one thread is between taking and giving back the lock, and only that one can send
      a command. */
  lemma OneSequenceAtATime(steps: seq<Step>, a: nat, b: nat)
    requires var s := Run(Init(), steps); Is(s, a) && Is(s, b) && Critical(s.threads[a]) && Critical(s.threads[b])
    ensures a == b
  {
    RunKeeps(Init(), steps);
  }

  predicate NoRelease(later: seq<Step>, a: nat) {
    forall i :: 0 <= i < |later| && later[i].Release? ==> later[i].id != a
  }

  /** Two commands in a row come from different threads only if the first has given the lock
      back in between. */
  lemma CommandsDoNotInterleave(steps: seq<Step>, later: seq<Step>, a: nat)
    requires var s := Run(Init(), steps); Is(s, a) && Critical(s.threads[a])
    requires NoRelease(later, a)
    ensures var s, t := Run(Init(), steps), Run(Run(Init(), steps), later);
            |s.issued| <= |t.issued| && forall i :: |s.issued| <= i < |t.issued| ==> t.issued[i] == a
  {
    RunKeeps(Init(), steps);
    HolderAlone(Run(Init(), steps), later, a);
  }

  lemma {:induction false} HolderAlone(s: Server, later: seq<Step>, a: nat)
    requires Inv(s) && Is(s, a) && Critical(s.threads[a])
    requires NoRelease(later, a)
    ensures var t := Run(s, later);
            s.issued <= t.issued && forall i :: |s.issued| <= i < |t.issued| ==> t.issued[i] == a
    decreases |later|
  {
    if later != [] {
      var t := Next(s, later[0]);
      NextKeeps(s, later[0]);
      HolderStep(s, later[0], a);
      hide Inv, Next;
      HolderAlone(t, later[1..], a);
    }
  }

  lemma HolderStep(s: Server, step: Step, a: nat)
    requires Inv(s) && Is(s, a) && Critical(s.threads[a])
    requires !(step.Release? && step.id == a)
    ensures var t := Next(s, step);
            && Is(t, a) && Critical(t.threads[a]) && s.issued <= t.issued
            && forall i :: |s.issued| <= i < |t.issued| ==> t.issued[i] == a
  {
  }

  // ---------------------------------------------------------------- E-stop

  // Commands the thread can still send without another look at the latch.
  function Pending(s: Server, id: nat): nat {
    if Is(s, id) && s.threads[id].phase.InStep? then s.threads[id].phase.left else 0
  }

  // The thread has nothing left but steps it has already entered, and they are its last.
  predicate Finishing(s: Server, id: nat) {
    Is(s, id) &&
    match s.threads[id].phase
    case AtHead(pc) => pc >= |s.threads[id].steps|
    case InStep(pc, _) => pc + 1 >= |s.threads[id].steps|
    case Leaving(ok) => ok
    case Returned(ok) => ok
    case Refused => false
    case _ => s.threads[id].steps == []
  }

  function CountOf(ids: seq<nat>, id: nat): nat {
    if ids == [] then 0 else CountOf(ids[..|ids| - 1], id) + (if ids[|ids| - 1] == id then 1 else 0)
  }

  lemma CountAppend(ids: seq<nat>, x: nat, id: nat)
    ensures CountOf(ids + [x], id) == CountOf(ids, id) + (if x == id then 1 else 0)
  {
    assert (ids + [x])[..|ids|] == ids;
  }

  // All the commands of the step the thread is in.
  function EnteredStep(s: Server, id: nat): nat {
    if Is(s, id) && s.threads[id].phase.InStep? && s.threads[id].phase.pc < |s.threads[id].steps| then
      Commands(s.threads[id].steps[s.threads[id].phase.pc])
    else 0
  }

  function HolderPending(s: Server): nat {
    if s.holder.Some? then Pending(s, s.holder.value) else 0
  }

  // One step under the latch: what a thread sends comes off what it had pending, and a thread
  // that was not finishing does not begin to.
  lemma LatchedStep(s: Server, step: Step, id: nat)
    requires s.latch && step != Reset
    ensures var t := Next(s, step);
            && t.latch
            && CountOf(t.issued, id) + Pending(t, id) <= CountOf(s.issued, id) + Pending(s, id)
            && (Finishing(t, id) ==> Finishing(s, id))
  {
    hide CountOf;
    if step.Issue? {
      LatchedIssue(s, step.id, id);
    } else if step.EStop? || step.Reset? || step.Report? || step.id != id {
      Untouched(s, step, id);
      hide Next;
    } else {
      hide Closing, Announced, Reported, Gripped;
    }
  }

  // A step of another thread, other than a command, leaves this one and the history alone.
  lemma Untouched(s: Server, step: Step, id: nat)
    requires !step.Issue? && (step.EStop? || step.Reset? || step.Report? || step.id != id)
    ensures var t := Next(s, step);
            && t.issued == s.issued && (Is(t, id) <==> Is(s, id)) && (Is(s, id) ==> t.threads[id] == s.threads[id])
            && (s.latch && step != Reset ==> t.latch)
  {
    hide Closing, Announced, Reported, Gripped;
  }

  lemma LatchedIssue(s: Server, who: nat, id: nat)
    ensures var t := Next(s, Issue(who));
            && t.latch == s.latch
            && CountOf(t.issued, id) + Pending(t, id) <= CountOf(s.issued, id) + Pending(s, id)
            && (Finishing(t, id) ==> Finishing(s, id))
  {
    CountAppend(s.issued, who, id);
  }

  lemma LatchedTotal(s: Server, step: Step)
    requires Inv(s) && s.latch && step != Reset
    ensures var t := Next(s, step); |t.issued| + HolderPending(t) <= |s.issued| + HolderPending(s)
  {
    hide Closing, Announced, Reported, Gripped;
  }

  lemma {:induction false} LatchedRun(s: Server, later: seq<Step>, id: nat)
    requires Inv(s) && s.latch && forall i :: 0 <= i < |later| ==> later[i] != Reset
    ensures var t := Run(s, later);
            && CountOf(t.issued, id) + Pending(t, id) <= CountOf(s.issued, id) + Pending(s, id)
            && |t.issued| + HolderPending(t) <= |s.issued| + HolderPending(s)
            && (Finishing(t, id) ==> Finishing(s, id))
    decreases |later|
  {
    hide Next, Inv, Finishing, Pending, HolderPending, CountOf;
    if later != [] {
      NextKeeps(s, later[0]);
      LatchedStep(s, later[0], id);
      LatchedTotal(s, later[0]);
      LatchedRun(Next(s, later[0]), later[1..], id);
    }
  }

  /** Once the latch is set and not reset, in every interleaving: a thread sends no more than its
      entered step has left, at most one command for a plain step and two for the hand approach;
      all threads together send no more than that one step; a thread not inside a step, and so
      every new one, sends nothing; and a call returns true only if at the latch it was already
      in or behind its last step. */
  lemma EStopStops(steps: seq<Step>, later: seq<Step>, id: nat)
    requires Run(Init(), steps).latch && forall i :: 0 <= i < |later| ==> later[i] != Reset
    ensures var s, t := Run(Init(), steps), Run(Run(Init(), steps), later);
            && CountOf(t.issued, id) <= CountOf(s.issued, id) + Pending(s, id)
            && |t.issued| <= |s.issued| + HolderPending(s)
            && Pending(s, id) <= EnteredStep(s, id)
            && (Is(t, id) && t.threads[id].phase == Returned(true) ==> Finishing(s, id))
  {
    RunKeeps(Init(), steps);
    LatchedRun(Run(Init(), steps), later, id);
    hide Run;
  }

  // ---------------------------------------------------------------- runs, step by step

  lemma {:induction false} RunSplits(s: Server, first: seq<Step>, second: seq<Step>)
    ensures Run(s, first + second) == Run(Run(s, first), second)
    decreases |first|
  {
    hide Next;
    if first == [] {
      assert first + second == second;
    } else {
      assert (first + second)[1..] == first[1..] + second;
      RunSplits(Next(s, first[0]), first[1..], second);
    }
  }

  lemma RunOne(s: Server, a: Step)
    ensures Run(s, [a]) == Next(s, a)
  {
    hide Next;
    assert [a][1..] == [];
  }

  lemma RunTwo(s: Server, a: Step, b: Step)
    ensures Run(s, [a, b]) == Next(Next(s, a), b)
  {
    hide Next;
    assert [a, b][1..] == [b];
    assert [b][1..] == [] && Run(Next(s, a), [b]) == Next(Next(s, a), b);
  }

  lemma RunFour(s: Server, a: Step, b: Step, c: Step, d: Step)
    ensures Run(s, [a, b, c, d]) == Next(Next(Next(Next(s, a), b), c), d)
  {
    hide Next;
    RunTwo(s, a, b);
    RunTwo(Next(Next(s, a), b), c, d);
    RunSplits(s, [a, b], [c, d]);
    assert [a, b, c, d] == [a, b] + [c, d];
  }

  // One step further along a run.
  lemma RunTo(s: Server, later: seq<Step>, k: nat)
    requires k < |later|
    ensures Run(s, later[..k + 1]) == Next(Run(s, later[..k]), later[k])
  {
    hide Next;
    assert later[..k + 1] == later[..k] + [later[k]];
    RunSplits(s, later[..k], [later[k]]);
    assert [later[k]][1..] == [];
  }

  // ---------------------------------------------------------------- what stops a sequence

  // The event makes the thread give up: it looks at the latch while that is set, sees a cancel,
  // or the step it is in fails, be it because the arm was stopped.
  predicate Stops(s: Server, step: Step, id: nat) {
    match step
    case Enter(a) => a == id && AtStep(s, id) && s.latch
    case Looks(a) => a == id && In(s, id, Watch) && s.latch
    case SeesCancel(a) => a == id && AtStep(s, id)
    case EndStep(a, ok) => a == id && Is(s, id) && s.threads[id].phase.InStep? && !ok
    case _ => false
  }

  // The thread is at work on its steps, or has given up.
  predicate AtWork(s: Server, id: nat, gaveUp: bool) {
    Is(s, id) && Critical(s.threads[id]) && (s.threads[id].phase == Leaving(false) <==> gaveUp)
  }

  lemma StopStep(s: Server, step: Step, id: nat, gaveUp: bool)
    requires AtWork(s, id, gaveUp) && !(step.Release? && step.id == id)
    ensures AtWork(Next(s, step), id, gaveUp || Stops(s, step, id))
  {
    hide Closing, Announced, Reported, Gripped;
  }

  /** A sequence gives up exactly if some event of its run stops it. In particular an E-stop
      between two looks at the latch, reset before the second, does so only through the failure
      of the step it falls into. */
  lemma {:induction false} GivesUpIff(s: Server, later: seq<Step>, id: nat)
    requires AtWork(s, id, false) && NoRelease(later, id)
    ensures AtWork(Run(s, later), id, exists i :: 0 <= i < |later| && Stops(Run(s, later[..i]), later[i], id))
    decreases |later|
  {
    hide Next, AtWork, Stops;
    if later != [] {
      var n := |later| - 1;
      var before := later[..n];
      GivesUpIff(s, before, id);
      RunTo(s, later, n);
      assert later[..n + 1] == later;
      forall i | 0 <= i < n ensures before[..i] == later[..i] && before[i] == later[i] {
      }
      var gaveUp := exists i :: 0 <= i < |before| && Stops(Run(s, before[..i]), before[i], id);
      StopStep(Run(s, before), later[n], id, gaveUp);
      if gaveUp {
        var i :| 0 <= i < |before| && Stops(Run(s, before[..i]), before[i], id);
        assert Stops(Run(s, later[..i]), later[i], id);
      }
    }
  }

  /** From the moment the lock is taken to the moment it is given back: a call succeeds exactly
      if its sequence got behind its last step, no event of the run stopped it, and the goal was
      not cancelled at the very end. */
  lemma SucceedsIff(s: Server, later: seq<Step>, id: nat, cancelled: bool)
    requires AtWork(s, id, false) && NoRelease(later, id) && IsLeaving(Run(s, later), id)
    ensures var t := Run(s, later + [Release(id, cancelled)]);
            && Is(t, id)
            && (t.threads[id].phase == Returned(true)
                <==> !cancelled && forall i :: 0 <= i < |later| ==> !Stops(Run(s, later[..i]), later[i], id))
  {
    hide Stops;
    GivesUpIff(s, later, id);
    var whole := later + [Release(id, cancelled)];
    RunTo(s, whole, |later|);
    assert whole[..|later|] == later && whole[..|whole|] == whole;
    hide Closing, Run;
  }

  /** And what the PLC is told: an error if the tool is still gripped, nothing new if the goal was
      cancelled, and else idle exactly if nothing stopped the sequence. */
  lemma OutcomeIsPublished(s: Server, later: seq<Step>, id: nat, cancelled: bool)
    requires AtWork(s, id, false) && NoRelease(later, id) && IsLeaving(Run(s, later), id)
    ensures var t := Run(s, later);
            Next(t, Release(id, cancelled)).out.plc ==
              if t.threads[id].grip.Some? && t.out.taken then Some(PlcError)
              else if cancelled then t.out.plc
              else if forall i :: 0 <= i < |later| ==> !Stops(Run(s, later[..i]), later[i], id) then Some(PlcIdle)
              else Some(PlcError)
  {
    GivesUpIff(s, later, id);
    hide Stops, Run;
  }

  // The step publishes a state of the PLC.
  predicate Speaks(s: Server, step: Step) {
    match step
    case Announce(id) => Is(s, id) && s.threads[id].phase == Locked
    case Release(id, cancelled) => IsLeaving(s, id) && (!cancelled || (s.threads[id].grip.Some? && s.out.taken))
    case Report(_) => s.out.due.Some?
    case _ => false
  }

  lemma QuietStepKeepsPlc(s: Server, step: Step)
    requires !Speaks(s, step)
    ensures Next(s, step).out.plc == s.out.plc && Next(s, step).out.stops == s.out.stops
  {
    hide Gripped;
  }

  /** What an E-stop and a reset show the PLC, and for how long: E-stop, or error if a tool was
      gripped at the reset and idle if not, until something else publishes; and an E-stop sends one
      stop request if the arm's service is ready. */
  lemma {:induction false} LatchIsShown(s: Server, ready: bool, later: seq<Step>)
    requires s.out.due.Some?
    requires forall i :: 0 <= i < |later| ==> !Speaks(Run(Next(s, Report(ready)), later[..i]), later[i])
    ensures var out := Run(Next(s, Report(ready)), later).out;
            && out.plc == (if s.out.due == Some(EStopDue) then Some(PlcEStop)
                           else if s.out.due == Some(ResetDue(true)) then Some(PlcError) else Some(PlcIdle))
            && out.stops == s.out.stops + (if s.out.due == Some(EStopDue) && ready then 1 else 0)
    decreases |later|
  {
    if later != [] {
      var t, n := Next(s, Report(ready)), |later| - 1;
      var before := later[..n];
      hide Next, Speaks;
      RunTo(t, later, n);
      assert later[..n + 1] == later;
      forall i | 0 <= i < n ensures before[..i] == later[..i] && before[i] == later[i] {
      }
      LatchIsShown(s, ready, before);
      QuietStepKeepsPlc(Run(t, before), later[n]);
    }
  }

  /** A request that comes in under the latch is refused for good. */
  lemma {:induction false} RefusedForGood(s: Server, id: nat, steps: seq<StepKind>, grip: Option<bool>,
                                          later: seq<Step>)
    requires s.latch && !Is(s, id)
    ensures var t := Run(Next(s, Request(id, steps, grip)), later); Is(t, id) && t.threads[id].phase == Refused
    decreases |later|
  {
    if later != [] {
      var first, n := Next(s, Request(id, steps, grip)), |later| - 1;
      RunTo(first, later, n);
      assert later[..n + 1] == later;
      RefusedForGood(s, id, steps, grip, later[..n]);
      hide Run, Next;
      RefusedStays(Run(first, later[..n]), later[n], id);
    }
  }

  lemma RefusedStays(s: Server, step: Step, id: nat)
    requires Is(s, id) && s.threads[id].phase == Refused
    ensures Is(Next(s, step), id) && Next(s, step).threads[id].phase == Refused
  {
    hide Closing, Announced, Reported, Gripped;
  }

  // ---------------------------------------------------------------- E-stops nobody sees

  predicate IsLatchStep(step: Step) {
    step.EStop? || step.Reset? || step.Report?
  }

  // The run without its E-stops and resets.
  function Quiet(steps: seq<Step>): seq<Step> {
    if steps == [] then []
    else
      var last := steps[|steps| - 1];
      Quiet(steps[..|steps| - 1]) + (if IsLatchStep(last) then [] else [last])
  }

  // Some callback looks at the latch and finds it set.
  predicate Meets(s: Server, step: Step) {
    && s.latch
    && match step
       case Request(id, _, _) => !Is(s, id)
       case Enter(id) => AtStep(s, id)
       case Looks(id) => In(s, id, Watch)
       case _ => false
  }

  // Lock, requests with their progress, and the commands sent are the same.
  predicate SameWork(s: Server, t: Server) {
    s.holder == t.holder && s.threads == t.threads && s.issued == t.issued
  }

  lemma SameAsItself(s: Server)
    ensures SameWork(s, s)
  {
  }

  lemma QuietStep(s: Server, quiet: Server, step: Step)
    requires SameWork(s, quiet) && !quiet.latch
    ensures IsLatchStep(step) ==> SameWork(Next(s, step), quiet) && !Meets(s, step)
    ensures !IsLatchStep(step) ==>
              && !Next(quiet, step).latch
              && (SameWork(Next(s, step), Next(quiet, step)) <==> !Meets(s, step))
  {
    hide Closing, Announced, Reported, Gripped;
    if Meets(s, step) {
      assert Next(s, step).threads[step.id] != Next(quiet, step).threads[step.id];
    }
  }

  lemma QuietTo(s: Server, later: seq<Step>, k: nat)
    requires k < |later|
    ensures var t := Run(s, Quiet(later[..k]));
            Run(s, Quiet(later[..k + 1])) == if IsLatchStep(later[k]) then t else Next(t, later[k])
  {
    hide Next;
    assert later[..k + 1][..k] == later[..k];
    if IsLatchStep(later[k]) {
      assert Quiet(later[..k]) + [] == Quiet(later[..k]);
    } else {
      var quiet := Quiet(later[..k]) + [later[k]];
      RunTo(s, quiet, |quiet| - 1);
      assert quiet[..|quiet|] == quiet && quiet[..|quiet| - 1] == Quiet(later[..k]);
    }
  }

  lemma {:induction false} QuietRun(s: Server, later: seq<Step>, k: nat)
    requires !s.latch && k <= |later|
    requires forall i :: 0 <= i < k ==> !Meets(Run(s, later[..i]), later[i])
    ensures SameWork(Run(s, later[..k]), Run(s, Quiet(later[..k]))) && !Run(s, Quiet(later[..k])).latch
  {
    hide Next, Meets, SameWork;
    if k == 0 {
      assert later[..0] == [];
      SameAsItself(s);
    } else {
      QuietRun(s, later, k - 1);
      RunTo(s, later, k - 1);
      QuietTo(s, later, k - 1);
      QuietStep(Run(s, later[..k - 1]), Run(s, Quiet(later[..k - 1])), later[k - 1]);
    }
  }

  /** E-stops and resets leave the work exactly as it would have been without them, at every
      moment of the run, if and only if no callback looks at the latch while it is set: no new
      request, no sequence in front of a step, no step that watches the latch while it waits. */
  lemma EStopIsUnseenIff(s: Server, later: seq<Step>)
    requires !s.latch
    ensures (forall k :: 0 <= k <= |later| ==> SameWork(Run(s, later[..k]), Run(s, Quiet(later[..k]))))
       <==> (forall k :: 0 <= k < |later| ==> !Meets(Run(s, later[..k]), later[k]))
  {
    hide Next, Meets, SameWork;
    if forall k :: 0 <= k < |later| ==> !Meets(Run(s, later[..k]), later[k]) {
      forall k | 0 <= k <= |later| ensures SameWork(Run(s, later[..k]), Run(s, Quiet(later[..k]))) {
        QuietRun(s, later, k);
      }
    } else {
      FirstLook(s, later, |later|);
    }
  }

  // Behind the first look the two runs differ.
  lemma {:induction false} FirstLook(s: Server, later: seq<Step>, n: nat)
    requires !s.latch && n <= |later|
    requires exists k :: 0 <= k < n && Meets(Run(s, later[..k]), later[k])
    ensures exists k :: 0 <= k <= |later| && !SameWork(Run(s, later[..k]), Run(s, Quiet(later[..k])))
  {
    hide Next, Meets, SameWork;
    if exists k :: 0 <= k < n - 1 && Meets(Run(s, later[..k]), later[k]) {
      FirstLook(s, later, n - 1);
    } else {
      var k := n - 1;
      QuietRun(s, later, k);
      RunTo(s, later, k);
      QuietTo(s, later, k);
      QuietStep(Run(s, later[..k]), Run(s, Quiet(later[..k])), later[k]);
      assert !SameWork(Run(s, later[..n]), Run(s, Quiet(later[..n])));
    }
  }

  // ---------------------------------------------------------------- what is published

  // The event publishes that the arm stands still although a sequence may be running.
  predicate Clears(s: Server, step: Step) {
    step.Report? && (s.out.due == Some(EStopDue) || s.out.due == Some(ResetDue(false)))
  }

  lemma ClearStep(s: Server, step: Step, id: nat)
    requires Inv(s) && Is(s, id) && Critical(s.threads[id]) && s.threads[id].phase != Locked
    requires !(step.Release? && step.id == id)
    ensures var t := Next(s, step);
            && Is(t, id) && Critical(t.threads[id]) && t.threads[id].phase != Locked
            && t.threads[id].grip == s.threads[id].grip
            && t.out.moving == (s.out.moving && !Clears(s, step))
  {
    hide Gripped;
  }

  lemma {:induction false} PublishedFrom(s: Server, later: seq<Step>, id: nat)
    requires Inv(s) && Is(s, id) && s.threads[id].phase == AtHead(0) && s.out.moving && NoRelease(later, id)
    ensures var t := Run(s, later);
            && Inv(t) && Is(t, id) && Critical(t.threads[id]) && t.threads[id].phase != Locked
            && t.threads[id].grip == s.threads[id].grip
            && (t.out.moving <==> forall i :: 0 <= i < |later| ==> !Clears(Run(s, later[..i]), later[i]))
    decreases |later|
  {
    hide Next, Clears, Inv;
    if later != [] {
      var n := |later| - 1;
      var before := later[..n];
      PublishedFrom(s, before, id);
      RunTo(s, later, n);
      assert later[..n + 1] == later;
      forall i | 0 <= i < n ensures before[..i] == later[..i] && before[i] == later[i] {
      }
      NextKeeps(Run(s, before), later[n]);
      ClearStep(Run(s, before), later[n], id);
    }
  }

  lemma AnnounceBegins(steps: seq<Step>, id: nat)
    requires var s := Run(Init(), steps); Is(s, id) && s.threads[id].phase == Locked
    ensures var s := Next(Run(Init(), steps), Announce(id));
            && Inv(s) && Is(s, id) && s.threads[id].phase == AtHead(0) && s.out.moving
            && s.threads[id].grip == Run(Init(), steps).threads[id].grip
            && (s.threads[id].grip.Some? ==> s.out.taken == s.threads[id].grip.value)
  {
    RunKeeps(Init(), steps);
    hide Run;
    NextKeeps(Run(Init(), steps), Announce(id));
    hide Inv;
  }

  /** While a sequence runs, the arm is published as moving exactly if neither an E-stop nor a
      reset without a gripped tool has published since the start. */
  lemma MovingIsPublishedIff(steps: seq<Step>, later: seq<Step>, id: nat)
    requires var s := Run(Init(), steps); Is(s, id) && s.threads[id].phase == Locked
    requires NoRelease(later, id)
    ensures var s := Next(Run(Init(), steps), Announce(id));
            Run(s, later).out.moving <==> forall i :: 0 <= i < |later| ==> !Clears(Run(s, later[..i]), later[i])
  {
    AnnounceBegins(steps, id);
    hide Inv, Next, Run, Clears;
    PublishedFrom(Next(Run(Init(), steps), Announce(id)), later, id);
  }

  // The fingers close on, or let go of, the tool, or a reset clears the flag.
  predicate Takes(s: Server, step: Step, id: nat) {
    step == EndStep(id, true) && In(s, id, Close) && s.threads[id].phase.left == 0
  }

  predicate Drops(s: Server, step: Step, id: nat) {
    || (step == EndStep(id, true) && In(s, id, Open) && s.threads[id].phase.left == 0)
    || (step == Reset && s.out.due == None)
  }

  // The tool was gripped at the start, or by the step before the i-th.
  predicate TakenBefore(s: Server, later: seq<Step>, id: nat, i: nat)
    requires i <= |later|
  {
    if i == 0 then s.out.taken else Takes(Run(s, later[..i - 1]), later[i - 1], id)
  }

  predicate KeptFrom(s: Server, later: seq<Step>, id: nat, i: nat)
    requires i <= |later|
  {
    forall j :: i <= j < |later| ==> !Drops(Run(s, later[..j]), later[j], id)
  }

  // The tool was gripped at some moment and neither let go of nor cleared since.
  predicate Held(s: Server, later: seq<Step>, id: nat) {
    exists i: nat :: i <= |later| && TakenBefore(s, later, id, i) && KeptFrom(s, later, id, i)
  }

  lemma GripStep(s: Server, step: Step, id: nat)
    requires Inv(s) && Is(s, id) && Critical(s.threads[id]) && s.threads[id].phase != Locked
    requires s.threads[id].grip.Some? && !(step.Release? && step.id == id)
    ensures Next(s, step).out.taken == (Takes(s, step, id) || (s.out.taken && !Drops(s, step, id)))
  {
  }

  lemma HeldGrows(s: Server, before: seq<Step>, last: Step, id: nat)
    ensures Held(s, before + [last], id)
       <==> Takes(Run(s, before), last, id) || (Held(s, before, id) && !Drops(Run(s, before), last, id))
  {
    hide Takes, Drops, Run;
    var n, later := |before|, before + [last];
    assert later[..n] == before && later[n] == last;
    forall i | 0 <= i < n ensures later[..i] == before[..i] && later[i] == before[i] {
    }
    assert TakenBefore(s, later, id, n + 1) <==> Takes(Run(s, before), last, id);
    forall i: nat | i <= n
      ensures TakenBefore(s, later, id, i) == TakenBefore(s, before, id, i)
      ensures KeptFrom(s, later, id, i) == (KeptFrom(s, before, id, i) && !Drops(Run(s, before), last, id))
    {
    }
    if Held(s, before, id) && !Drops(Run(s, before), last, id) {
      var i: nat :| i <= |before| && TakenBefore(s, before, id, i) && KeptFrom(s, before, id, i);
      assert TakenBefore(s, later, id, i) && KeptFrom(s, later, id, i);
    }
  }

  lemma {:induction false} HeldFrom(s: Server, later: seq<Step>, id: nat)
    requires Inv(s) && Is(s, id) && s.threads[id].phase == AtHead(0) && s.out.moving && NoRelease(later, id)
    requires s.threads[id].grip.Some?
    ensures Run(s, later).out.taken <==> Held(s, later, id)
    decreases |later|
  {
    hide Next, Inv, Takes, Drops;
    if later == [] {
      assert TakenBefore(s, later, id, 0) <==> s.out.taken;
      assert KeptFrom(s, later, id, 0);
    } else {
      var n := |later| - 1;
      var before := later[..n];
      HeldFrom(s, before, id);
      PublishedFrom(s, before, id);
      RunTo(s, later, n);
      assert later[..n + 1] == later && before + [later[n]] == later;
      GripStep(Run(s, before), later[n], id);
      HeldGrows(s, before, later[n], id);
    }
  }

  lemma ReleasePublishes(s: Server, id: nat, cancelled: bool)
    requires IsLeaving(s, id) && s.threads[id].grip.Some?
    ensures Next(s, Release(id, cancelled)).out.moving <==> s.out.moving && s.out.taken
  {
  }

  /** A handover that is over leaves the arm announced as moving, which keeps voice commands out
      until the operator resets, exactly if the tool was gripped and not let go of since, no
      reset came after the grip, and no E-stop published anything during the handover. */
  lemma StaysBlockedIff(steps: seq<Step>, later: seq<Step>, id: nat, cancelled: bool)
    requires var s := Run(Init(), steps); Is(s, id) && s.threads[id].phase == Locked && s.threads[id].grip.Some?
    requires NoRelease(later, id) && IsLeaving(Run(Next(Run(Init(), steps), Announce(id)), later), id)
    ensures var s := Next(Run(Init(), steps), Announce(id));
            && (Next(Run(s, later), Release(id, cancelled)).out.moving
                <==> Held(s, later, id) && forall i :: 0 <= i < |later| ==> !Clears(Run(s, later[..i]), later[i]))
  {
    AnnounceBegins(steps, id);
    hide Inv, Run, Next, Clears, Held;
    var s := Next(Run(Init(), steps), Announce(id));
    PublishedFrom(s, later, id);
    HeldFrom(s, later, id);
    ReleasePublishes(Run(s, later), id, cancelled);
  }

  // ---------------------------------------------------------------- runs that show the bounds

  // A request that has the lock and the floor.
  function Started(id: nat, steps: seq<StepKind>, grip: Option<bool>): seq<Step> {
    [Request(id, steps, grip), TryLock(id)] + [Announce(id), Enter(id)]
  }

  // The state of the only request: where it is, the latch, the history and what is published.
  function Alone(id: nat, steps: seq<StepKind>, grip: Option<bool>, phase: Phase, latch: bool, issued: seq<nat>,
                 out: Outside): Server {
    Server(latch, Some(id), map[id := Thread(steps, grip, phase)], issued, out)
  }

  lemma StartedRuns(id: nat, steps: seq<StepKind>, grip: Option<bool>)
    requires |steps| > 0
    ensures Run(Init(), Started(id, steps, grip))
         == Alone(id, steps, grip, InStep(0, Commands(steps[0])), false, [],
                  Outside(true, Some(PlcMoving), grip == Some(true), None, 0))
  {
    var a, b := [Request(id, steps, grip), TryLock(id)], [Announce(id), Enter(id)];
    RunTwo(Init(), a[0], a[1]);
    RunSplits(Init(), a, b);
    RunTwo(Run(Init(), a), b[0], b[1]);
    hide Run;
    assert Run(Init(), a) == Alone(id, steps, grip, Locked, false, [], Init().out);
  }

  // What the only request does next.
  lemma AloneIssues(id: nat, steps: seq<StepKind>, grip: Option<bool>, latch: bool, issued: seq<nat>, out: Outside,
                    pc: nat, left: nat)
    ensures Next(Alone(id, steps, grip, InStep(pc, left + 1), latch, issued, out), Issue(id))
         == Alone(id, steps, grip, InStep(pc, left), latch, issued + [id], out)
  {
  }

  lemma AloneEnds(id: nat, steps: seq<StepKind>, grip: Option<bool>, latch: bool, issued: seq<nat>, out: Outside,
                  pc: nat)
    requires pc < |steps| && steps[pc] != Open && steps[pc] != Close
    ensures Next(Alone(id, steps, grip, InStep(pc, 0), latch, issued, out), EndStep(id, true))
         == Alone(id, steps, grip, AtHead(pc + 1), latch, issued, out)
  {
  }

  lemma AloneEnters(id: nat, steps: seq<StepKind>, grip: Option<bool>, latch: bool, issued: seq<nat>, out: Outside,
                    pc: nat)
    ensures Next(Alone(id, steps, grip, AtHead(pc), latch, issued, out), Enter(id))
         == Alone(id, steps, grip, LoopHead(Thread(steps, grip, AtHead(pc)), latch), latch, issued, out)
  {
  }

  // An E-stop, and one that is reset.
  lemma AloneEStop(id: nat, steps: seq<StepKind>, grip: Option<bool>, phase: Phase, issued: seq<nat>, out: Outside)
    requires out.due == None
    ensures var s := Alone(id, steps, grip, phase, false, issued, out);
            && Next(s, EStop) == s.(latch := true, out := out.(due := Some(EStopDue)))
            && Next(Next(s, EStop), Report(true))
               == s.(latch := true, out := out.(moving := false, plc := Some(PlcEStop), stops := out.stops + 1))
            && (!out.taken ==>
                 Next(Next(Next(Next(s, EStop), Report(true)), Reset), Report(true))
                 == s.(out := out.(moving := false, plc := Some(PlcIdle), stops := out.stops + 1)))
  {
    var s := Alone(id, steps, grip, phase, false, issued, out);
    assert Next(Next(s, EStop), Report(true)).out.due == None;
  }

  // The handover of a tool that is already gripped.
  const PlaceOnlySeq := [Watch, HandApproach, Motion, Open]

  /** The bound of two commands is reached: an E-stop right after the hand approach is entered
      holds back neither of its two moves. */
  lemma HandApproachSendsTwo(id: nat)
    ensures exists steps: seq<Step> :: SendsTwo(Run(Init(), steps), id)
  {
    var kinds, grip, more := PlaceOnlySeq, Some(true), [EndStep(id, true), Enter(id)];
    var out := Outside(true, Some(PlcMoving), true, None, 0);
    StartedRuns(id, kinds, grip);
    RunTwo(Run(Init(), Started(id, kinds, grip)), more[0], more[1]);
    RunSplits(Init(), Started(id, kinds, grip), more);
    RunOne(Run(Init(), Started(id, kinds, grip) + more), EStop);
    RunSplits(Init(), Started(id, kinds, grip) + more, [EStop]);
    AloneEnds(id, kinds, grip, false, [], out, 0);
    AloneEnters(id, kinds, grip, false, [], out, 1);
    AloneEStop(id, kinds, grip, InStep(1, 2), [], out);
    hide Run, Next, SendsTwo;
    SendsTwoFrom(id, out.(due := Some(EStopDue)));
    assert SendsTwo(Run(Init(), Started(id, kinds, grip) + more + [EStop]), id);
  }

  // The latch is set in a step with two commands, and both are sent.
  predicate SendsTwo(s: Server, id: nat) {
    s.latch && EnteredStep(s, id) == 2 && Run(s, [Issue(id), Issue(id)]).issued == s.issued + [id] + [id]
  }

  lemma SendsTwoFrom(id: nat, out: Outside)
    ensures SendsTwo(Alone(id, PlaceOnlySeq, Some(true), InStep(1, 2), true, [], out), id)
  {
    var s := Alone(id, PlaceOnlySeq, Some(true), InStep(1, 2), true, [], out);
    RunTwo(s, Issue(id), Issue(id));
    AloneIssues(id, PlaceOnlySeq, Some(true), true, [], out, 1, 1);
    AloneIssues(id, PlaceOnlySeq, Some(true), true, [id], out, 1, 0);
    hide Run, Next;
    assert [] + [id] == [id];
  }

  /** A call can return true although the latch was set before its last command was sent. */
  lemma LastStepReturnsTrue(id: nat)
    ensures exists steps: seq<Step> :: ReturnsTrue(Run(Init(), steps), id)
  {
    var kinds, out := [Motion], Outside(true, Some(PlcMoving), false, None, 0);
    StartedRuns(id, kinds, None);
    RunOne(Run(Init(), Started(id, kinds, None)), EStop);
    RunSplits(Init(), Started(id, kinds, None), [EStop]);
    AloneEStop(id, kinds, None, InStep(0, 1), [], out);
    hide Run, Next, ReturnsTrue;
    ReturnsTrueFrom(id, out.(due := Some(EStopDue)));
    assert ReturnsTrue(Run(Init(), Started(id, kinds, None) + [EStop]), id);
  }

  // The latch is set, no command has been sent, and one is sent before the call returns true.
  predicate ReturnsTrue(s: Server, id: nat) {
    && s.latch && s.issued == []
    && var t := Run(s, [Issue(id), EndStep(id, true), Enter(id), Release(id, false)]);
       t.latch && t.issued == [id] && Is(t, id) && t.threads[id].phase == Returned(true)
  }

  lemma ReturnsTrueFrom(id: nat, out: Outside)
    ensures ReturnsTrue(Alone(id, [Motion], None, InStep(0, 1), true, [], out), id)
  {
    hide Run, Next;
    var s := Alone(id, [Motion], None, InStep(0, 1), true, [], out);
    RunFour(s, Issue(id), EndStep(id, true), Enter(id), Release(id, false));
    AloneIssues(id, [Motion], None, true, [], out, 0, 0);
    assert [] + [id] == [id];
    AloneEnds(id, [Motion], None, true, [id], out, 0);
    AloneEnters(id, [Motion], None, true, [id], out, 1);
    AloneReturns(id, [Motion], true, [id], out);
  }

  lemma AloneReturns(id: nat, steps: seq<StepKind>, latch: bool, issued: seq<nat>, out: Outside)
    ensures var t := Next(Alone(id, steps, None, Leaving(true), latch, issued, out), Release(id, false));
            && t.latch == latch && t.issued == issued && Is(t, id) && t.threads[id].phase == Returned(true)
  {
  }

  /** An unseen E-stop is not without effect: after it and its reset the stop request is sent, the
      arm is published as standing still and the PLC as idle, and yet the sequence sends its
      commands and gets behind its last step. */
  lemma CommandsWhileIdle(id: nat)
    ensures exists steps: seq<Step> :: MovesWhileIdle(Run(Init(), steps), id)
  {
    var kinds, stop := [Motion, Motion], [EStop, Report(true), Reset, Report(true)];
    StartedRuns(id, kinds, None);
    RunSplits(Init(), Started(id, kinds, None), stop);
    RunFour(Run(Init(), Started(id, kinds, None)), stop[0], stop[1], stop[2], stop[3]);
    AloneEStop(id, kinds, None, InStep(0, 1), [], Outside(true, Some(PlcMoving), false, None, 0));
    hide Run, Next, MovesWhileIdle;
    MovesWhileIdleFrom(id, Outside(false, Some(PlcIdle), false, None, 1));
    assert MovesWhileIdle(Run(Init(), Started(id, kinds, None) + stop), id);
  }

  // Stopped once, published as idle, and two commands are still sent before the sequence is done.
  predicate MovesWhileIdle(s: Server, id: nat) {
    && !s.latch && !s.out.moving && s.out.plc == Some(PlcIdle) && s.out.stops == 1 && s.issued == []
    && var t := Run(s, [Issue(id), EndStep(id, true), Enter(id), Issue(id)]);
       var u := Run(t, [EndStep(id, true), Enter(id)]);
       t.out == s.out && t.issued == [id, id] && Is(u, id) && u.threads[id].phase == Leaving(true)
  }

  lemma MovesWhileIdleFrom(id: nat, out: Outside)
    requires out == Outside(false, Some(PlcIdle), false, None, 1)
    ensures MovesWhileIdle(Alone(id, [Motion, Motion], None, InStep(0, 1), false, [], out), id)
  {
    hide Run, Next;
    var kinds := [Motion, Motion];
    var s := Alone(id, kinds, None, InStep(0, 1), false, [], out);
    RunFour(s, Issue(id), EndStep(id, true), Enter(id), Issue(id));
    RunTwo(Run(s, [Issue(id), EndStep(id, true), Enter(id), Issue(id)]), EndStep(id, true), Enter(id));
    AloneIssues(id, kinds, None, false, [], out, 0, 0);
    assert [] + [id] == [id] && [id] + [id] == [id, id];
    AloneEnds(id, kinds, None, false, [id], out, 0);
    AloneEnters(id, kinds, None, false, [id], out, 1);
    AloneIssues(id, kinds, None, false, [id], out, 1, 0);
    AloneEnds(id, kinds, None, false, [id, id], out, 1);
    AloneEnters(id, kinds, None, false, [id, id], out, 2);
  }

  /** And an E-stop takes the block off: a handover it aborts with the tool in the fingers leaves
      the arm published as standing still, with no reset by anybody. */
  lemma EStopUnblocks(id: nat)
    ensures exists steps: seq<Step> :: Reset !in steps && LeavesUnblocked(Run(Init(), steps), id)
  {
    var kinds, grip, stop := PlaceOnlySeq, Some(true), [EStop, Report(true), Looks(id), Report(true)];
    StartedRuns(id, kinds, grip);
    RunSplits(Init(), Started(id, kinds, grip), stop);
    RunFour(Run(Init(), Started(id, kinds, grip)), stop[0], stop[1], stop[2], stop[3]);
    AloneEStop(id, kinds, grip, InStep(0, 0), [], Outside(true, Some(PlcMoving), true, None, 0));
    hide Run, Next, LeavesUnblocked;
    Abandoned(id, Outside(false, Some(PlcEStop), true, None, 1));
    assert LeavesUnblocked(Run(Init(), Started(id, kinds, grip) + stop), id);
  }

  lemma Abandoned(id: nat, out: Outside)
    requires !out.moving && out.taken && out.due == None
    ensures var s := Alone(id, PlaceOnlySeq, Some(true), InStep(0, 0), true, [], out);
            LeavesUnblocked(Next(Next(s, Looks(id)), Report(true)), id)
  {
    hide Announced;
  }

  // A handover about to give back the lock with a gripped tool, and the arm published as still.
  predicate LeavesUnblocked(s: Server, id: nat) {
    s.out.taken && IsLeaving(s, id) && s.threads[id].grip.Some? && !Next(s, Release(id, false)).out.moving
  }
}
