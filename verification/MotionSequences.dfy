/** Step sequences, the executor that runs them, and what the steps do to the arm and the tool.
    Waypoints are names: two of them are the same place only if they are the same name. */
module MotionSequences {
  import opened Wrappers

  datatype Place =
    | Home | SetupJ | Approach | DrawerOpen | Silence | Inner | CloseSetupJ | OpenDown | CloseEnd
    | SocketApproachXY | SocketApproachZ | SocketBottomXY | SocketBottom | CatchHome | Astray

  datatype Marker = PickMarker | PlaceMarker

  datatype Kind = MoveL(to: Place) | MoveJ(to: Place) | Grip(pulse: int)

  datatype Step = Step(kind: Kind, marker: Option<Marker>)

  const PULSE_RELEASE := 450
  const PULSE_GRIP_BOX := 600
  const PULSE_GRIP_TOOL := 650

  function L(to: Place): Step {
    Step(MoveL(to), None)
  }

  function J(to: Place): Step {
    Step(MoveJ(to), None)
  }

  function G(pulse: int): Step {
    Step(Grip(pulse), None)
  }

  function Marked(step: Step, marker: Marker): Step {
    step.(marker := Some(marker))
  }

  function DrawerOpenSeq(): seq<Step> {
    [G(PULSE_RELEASE), J(SetupJ), L(Approach), G(PULSE_GRIP_BOX), L(DrawerOpen), L(Silence), G(PULSE_RELEASE),
     L(Inner), J(Home)]
  }

  function DrawerCloseSeq(): seq<Step> {
    [G(PULSE_RELEASE), J(CloseSetupJ), L(OpenDown), G(PULSE_GRIP_BOX), L(DrawerOpen), L(Approach), G(PULSE_RELEASE),
     L(CloseEnd), J(Home)]
  }

  function FetchMiddle(): seq<Step> {
    [J(Home), L(SocketApproachXY), L(SocketApproachZ), Marked(G(PULSE_GRIP_TOOL), PickMarker), L(SocketApproachXY),
     L(SocketBottomXY), L(SocketBottom), Marked(G(PULSE_RELEASE), PlaceMarker), L(SocketBottomXY), L(CatchHome),
     J(Home)]
  }

  function ReturnMiddle(): seq<Step> {
    [J(Home), L(CatchHome), L(SocketBottomXY), L(SocketBottom), Marked(G(PULSE_GRIP_TOOL), PickMarker),
     L(SocketBottomXY),
     L(SocketApproachXY), L(SocketApproachZ), Marked(G(PULSE_RELEASE), PlaceMarker), L(SocketApproachXY), J(Home)]
  }

  function FullSocketFetchSeq(): seq<Step> {
    DrawerOpenSeq() + FetchMiddle() + DrawerCloseSeq() + [J(Home)]
  }

  function FullSocketReturnSeq(): seq<Step> {
    DrawerOpenSeq() + ReturnMiddle() + DrawerCloseSeq() + [J(Home)]
  }

  // ---------------------------------------------------------------- the executor

  // What the executor sees at one step: the E-stop latch, the goal's cancel flag, and whether
  // the step succeeds.
  datatype Moment = Moment(latched: bool, cancelled: bool, succeeds: bool)

  predicate Proceeds(m: Moment) {
    !m.latched && !m.cancelled && m.succeeds
  }

  // The markers published after a list of steps.
  function Feedback(steps: seq<Step>): seq<Marker> {
    if steps == [] then []
    else
      var last := steps[|steps| - 1];
      Feedback(steps[..|steps| - 1]) + (if last.marker.Some? then [last.marker.value] else [])
  }

  /** _run_sequence: steps run in order up to the first that does not proceed, and a marker is
      published exactly when its step has succeeded. */
  method RunSequence(steps: seq<Step>, seen: nat -> Moment) returns (ok: bool, ran: nat, feedback: seq<Marker>)
    ensures ran <= |steps| && (forall i: nat :: i < ran ==> Proceeds(seen(i)))
    ensures if ok then ran == |steps| else ran < |steps| && !Proceeds(seen(ran))
    ensures feedback == Feedback(steps[..ran])
  {
    ran, feedback := 0, [];
    assert steps[..0] == [];
    while ran < |steps|
      invariant ran <= |steps| && forall i: nat :: i < ran ==> Proceeds(seen(i))
      invariant feedback == Feedback(steps[..ran])
    {
      var step := steps[ran];
      if seen(ran).latched {
        return false, ran, feedback;
      }
      if seen(ran).cancelled {
        return false, ran, feedback;
      }
      if !seen(ran).succeeds {
        return false, ran, feedback;
      }
      assert steps[..ran + 1][..ran] == steps[..ran];
      if step.marker.Some? {
        feedback := feedback + [step.marker.value];
      }
      ran := ran + 1;
    }
    return true, ran, feedback;
  }

  // ---------------------------------------------------------------- what the steps do

  // Where the tool is.
  datatype Spot = InDrawer | InGripper | OnStaging | Dropped

  datatype Scene = Scene(arm: Place, tool: Spot)

  // Pulses from 600 up close the fingers, lower ones open them.
  predicate Closes(pulse: int) {
    pulse >= 600
  }

  /** Carrying out one step: the fingers take the tool where it lies and leave it where the arm
      is; anywhere else, and on the drawer handle, they take nothing. */
  function Apply(s: Scene, step: Step): Scene {
    match step.kind
    case MoveL(to) => s.(arm := to)
    case MoveJ(to) => s.(arm := to)
    case Grip(pulse) =>
      s.(tool :=
        if Closes(pulse) then
          if (s.arm == SocketApproachZ && s.tool == InDrawer) || (s.arm == SocketBottom && s.tool == OnStaging)
          then InGripper else s.tool
        else if s.tool != InGripper then s.tool
        else if s.arm == SocketApproachZ then InDrawer
        else if s.arm == SocketBottom then OnStaging
        else Dropped)
  }

  function ApplyAll(s: Scene, steps: seq<Step>): Scene
    decreases |steps|
  {
    if steps == [] then s else ApplyAll(Apply(s, steps[0]), steps[1..])
  }

  // Fetch and return, and the stages of the tool on their paths.
  datatype Task = FetchTask | ReturnTask

  function Stage(task: Task, spot: Spot): int {
    match (task, spot)
    case (_, InGripper) => 1
    case (FetchTask, InDrawer) => 0
    case (FetchTask, OnStaging) => 2
    case (ReturnTask, OnStaging) => 0
    case (ReturnTask, InDrawer) => 2
    case (_, Dropped) => -1
  }

  function StageOf(marker: Marker): int {
    match marker
    case PickMarker => 1
    case PlaceMarker => 2
  }

  // Every step brings the tool to the stage its marker says, and a step without one leaves the
  // tool where it is.
  predicate Honest(task: Task, s: Scene, steps: seq<Step>)
    decreases |steps|
  {
    if steps == [] then true
    else HonestStep(task, s, steps[0]) && Honest(task, Apply(s, steps[0]), steps[1..])
  }

  predicate HonestStep(task: Task, s: Scene, step: Step) {
    var next := Apply(s, step);
    if step.marker == None then next.tool == s.tool
    else Stage(task, next.tool) == StageOf(step.marker.value) == Stage(task, s.tool) + 1
  }

  lemma {:induction false} HonestJoins(task: Task, s: Scene, a: seq<Step>, b: seq<Step>)
    requires Honest(task, s, a) && Honest(task, ApplyAll(s, a), b)
    ensures Honest(task, s, a + b) && ApplyAll(s, a + b) == ApplyAll(ApplyAll(s, a), b)
    decreases |a|
  {
    if a == [] {
      assert a + b == b;
    } else {
      assert (a + b)[1..] == a[1..] + b;
      HonestJoins(task, Apply(s, a[0]), a[1..], b);
    }
  }

  predicate IsMove(step: Step) {
    step.kind.MoveL? || step.kind.MoveJ?
  }

  // Step i cannot touch the tool: it carries no marker, opens no full gripper, and closes the
  // gripper only right after a move to a place where the tool never lies.
  predicate Untouching(tool: Spot, steps: seq<Step>, i: nat)
    requires i < |steps|
  {
    && steps[i].marker == None
    && (!IsMove(steps[i]) ==> tool != InGripper)
    && (!IsMove(steps[i]) && Closes(steps[i].kind.pulse) ==>
          && i > 0 && IsMove(steps[i - 1])
          && steps[i - 1].kind.to != SocketApproachZ && steps[i - 1].kind.to != SocketBottom)
  }

  lemma {:induction false} UntouchingIsHonest(task: Task, s: Scene, steps: seq<Step>)
    requires forall i :: 0 <= i < |steps| ==> Untouching(s.tool, steps, i)
    ensures Honest(task, s, steps) && ApplyAll(s, steps).tool == s.tool
    ensures steps != [] && IsMove(steps[|steps| - 1]) ==> ApplyAll(s, steps).arm == steps[|steps| - 1].kind.to
    decreases |steps|
  {
    if steps != [] {
      var before, last := steps[..|steps| - 1], steps[|steps| - 1];
      assert forall i :: 0 <= i < |before| ==> Untouching(s.tool, steps, i) && before[i] == steps[i];
      UntouchingIsHonest(task, s, before);
      OneStep(task, ApplyAll(s, before), last);
      assert Untouching(s.tool, steps, |steps| - 1);
      HonestJoins(task, s, before, [last]);
      assert before + [last] == steps;
    }
  }

  lemma OneStep(task: Task, s: Scene, step: Step)
    ensures ApplyAll(s, [step]) == Apply(s, step)
    ensures HonestStep(task, s, step) ==> Honest(task, s, [step])
  {
    assert [step][1..] == [];
  }

  // A carried tool: idle steps up to where the tool lies, a marked grip, moves to where it goes,
  // a marked release, idle steps away.
  lemma CarryingIsHonest(task: Task, s: Scene, a: seq<Step>, b: seq<Step>, c: seq<Step>)
    requires Stage(task, s.tool) == 0
    requires forall i :: 0 <= i < |a| ==> Untouching(s.tool, a, i)
    requires forall i :: 0 <= i < |b| ==> Untouching(InGripper, b, i)
    requires forall i :: 0 <= i < |c| ==> Untouching(Goal(task), c, i)
    requires EndsAt(a, Site(s.tool)) && EndsAt(b, Site(Goal(task)))
    ensures Honest(task, s, Carrying(a, b, c)) && ApplyAll(s, Carrying(a, b, c)).tool == Goal(task)
  {
    hide Honest, ApplyAll, Untouching;
    var pick, place := [Marked(G(PULSE_GRIP_TOOL), PickMarker)], [Marked(G(PULSE_RELEASE), PlaceMarker)];
    UntouchingIsHonest(task, s, a);
    var s1 := ApplyAll(s, a);
    OneStep(task, s1, pick[0]);
    HonestJoins(task, s, a, pick);
    var s2 := Apply(s1, pick[0]);
    UntouchingIsHonest(task, s2, b);
    HonestJoins(task, s, a + pick, b);
    var s3 := ApplyAll(s2, b);
    OneStep(task, s3, place[0]);
    HonestJoins(task, s, a + pick + b, place);
    UntouchingIsHonest(task, Apply(s3, place[0]), c);
    HonestJoins(task, s, a + pick + b + place, c);
  }

  function Carrying(a: seq<Step>, b: seq<Step>, c: seq<Step>): seq<Step> {
    a + [Marked(G(PULSE_GRIP_TOOL), PickMarker)] + b + [Marked(G(PULSE_RELEASE), PlaceMarker)] + c
  }

  predicate EndsAt(steps: seq<Step>, place: Place) {
    steps != [] && IsMove(steps[|steps| - 1]) && steps[|steps| - 1].kind.to == place
  }

  function Site(spot: Spot): Place {
    if spot == InDrawer then SocketApproachZ else SocketBottom
  }

  // Where a fetch or a return brings the tool.
  function Goal(task: Task): Spot {
    match task
    case FetchTask => OnStaging
    case ReturnTask => InDrawer
  }

  function Origin(task: Task): Spot {
    match task
    case FetchTask => InDrawer
    case ReturnTask => OnStaging
  }

  function Sequence(task: Task): seq<Step> {
    match task
    case FetchTask => FullSocketFetchSeq()
    case ReturnTask => FullSocketReturnSeq()
  }

  function FetchMoves(): (seq<Step>, seq<Step>, seq<Step>) {
    (DrawerOpenSeq() + [J(Home), L(SocketApproachXY), L(SocketApproachZ)],
     [L(SocketApproachXY), L(SocketBottomXY), L(SocketBottom)],
     [L(SocketBottomXY), L(CatchHome), J(Home)] + DrawerCloseSeq() + [J(Home)])
  }

  function ReturnMoves(): (seq<Step>, seq<Step>, seq<Step>) {
    (DrawerOpenSeq() + [J(Home), L(CatchHome), L(SocketBottomXY), L(SocketBottom)],
     [L(SocketBottomXY), L(SocketApproachXY), L(SocketApproachZ)],
     [L(SocketApproachXY), J(Home)] + DrawerCloseSeq() + [J(Home)])
  }

  lemma FetchCarries()
    ensures Carrying(FetchMoves().0, FetchMoves().1, FetchMoves().2) == FullSocketFetchSeq()
  {
  }

  lemma ReturnCarries()
    ensures Carrying(ReturnMoves().0, ReturnMoves().1, ReturnMoves().2) == FullSocketReturnSeq()
  {
  }

  lemma FetchIsHonest(s: Scene)
    requires s.tool == InDrawer
    ensures Honest(FetchTask, s, FullSocketFetchSeq()) && ApplyAll(s, FullSocketFetchSeq()).tool == OnStaging
  {
    hide Honest, ApplyAll, FullSocketFetchSeq, Carrying;
    var m := FetchMoves();
    CarryingIsHonest(FetchTask, s, m.0, m.1, m.2);
    FetchCarries();
  }

  lemma ReturnIsHonest(s: Scene)
    requires s.tool == OnStaging
    ensures Honest(ReturnTask, s, FullSocketReturnSeq()) && ApplyAll(s, FullSocketReturnSeq()).tool == InDrawer
  {
    hide Honest, ApplyAll, FullSocketReturnSeq, Carrying;
    var m := ReturnMoves();
    CarryingIsHonest(ReturnTask, s, m.0, m.1, m.2);
    ReturnCarries();
  }

  /** The markers of the fetch and return sequences are honest, from wherever the arm starts: the
      pick follows the grip that takes the tool, the place the release that leaves it, and no
      other step of the two sequences, gripping the drawer handle included, moves the tool. */
  lemma SequencesAreHonest(task: Task, s: Scene)
    requires s.tool == Origin(task)
    ensures Honest(task, s, Sequence(task)) && ApplyAll(s, Sequence(task)).tool == Goal(task)
  {
    hide Honest, ApplyAll, FullSocketFetchSeq, FullSocketReturnSeq;
    match task
    case FetchTask => FetchIsHonest(s);
    case ReturnTask => ReturnIsHonest(s);
  }

  // ---------------------------------------------------------------- the drawer

  // The places in front of the handle, with the drawer open or closed.
  function HandleAt(place: Place): Option<bool> {
    match place
    case Approach => Some(false)
    case DrawerOpen => Some(true)
    case Silence => Some(true)
    case OpenDown => Some(true)
    case _ => None
  }

  // `held` while the fingers have the handle; `torn` once the arm has left with it.
  datatype Drawer = Drawer(open: bool, held: bool, torn: bool)

  datatype Rig = Rig(arm: Place, drawer: Drawer)

  /** What a step does to the drawer: closing fingers take the handle if it is there, a straight
      move takes the drawer along, and any other way to leave with the handle tears it. */
  function Work(r: Rig, step: Step): Rig {
    match step.kind
    case MoveL(to) =>
      if !r.drawer.held then r.(arm := to)
      else if HandleAt(to).Some? then Rig(to, r.drawer.(open := HandleAt(to).value))
      else Rig(to, r.drawer.(torn := true))
    case MoveJ(to) => Rig(to, if r.drawer.held then r.drawer.(torn := true) else r.drawer)
    case Grip(pulse) => r.(drawer := r.drawer.(held := Closes(pulse) && HandleAt(r.arm) == Some(r.drawer.open)))
  }

  // After the first n steps.
  function WorkTo(steps: seq<Step>, n: nat, r: Rig): Rig
    requires n <= |steps|
  {
    if n == 0 then r else Work(WorkTo(steps, n - 1, r), steps[n - 1])
  }

  const CLOSED := Drawer(false, false, false)
  const OPENED := Drawer(true, false, false)

  lemma {:induction false} WorkJoins(a: seq<Step>, b: seq<Step>, k: nat, r: Rig)
    requires k <= |b|
    ensures WorkTo(a + b, |a| + k, r) == WorkTo(b, k, WorkTo(a, |a|, r))
    decreases k
  {
    if k == 0 {
      WorkPrefix(a, b, |a|, r);
    } else {
      WorkJoins(a, b, k - 1, r);
    }
  }

  lemma {:induction false} WorkPrefix(a: seq<Step>, b: seq<Step>, k: nat, r: Rig)
    requires k <= |a|
    ensures WorkTo(a + b, k, r) == WorkTo(a, k, r)
    decreases k
  {
    if k > 0 {
      WorkPrefix(a, b, k - 1, r);
    }
  }

  lemma OpenSeqOpens(arm: Place)
    ensures var steps := DrawerOpenSeq(); WorkTo(steps, |steps|, Rig(arm, CLOSED)) == Rig(Home, OPENED)
  {
    var steps, r := DrawerOpenSeq(), Rig(arm, CLOSED);
    assert WorkTo(steps, 1, r) == r;
    assert WorkTo(steps, 2, r).drawer == r.drawer;
    assert WorkTo(steps, 3, r) == Rig(Approach, CLOSED);
    assert WorkTo(steps, 4, r) == Rig(Approach, Drawer(false, true, false));
    assert WorkTo(steps, 5, r) == Rig(DrawerOpen, Drawer(true, true, false));
    assert WorkTo(steps, 6, r) == Rig(Silence, Drawer(true, true, false));
    assert WorkTo(steps, 7, r) == Rig(Silence, OPENED);
    assert WorkTo(steps, 9, r) == Rig(Home, OPENED);
  }

  lemma CloseSeqCloses(arm: Place)
    ensures var steps := DrawerCloseSeq(); WorkTo(steps, |steps|, Rig(arm, OPENED)) == Rig(Home, CLOSED)
  {
    var steps, r := DrawerCloseSeq(), Rig(arm, OPENED);
    assert WorkTo(steps, 1, r) == r;
    assert WorkTo(steps, 2, r).drawer == r.drawer;
    assert WorkTo(steps, 3, r) == Rig(OpenDown, OPENED);
    assert WorkTo(steps, 4, r) == Rig(OpenDown, Drawer(true, true, false));
    assert WorkTo(steps, 5, r) == Rig(DrawerOpen, Drawer(true, true, false));
    assert WorkTo(steps, 6, r) == Rig(Approach, Drawer(false, true, false));
    assert WorkTo(steps, 7, r) == Rig(Approach, CLOSED);
    assert WorkTo(steps, 9, r) == Rig(Home, CLOSED);
  }

  // Steps that keep away from the handle.
  predicate KeepsAway(steps: seq<Step>) {
    forall i :: 0 <= i < |steps| && IsMove(steps[i]) ==> HandleAt(steps[i].kind.to) == None
  }

  lemma {:induction false} AwayLeavesDrawer(steps: seq<Step>, n: nat, r: Rig)
    requires n <= |steps| && KeepsAway(steps) && HandleAt(r.arm) == None && !r.drawer.held
    ensures var t := WorkTo(steps, n, r); t.drawer == r.drawer && HandleAt(t.arm) == None
    decreases n
  {
    if n > 0 {
      AwayLeavesDrawer(steps, n - 1, r);
    }
  }

  function MiddleOf(task: Task): seq<Step> {
    match task
    case FetchTask => FetchMiddle()
    case ReturnTask => ReturnMiddle()
  }

  lemma OnlyMiddleMarks(task: Task)
    ensures KeepsAway(MiddleOf(task))
    ensures forall i :: 0 <= i < |DrawerOpenSeq()| ==> DrawerOpenSeq()[i].marker == None
    ensures forall i :: 0 <= i < |DrawerCloseSeq()| ==> DrawerCloseSeq()[i].marker == None
  {
  }

  /** Fetch and return from a closed drawer: whenever the tool is picked or placed the drawer is open
      and let go of, the handle is never torn along, and the drawer is closed in the end. */
  lemma DrawerIsWorked(task: Task, arm: Place)
    ensures var steps, r := Sequence(task), Rig(arm, CLOSED);
            && (forall k :: 0 <= k < |steps| && steps[k].marker.Some? ==> WorkTo(steps, k, r).drawer == OPENED)
            && WorkTo(steps, |steps|, r).drawer == CLOSED
  {
    hide DrawerOpenSeq, DrawerCloseSeq, MiddleOf, FetchMiddle, ReturnMiddle, WorkTo, KeepsAway;
    var a, b, c, d := DrawerOpenSeq(), MiddleOf(task), DrawerCloseSeq(), [J(Home)];
    var r := Rig(arm, CLOSED);
    SequenceParts(task);
    OnlyMiddleMarks(task);
    OpenSeqOpens(arm);
    var steps := a + b + c + d;
    forall k | 0 <= k < |steps| && steps[k].marker.Some?
      ensures WorkTo(steps, k, r).drawer == OPENED
    {
      assert |a| <= k < |a| + |b|;
      AwayLeavesDrawer(b, k - |a|, Rig(Home, OPENED));
      WorkJoins(a, b, k - |a|, r);
      WorkPrefix(a + b, c, k, r);
      WorkPrefix(a + b + c, d, k, r);
    }
    var mid := WorkTo(a + b, |a| + |b|, r);
    WorkJoins(a, b, |b|, r);
    AwayLeavesDrawer(b, |b|, Rig(Home, OPENED));
    CloseSeqCloses(mid.arm);
    WorkJoins(a + b, c, |c|, r);
    WorkJoins(a + b + c, d, 1, r);
    HomeIsLast(Rig(Home, CLOSED));
  }

  lemma SequenceParts(task: Task)
    ensures Sequence(task) == DrawerOpenSeq() + MiddleOf(task) + DrawerCloseSeq() + [J(Home)]
  {
    hide DrawerOpenSeq, DrawerCloseSeq, FetchMiddle, ReturnMiddle;
  }

  lemma HomeIsLast(r: Rig)
    requires !r.drawer.held
    ensures WorkTo([J(Home)], 1, r).drawer == r.drawer
  {
  }
}
