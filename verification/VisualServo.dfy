/** Visual servoing: the two alignment controllers, the loops that drive them, and what a
    closed loop over exact relative moves achieves. Lengths in mm, times in seconds. */
module VisualServo {
  import opened Wrappers

  datatype Mode = Detect | Align | Done | Failed

  datatype Ctrl = Ctrl(mode: Mode, count: int)

  datatype Params = Params(kp: real, thr: real, stable: int, limit: real, timeout: real)

  // What one tick sees on its two axes. `ee` is false when the pose service does not answer.
  datatype View = View(estop: bool, elapsed: real, valid: bool, ee: bool, e1: real, e2: real)

  datatype Out = Stop | Move(v1: real, v2: real) | Raised

  function Min(a: real, b: real): real {
    if a <= b then a else b
  }

  function Max(a: real, b: real): real {
    if a >= b then a else b
  }

  function Abs(a: real): real {
    if a >= 0.0 then a else -a
  }

  // _clamp
  function Clamp(value: real, limit: real): real {
    Max(-limit, Min(limit, value))
  }

  // The velocity of one axis.
  function Velocity(kp: real, err: real, limit: real): real {
    Clamp(kp * err, limit)
  }

  // _norm2(e1, e2) <= thr, without the square root.
  predicate Near(e1: real, e2: real, thr: real) {
    thr >= 0.0 && e1 * e1 + e2 * e2 <= thr * thr
  }

  // Neither of the two checks that come before everything else.
  predicate Clear(p: Params, view: View) {
    !view.estop && view.elapsed <= p.timeout
  }

  function DetectStep(p: Params, c: Ctrl, valid: bool): Ctrl {
    var count := if valid then c.count + 1 else 0;
    Ctrl(if count >= p.stable then Align else Detect, count)
  }

  function AlignStep(p: Params, c: Ctrl, view: View): (Ctrl, Out) {
    if !view.valid then (Ctrl(Detect, 0), Stop)
    else if !view.ee then (c, Raised)
    else if Near(view.e1, view.e2, p.thr) then (c.(mode := Done), Stop)
    else (c, Move(Velocity(p.kp, view.e1, p.limit), Velocity(p.kp, view.e2, p.limit)))
  }

  /** tick, on the two axes of the controller. */
  function Step(p: Params, c: Ctrl, view: View): (Ctrl, Out) {
    if !Clear(p, view) then (c.(mode := Failed), Stop)
    else if c.mode == Detect then (DetectStep(p, c, view.valid), Stop)
    else if c.mode == Align then AlignStep(p, c, view)
    else (c, Stop)
  }

  predicate Terminal(c: Ctrl) {
    c.mode == Done || c.mode == Failed
  }

  // ---------------------------------------------------------------- the two controllers

  datatype ServoConfig = ServoConfig(kp: real, xzThr: real, xyThr: real, stable: int, limit: real, timeout: real)

  datatype HandlePose = HandlePose(x: real, z: real, valid: bool)

  datatype ToolPose = ToolPose(x: real, y: real, z: real, rz: real, valid: bool)

  datatype Position = Position(x: real, y: real, z: real)

  datatype VelocityCommand = VelocityCommand(vx: real, vy: real, vz: real, stop: bool)

  function HandleParams(cfg: ServoConfig): Params {
    Params(cfg.kp, cfg.xzThr, cfg.stable, cfg.limit, cfg.timeout)
  }

  function ToolParams(cfg: ServoConfig): Params {
    Params(cfg.kp, cfg.xyThr, cfg.stable, cfg.limit, cfg.timeout)
  }

  function HandleView(estop: bool, elapsed: real, handle: HandlePose, ee: Option<Position>): View {
    match ee
    case Some(at) => View(estop, elapsed, handle.valid, true, handle.x - at.x, handle.z - at.z)
    case None => View(estop, elapsed, handle.valid, false, 0.0, 0.0)
  }

  function ToolView(estop: bool, elapsed: real, tool: ToolPose, ee: Option<Position>): View {
    match ee
    case Some(at) => View(estop, elapsed, tool.valid, true, tool.x - at.x, tool.y - at.y)
    case None => View(estop, elapsed, tool.valid, false, 0.0, 0.0)
  }

  const STOP := VelocityCommand(0.0, 0.0, 0.0, true)

  // The command for the xz plane; None stands for the exception.
  function XzCommand(out: Out): Option<VelocityCommand> {
    match out
    case Stop => Some(STOP)
    case Move(v1, v2) => Some(VelocityCommand(v1, 0.0, v2, false))
    case Raised => None
  }

  function XyCommand(out: Out): Option<VelocityCommand> {
    match out
    case Stop => Some(STOP)
    case Move(v1, v2) => Some(VelocityCommand(v1, v2, 0.0, false))
    case Raised => None
  }

  /** Aligns with a drawer handle in x and z; y is locked. */
  class HandleServoController {
    const cfg: ServoConfig
    const start: real
    var mode: Mode
    var count: int

    constructor (cfg: ServoConfig, clock: real)
      ensures this.cfg == cfg && start == clock && State() == Ctrl(Detect, 0)
    {
      this.cfg, start, mode, count := cfg, clock, Detect, 0;
    }

    function State(): Ctrl
      reads this
    {
      Ctrl(mode, count)
    }

    method Tick(estop: bool, clock: real, handle: HandlePose, ee: Option<Position>)
      returns (cmd: Option<VelocityCommand>)
      modifies this
      ensures var step := Step(HandleParams(cfg), old(State()), HandleView(estop, clock - start, handle, ee));
              State() == step.0 && cmd == XzCommand(step.1)
    {
      hide Velocity, Near;
      if estop {
        mode := Failed;
        return Some(STOP);
      }
      if clock - start > cfg.timeout {
        mode := Failed;
        return Some(STOP);
      }
      if mode == Detect {
        TickDetect(handle);
        return Some(STOP);
      }
      if mode == Align {
        cmd := TickAlignXz(handle, ee);
        return;
      }
      return Some(STOP);
    }

    method TickDetect(handle: HandlePose)
      requires mode == Detect
      modifies this
      ensures State() == DetectStep(HandleParams(cfg), old(State()), handle.valid)
    {
      if handle.valid {
        count := count + 1;
      } else {
        count := 0;
      }
      if count >= cfg.stable {
        mode := Align;
      }
    }

    method TickAlignXz(handle: HandlePose, ee: Option<Position>) returns (cmd: Option<VelocityCommand>)
      requires mode == Align
      modifies this
      ensures var step := AlignStep(HandleParams(cfg), old(State()), HandleView(false, 0.0, handle, ee));
              State() == step.0 && cmd == XzCommand(step.1)
    {
      hide Velocity, Near;
      if !handle.valid {
        mode, count := Detect, 0;
        return Some(STOP);
      }
      if ee == None {
        return None;
      }
      var errX := handle.x - ee.value.x;
      var errZ := handle.z - ee.value.z;
      if Near(errX, errZ, cfg.xzThr) {
        mode := Done;
        return Some(STOP);
      }
      var vx := Velocity(cfg.kp, errX, cfg.limit);
      var vz := Velocity(cfg.kp, errZ, cfg.limit);
      return Some(VelocityCommand(vx, 0.0, vz, false));
    }
  }

  /** Aligns above a tool in x and y; z is locked. */
  class ToolServoController {
    const cfg: ServoConfig
    const start: real
    var mode: Mode
    var count: int

    constructor (cfg: ServoConfig, clock: real)
      ensures this.cfg == cfg && start == clock && State() == Ctrl(Detect, 0)
    {
      this.cfg, start, mode, count := cfg, clock, Detect, 0;
    }

    function State(): Ctrl
      reads this
    {
      Ctrl(mode, count)
    }

    method Tick(estop: bool, clock: real, tool: ToolPose, ee: Option<Position>) returns (cmd: Option<VelocityCommand>)
      modifies this
      ensures var step := Step(ToolParams(cfg), old(State()), ToolView(estop, clock - start, tool, ee));
              State() == step.0 && cmd == XyCommand(step.1)
    {
      hide Velocity, Near;
      if estop || clock - start > cfg.timeout {
        mode := Failed;
        return Some(STOP);
      }
      if mode == Detect {
        count := if tool.valid then count + 1 else 0;
        if count >= cfg.stable {
          mode := Align;
        }
        return Some(STOP);
      }
      if mode != Align {
        return Some(STOP);
      }
      if !tool.valid {
        mode, count := Detect, 0;
        return Some(STOP);
      }
      if ee == None {
        return None;
      }
      var errX := tool.x - ee.value.x;
      var errY := tool.y - ee.value.y;
      if Near(errX, errY, cfg.xyThr) {
        mode := Done;
        return Some(STOP);
      }
      return Some(VelocityCommand(Velocity(cfg.kp, errX, cfg.limit), Velocity(cfg.kp, errY, cfg.limit), 0.0, false));
    }
  }

  // ---------------------------------------------------------------- runs

  // The state after n ticks of what the run sees.
  function After(p: Params, views: nat -> View, n: nat): Ctrl {
    if n == 0 then Ctrl(Detect, 0) else Step(p, After(p, views, n - 1), views(n - 1)).0
  }

  function OutAt(p: Params, views: nat -> View, n: nat): Out {
    Step(p, After(p, views, n), views(n)).1
  }

  // The last k of the first n ticks saw a valid frame, no E-stop and no timeout.
  ghost predicate SteadyFor(p: Params, views: nat -> View, n: nat, k: int) {
    k <= n && forall i: nat :: n - k <= i < n ==> Clear(p, views(i)) && views(i).valid
  }

  ghost predicate RunInv(p: Params, views: nat -> View, n: nat) {
    var c := After(p, views, n);
    && (c.mode == Detect ==> 0 <= c.count < p.stable && SteadyFor(p, views, n, c.count))
    && (c.mode == Align ==> SteadyFor(p, views, n, p.stable))
  }

  lemma {:induction false} RunIsSteady(p: Params, views: nat -> View, n: nat)
    requires p.stable >= 1
    ensures RunInv(p, views, n)
  {
    if n > 0 {
      RunIsSteady(p, views, n - 1);
      var c := After(p, views, n - 1);
      assert After(p, views, n) == Step(p, c, views(n - 1)).0;
    }
  }

  /** Safety over every run: the arm is commanded to move only in ALIGN, after the frames of the
      last stable_frames + 1 ticks, this one's included, were all valid with E-stop clear and no
      timeout, and never faster than the limit on either axis. */
  lemma MotionIsSafe(p: Params, views: nat -> View, n: nat)
    requires OutAt(p, views, n).Move?
    ensures After(p, views, n).mode == Align && SteadyFor(p, views, n + 1, p.stable + 1)
    ensures var out := OutAt(p, views, n); Abs(out.v1) <= Abs(p.limit) && Abs(out.v2) <= Abs(p.limit)
  {
    if p.stable >= 1 {
      RunIsSteady(p, views, n);
    }
  }

  /** DONE is entered only after stable_frames + 1 such ticks, on a target within the threshold. */
  lemma DoneNeedsSteadyTarget(p: Params, views: nat -> View, n: nat)
    requires After(p, views, n).mode != Done && After(p, views, n + 1).mode == Done
    ensures SteadyFor(p, views, n + 1, p.stable + 1)
    ensures views(n).ee && Near(views(n).e1, views(n).e2, p.thr)
  {
    if p.stable >= 1 {
      RunIsSteady(p, views, n);
    }
    assert After(p, views, n + 1) == Step(p, After(p, views, n), views(n)).0;
  }

  // Tick n leaves DETECT for ALIGN although it sees no target.
  predicate AlignsBlindly(p: Params, views: nat -> View, n: nat) {
    After(p, views, n).mode == Detect && After(p, views, n + 1).mode == Align && !views(n).valid
  }

  /** What stable_frames of zero or less does is leave DETECT early, and nothing else does: some
      run leaves it on an invalid frame exactly for such a setting. */
  lemma NoStableFramesNeededIff(p: Params)
    ensures (exists views: nat -> View, n: nat :: AlignsBlindly(p, views, n)) <==> p.stable <= 0
  {
    if p.stable <= 0 {
      var views: nat -> View := (i: nat) => View(false, p.timeout, false, false, 0.0, 0.0);
      assert After(p, views, 1) == Step(p, After(p, views, 0), views(0)).0;
      assert AlignsBlindly(p, views, 0);
    } else {
      forall views: nat -> View, n: nat
        ensures !AlignsBlindly(p, views, n)
      {
        assert After(p, views, n + 1) == Step(p, After(p, views, n), views(n)).0;
      }
    }
  }

  /** ERROR is absorbing and commands nothing; DONE is left only for ERROR. */
  lemma {:induction false} ErrorIsAbsorbing(p: Params, views: nat -> View, n: nat, m: nat)
    requires n <= m && Terminal(After(p, views, n))
    ensures After(p, views, n).mode == Failed ==> After(p, views, m).mode == Failed
    ensures Terminal(After(p, views, m)) && OutAt(p, views, m) == Stop
  {
    if n < m {
      ErrorIsAbsorbing(p, views, n, m - 1);
      assert After(p, views, m) == Step(p, After(p, views, m - 1), views(m - 1)).0;
    }
  }

  // ---------------------------------------------------------------- the closed loop

  // Every tick sees the target, and the error falls by exactly what the tick commanded for
  // `dt`: a fixed target and exact relative moves.
  ghost predicate ExactPlant(p: Params, views: nat -> View, dt: real) {
    forall n: nat :: ExactAt(p, views, dt, n)
  }

  ghost predicate ExactAt(p: Params, views: nat -> View, dt: real, n: nat) {
    PlantStep(views(n), OutAt(p, views, n), views(n + 1), dt)
  }

  // What a relative move at velocity v covers in time dt.
  function Travel(v: real, dt: real): real {
    v * dt
  }

  predicate PlantStep(view: View, out: Out, next: View, dt: real) {
    && view.valid && view.ee
    && next.e1 == view.e1 - (if out.Move? then Travel(out.v1, dt) else 0.0)
    && next.e2 == view.e2 - (if out.Move? then Travel(out.v2, dt) else 0.0)
  }

  predicate Tuned(p: Params, dt: real) {
    dt > 0.0 && p.kp > 0.0 && p.kp * dt <= 1.0 && p.limit > 0.0 && p.thr > 0.0
  }

  // What every ALIGN tick takes off |e1| + |e2| at least.
  function Progress(p: Params, dt: real): real {
    Travel(Velocity(p.kp, p.thr / 2.0, p.limit), dt)
  }

  function Distance(view: View): real {
    Abs(view.e1) + Abs(view.e2)
  }

  // One axis: the step goes the error's way, and exactly then not beyond it.
  lemma AxisStaysIff(kp: real, limit: real, dt: real, e: real)
    requires dt > 0.0 && kp > 0.0 && limit > 0.0 && e != 0.0
    ensures Closer(e, e - Travel(Velocity(kp, e, limit), dt)) <==> kp * dt <= 1.0 || limit * dt <= Abs(e)
  {
    if e > 0.0 {
      StepForward(kp, limit, dt, e);
    } else {
      StepForward(kp, limit, dt, -e);
      StepIsOdd(kp, limit, dt, e);
    }
    hide Velocity, Travel;
  }

  lemma StepForward(kp: real, limit: real, dt: real, e: real)
    requires dt > 0.0 && kp > 0.0 && limit > 0.0 && e > 0.0
    ensures 0.0 <= Travel(Velocity(kp, e, limit), dt)
    ensures Travel(Velocity(kp, e, limit), dt) <= e <==> kp * dt <= 1.0 || limit * dt <= e
  {
    Product(kp, e);
    assert kp * e * dt == kp * dt * e;
    GainPerTick(kp * dt, e);
    if kp * e <= limit {
      assert Velocity(kp, e, limit) == kp * e;
      Scale(kp * e, limit, dt);
    } else {
      assert Velocity(kp, e, limit) == limit;
      Scale(limit, kp * e, dt);
    }
    Product(Velocity(kp, e, limit), dt);
  }

  lemma GainPerTick(g: real, e: real)
    requires e > 0.0
    ensures g * e <= e <==> g <= 1.0
  {
    if g > 1.0 {
      assert (g - 1.0) * e > 0.0;
    } else {
      Scale(g, 1.0, e);
    }
  }

  lemma AxisDoesNotOvershoot(kp: real, limit: real, dt: real, e: real)
    requires dt > 0.0 && kp > 0.0 && kp * dt <= 1.0 && limit > 0.0
    ensures Closer(e, e - Travel(Velocity(kp, e, limit), dt))
  {
    if e != 0.0 {
      AxisStaysIff(kp, limit, dt, e);
    }
  }

  lemma StepIsOdd(kp: real, limit: real, dt: real, e: real)
    requires limit > 0.0
    ensures Travel(Velocity(kp, -e, limit), dt) == -Travel(Velocity(kp, e, limit), dt)
  {
    assert kp * -e == -(kp * e);
    var v := Velocity(kp, e, limit);
    assert Velocity(kp, -e, limit) == -v;
    assert -v * dt == -(v * dt);
  }

  // An error of at least `least` makes the step at least the one for `least`.
  lemma AxisProgress(kp: real, limit: real, dt: real, e: real, least: real)
    requires dt > 0.0 && kp > 0.0 && limit > 0.0 && least > 0.0 && Abs(e) >= least
    ensures Abs(Travel(Velocity(kp, e, limit), dt)) >= Travel(Velocity(kp, least, limit), dt)
  {
    Product(kp, least);
    Scale(least, Abs(e), kp);
    assert kp * least <= kp * Abs(e);
    assert Velocity(kp, least, limit) <= Velocity(kp, Abs(e), limit);
    Scale(Velocity(kp, least, limit), Velocity(kp, Abs(e), limit), dt);
    StepIsOdd(kp, limit, dt, e);
  }

  lemma Product(a: real, b: real)
    requires a >= 0.0 && b >= 0.0
    ensures a * b >= 0.0
  {
  }

  lemma Scale(a: real, b: real, c: real)
    requires a <= b && c >= 0.0
    ensures a * c <= b * c
  {
    Product(b - a, c);
    assert (b - a) * c == b * c - a * c;
  }

  // Outside the threshold one of the errors is at least half of it.
  lemma FarOnOneAxis(e1: real, e2: real, thr: real)
    requires thr > 0.0 && !Near(e1, e2, thr)
    ensures Abs(e1) >= thr / 2.0 || Abs(e2) >= thr / 2.0
  {
    if Abs(e1) < thr / 2.0 && Abs(e2) < thr / 2.0 {
      SmallSquare(e1, thr / 2.0);
      SmallSquare(e2, thr / 2.0);
      assert thr / 2.0 * (thr / 2.0) == thr * thr / 4.0;
      Product(thr, thr);
    }
  }

  lemma SmallSquare(e: real, bound: real)
    requires Abs(e) <= bound
    ensures e * e <= bound * bound
  {
    Scale(Abs(e), bound, Abs(e));
    Scale(Abs(e), bound, bound);
    assert Abs(e) * Abs(e) == e * e;
  }

  /** One ALIGN tick that moves: no axis overshoots, neither error grows, and |e1| + |e2| falls
      by at least dt * min(kp * thr / 2, limit). */
  lemma AlignTickConverges(p: Params, c: Ctrl, view: View, next: View, dt: real)
    requires Tuned(p, dt) && Step(p, c, view).1.Move? && PlantStep(view, Step(p, c, view).1, next, dt)
    ensures Closer(view.e1, next.e1) && Closer(view.e2, next.e2)
    ensures Distance(next) <= Distance(view) - Progress(p, dt)
  {
    hide Velocity, Travel, Near;
    AxisDoesNotOvershoot(p.kp, p.limit, dt, view.e1);
    AxisDoesNotOvershoot(p.kp, p.limit, dt, view.e2);
    FarOnOneAxis(view.e1, view.e2, p.thr);
    if Abs(view.e1) >= p.thr / 2.0 {
      AxisProgress(p.kp, p.limit, dt, view.e1, p.thr / 2.0);
    } else {
      AxisProgress(p.kp, p.limit, dt, view.e2, p.thr / 2.0);
    }
  }

  // On the same side of the target and no further from it.
  predicate Closer(before: real, after: real) {
    (before >= 0.0 ==> 0.0 <= after <= before) && (before <= 0.0 ==> before <= after <= 0.0)
  }

  // Ticks spent in DETECT when every frame is valid.
  function DetectTicks(p: Params): nat {
    if p.stable <= 1 then 1 else p.stable
  }

  ghost predicate OnTime(p: Params, views: nat -> View, n: nat) {
    forall i: nat :: i < n ==> Clear(p, views(i))
  }

  // What k moves take off.
  function Times(k: nat, d: real): real {
    k as real * d
  }

  lemma OneMore(k: nat, d: real)
    ensures Times(k + 1, d) == Times(k, d) + d
  {
  }

  // After n ticks on time: the state and the distance left of the initial d0.
  predicate Nearing(p: Params, dt: real, c: Ctrl, left: real, d0: real, n: nat) {
    if n < DetectTicks(p) then c == Ctrl(Detect, n) && left == d0
    else c.mode == Done || (c.mode == Align && left + Times(n - DetectTicks(p), Progress(p, dt)) <= d0)
  }

  lemma NearingStep(p: Params, dt: real, c: Ctrl, view: View, next: View, d0: real, n: nat)
    requires Tuned(p, dt) && Clear(p, view) && PlantStep(view, Step(p, c, view).1, next, dt)
    requires Nearing(p, dt, c, Distance(view), d0, n)
    ensures Nearing(p, dt, Step(p, c, view).0, Distance(next), d0, n + 1)
  {
    hide Velocity, Travel, Near, Progress, Times, Distance;
    if c.mode == Align {
      if Step(p, c, view).1.Move? {
        AlignTickConverges(p, c, view, next, dt);
        OneMore(n - DetectTicks(p), Progress(p, dt));
      }
    } else if c.mode == Detect {
      assert Distance(next) == Distance(view) by { SameDistance(view, next); }
      NoMoves(Progress(p, dt));
    }
  }

  lemma SameDistance(view: View, next: View)
    requires view.e1 == next.e1 && view.e2 == next.e2
    ensures Distance(view) == Distance(next)
  {
  }

  lemma NoMoves(d: real)
    ensures Times(0, d) == 0.0
  {
  }

  lemma {:induction false} LoopNears(p: Params, views: nat -> View, dt: real, n: nat)
    requires Tuned(p, dt) && ExactPlant(p, views, dt) && OnTime(p, views, n)
    ensures Nearing(p, dt, After(p, views, n), Distance(views(n)), Distance(views(0)), n)
  {
    hide Tuned, Nearing, Distance, Step, PlantStep;
    if n > 0 {
      LoopNears(p, views, dt, n - 1);
      assert ExactAt(p, views, dt, n - 1);
      NearingStep(p, dt, After(p, views, n - 1), views(n - 1), views(n), Distance(views(0)), n - 1);
    } else {
      NearingStarts(p, dt, views(0));
    }
  }

  lemma NearingStarts(p: Params, dt: real, view: View)
    ensures Nearing(p, dt, Ctrl(Detect, 0), Distance(view), Distance(view), 0)
  {
  }

  /** Convergence: in a closed loop of a tuned controller with a fixed valid target and exact
      moves, DONE is reached within stable_frames + m + 1 ticks, where m moves of at least the
      progress cover the initial |e1| + |e2|, unless E-stop or the timeout comes first. */
  lemma LoopConverges(p: Params, views: nat -> View, dt: real, m: nat, n: nat)
    requires Tuned(p, dt) && ExactPlant(p, views, dt)
    requires Times(m, Progress(p, dt)) >= Distance(views(0))
    requires n >= DetectTicks(p) + m + 1 && OnTime(p, views, n)
    ensures After(p, views, n).mode == Done
  {
    hide Tuned, Nearing, Distance, Step, PlantStep, Times, Progress;
    var last := DetectTicks(p) + m;
    LoopNears(p, views, dt, last);
    assert ExactAt(p, views, dt, last);
    TargetReached(p, dt, After(p, views, last), views(last), views(last + 1), Distance(views(0)), m);
    StaysDone(p, views, last + 1, n);
  }

  // The closed loop itself, from errors e1 and e2 with a tick every dt seconds: state and view
  // of tick n.
  function Simulated(p: Params, dt: real, e1: real, e2: real, n: nat): (Ctrl, View) {
    if n == 0 then (Ctrl(Detect, 0), View(false, 0.0, true, true, e1, e2))
    else
      var before := Simulated(p, dt, e1, e2, n - 1);
      var step := Step(p, before.0, before.1);
      (step.0, Moved(before.1, step.1, dt, Times(n, dt)))
  }

  function Moved(view: View, out: Out, dt: real, elapsed: real): View {
    View(false, elapsed, true, true,
         view.e1 - (if out.Move? then Travel(out.v1, dt) else 0.0),
         view.e2 - (if out.Move? then Travel(out.v2, dt) else 0.0))
  }

  function SimulatedViews(p: Params, dt: real, e1: real, e2: real): nat -> View {
    (n: nat) => Simulated(p, dt, e1, e2, n).1
  }

  lemma {:induction false} SimulationRuns(p: Params, dt: real, e1: real, e2: real, n: nat)
    ensures After(p, SimulatedViews(p, dt, e1, e2), n) == Simulated(p, dt, e1, e2, n).0
  {
    hide Step, Moved;
    if n > 0 {
      SimulationRuns(p, dt, e1, e2, n - 1);
    }
  }

  lemma SimulationStep(p: Params, dt: real, e1: real, e2: real, n: nat)
    ensures var views := SimulatedViews(p, dt, e1, e2);
            views(n + 1) == Moved(views(n), OutAt(p, views, n), dt, Times(n + 1, dt))
  {
    SimulationRuns(p, dt, e1, e2, n);
    hide Step, Moved, Times, After;
  }

  lemma MovedIsExact(view: View, out: Out, dt: real, elapsed: real)
    requires view.valid && view.ee
    ensures PlantStep(view, out, Moved(view, out, dt, elapsed), dt)
  {
    hide Travel;
  }

  lemma SimulationIsExact(p: Params, dt: real, e1: real, e2: real)
    ensures ExactPlant(p, SimulatedViews(p, dt, e1, e2), dt)
  {
    hide OutAt, SimulatedViews, PlantStep, Moved, Times;
    var views := SimulatedViews(p, dt, e1, e2);
    forall n: nat
      ensures ExactAt(p, views, dt, n)
    {
      SimulationStep(p, dt, e1, e2, n);
      SimulatedSees(p, dt, e1, e2, n);
      MovedIsExact(views(n), OutAt(p, views, n), dt, Times(n + 1, dt));
    }
  }

  lemma SimulatedSees(p: Params, dt: real, e1: real, e2: real, n: nat)
    ensures var view := SimulatedViews(p, dt, e1, e2)(n);
            !view.estop && view.valid && view.ee && view.elapsed == Times(n, dt)
  {
    hide Step, Travel;
  }

  // Moves that are enough for any distance.
  function MovesFor(distance: real, d: real): nat
    requires distance >= 0.0 && d > 0.0
  {
    (distance / d).Floor + 1
  }

  lemma MovesAreEnough(distance: real, d: real)
    requires distance >= 0.0 && d > 0.0
    ensures Times(MovesFor(distance, d), d) >= distance
  {
    Scale(distance / d, MovesFor(distance, d) as real, d);
  }

  lemma ProgressIsPositive(p: Params, dt: real)
    requires Tuned(p, dt)
    ensures Progress(p, dt) > 0.0
  {
    var v := Velocity(p.kp, p.thr / 2.0, p.limit);
    assert p.kp * (p.thr / 2.0) > 0.0;
    assert v > 0.0;
    assert v * dt > 0.0;
  }

  // Ticks within which the loop is done.
  function TicksFor(p: Params, dt: real, e1: real, e2: real): nat
    requires Tuned(p, dt)
  {
    ProgressIsPositive(p, dt);
    DetectTicks(p) + MovesFor(Abs(e1) + Abs(e2), Progress(p, dt)) + 1
  }

  /** For every start and every tuned controller whose timeout leaves the time for it, the closed
      loop reaches DONE within the computed number of ticks. */
  lemma EveryStartConverges(p: Params, dt: real, e1: real, e2: real)
    requires Tuned(p, dt) && Times(TicksFor(p, dt, e1, e2), dt) <= p.timeout
    ensures Simulated(p, dt, e1, e2, TicksFor(p, dt, e1, e2)).0.mode == Done
  {
    hide Step, Progress, Times, MovesFor, SimulatedViews, Tuned, ExactPlant, Simulated;
    var n, views := TicksFor(p, dt, e1, e2), SimulatedViews(p, dt, e1, e2);
    ProgressIsPositive(p, dt);
    MovesAreEnough(Abs(e1) + Abs(e2), Progress(p, dt));
    SimulationIsExact(p, dt, e1, e2);
    SimulationRuns(p, dt, e1, e2, n);
    SimulationStarts(p, dt, e1, e2);
    forall i: nat | i < n
      ensures Clear(p, views(i))
    {
      SimulatedSees(p, dt, e1, e2, i);
      TimesGrows(i, n, p, dt);
    }
    LoopConverges(p, views, dt, MovesFor(Abs(e1) + Abs(e2), Progress(p, dt)), n);
  }

  lemma SimulationStarts(p: Params, dt: real, e1: real, e2: real)
    ensures Distance(SimulatedViews(p, dt, e1, e2)(0)) == Abs(e1) + Abs(e2)
  {
  }

  lemma TimesGrows(i: nat, n: nat, p: Params, dt: real)
    requires i <= n && Tuned(p, dt)
    ensures Times(i, dt) <= Times(n, dt)
  {
    Scale(i as real, n as real, dt);
  }

  // With m moves done the error is used up, and the next tick sees it.
  lemma TargetReached(p: Params, dt: real, c: Ctrl, view: View, next: View, d0: real, m: nat)
    requires Tuned(p, dt) && Clear(p, view) && PlantStep(view, Step(p, c, view).1, next, dt)
    requires Nearing(p, dt, c, Distance(view), d0, DetectTicks(p) + m) && Times(m, Progress(p, dt)) >= d0
    ensures Step(p, c, view).0.mode == Done
  {
    hide Times, Progress, Near, Distance, Velocity, Travel;
    if c.mode == Align {
      NearAtTarget(view, p.thr);
    }
  }

  lemma NearAtTarget(view: View, thr: real)
    requires Distance(view) <= 0.0 && thr > 0.0
    ensures Near(view.e1, view.e2, thr)
  {
    Product(thr, thr);
  }

  lemma {:induction false} StaysDone(p: Params, views: nat -> View, n: nat, m: nat)
    requires n <= m && After(p, views, n).mode == Done && OnTime(p, views, m)
    ensures After(p, views, m).mode == Done
  {
    if n < m {
      StaysDone(p, views, n, m - 1);
    }
  }

  /** Exactly when a move stays on its side of the target: the gain is small enough for the time
      it acts, or the limit cuts the step short. */
  lemma StaysOnItsSideIff(p: Params, c: Ctrl, view: View, next: View, dt: real)
    requires dt > 0.0 && p.kp > 0.0 && p.limit > 0.0
    requires Step(p, c, view).1.Move? && PlantStep(view, Step(p, c, view).1, next, dt)
    ensures view.e1 != 0.0 ==> (Closer(view.e1, next.e1) <==> p.kp * dt <= 1.0 || p.limit * dt <= Abs(view.e1))
    ensures view.e2 != 0.0 ==> (Closer(view.e2, next.e2) <==> p.kp * dt <= 1.0 || p.limit * dt <= Abs(view.e2))
  {
    hide Near, Velocity, Travel;
    if view.e1 != 0.0 {
      AxisStaysIff(p.kp, p.limit, dt, view.e1);
    }
    if view.e2 != 0.0 {
      AxisStaysIff(p.kp, p.limit, dt, view.e2);
    }
  }

  // ---------------------------------------------------------------- the runner's loops

  const DT := 0.033

  // One iteration of a loop: the runner's own stop flag, the shared E-stop event, the clock,
  // the latest pose, the answer of the pose service (None: it fails and the tick raises), and
  // whether the move service succeeds.
  datatype Moment<P> = Moment(triggered: bool, estop: bool, clock: real, pose: P, ee: Option<Position>, moves: bool)

  // The environment sleeps DT at least between iterations.
  ghost predicate Paced<P>(env: nat -> Moment<P>, start: real) {
    env(0).clock >= start && forall i: nat :: env(i + 1).clock >= env(i).clock + DT
  }

  // The iteration ends the loop with False.
  predicate Blocked<P>(m: Moment<P>, out: Out) {
    m.triggered || out.Raised? || (out.Move? && (out.v1 != 0.0 || out.v2 != 0.0) && !m.moves)
  }

  function HandleViews(start: real, env: nat -> Moment<HandlePose>): nat -> View {
    (i: nat) => HandleView(env(i).estop, env(i).clock - start, env(i).pose, env(i).ee)
  }

  function ToolViews(start: real, env: nat -> Moment<ToolPose>): nat -> View {
    (i: nat) => ToolView(env(i).estop, env(i).clock - start, env(i).pose, env(i).ee)
  }

  ghost predicate RunsTo<P>(p: Params, views: nat -> View, env: nat -> Moment<P>, n: nat) {
    forall i: nat :: i < n ==> !Terminal(After(p, views, i)) && !Blocked(env(i), OutAt(p, views, i))
  }

  // How a loop ends after n whole iterations: in a terminal state, or blocked in the next one.
  ghost predicate Ends<P>(p: Params, views: nat -> View, env: nat -> Moment<P>, n: nat) {
    && RunsTo(p, views, env, n)
    && (Terminal(After(p, views, n)) || Blocked(env(n), OutAt(p, views, n)))
  }

  // n iterations take no longer than the timeout and one sleep more.
  predicate Bounded(p: Params, n: nat) {
    n as real * DT <= Max(p.timeout, 0.0) + 2.0 * DT
  }

  function Floor(x: real): int {
    x.Floor
  }

  // Iterations left before the timeout must end the loop.
  function Budget(timeout: real, elapsed: real): nat {
    if elapsed > timeout then 0 else 1 + Floor((timeout - elapsed) / DT)
  }

  lemma BudgetFalls(timeout: real, before: real, after: real)
    requires before <= timeout && after >= before + DT
    ensures Budget(timeout, after) < Budget(timeout, before)
  {
    if after <= timeout {
      assert (timeout - after) / DT <= (timeout - before) / DT - 1.0;
    }
  }

  lemma {:induction false} ClockRuns<P>(env: nat -> Moment<P>, start: real, n: nat)
    requires Paced(env, start)
    ensures env(n).clock - start >= n as real * DT
  {
    if n > 0 {
      ClockRuns(env, start, n - 1);
      assert env(n - 1 + 1).clock >= env(n - 1).clock + DT;
    }
  }

  // A tick that leaves the loop running was on time.
  lemma StillRunning(p: Params, views: nat -> View, n: nat)
    requires n > 0 && !Terminal(After(p, views, n))
    ensures views(n - 1).elapsed <= p.timeout
  {
    assert After(p, views, n) == Step(p, After(p, views, n - 1), views(n - 1)).0;
  }

  lemma EndIsBounded<P>(p: Params, views: nat -> View, env: nat -> Moment<P>, start: real, n: nat)
    requires Paced(env, start)
    requires forall i: nat :: views(i).elapsed == env(i).clock - start
    requires RunsTo(p, views, env, n)
    ensures Bounded(p, n)
  {
    if n > 1 {
      StillRunning(p, views, n - 1);
      ClockRuns(env, start, n - 2);
      assert n as real * DT == (n - 2) as real * DT + 2.0 * DT;
    }
  }

  lemma RunsOn<P>(p: Params, views: nat -> View, env: nat -> Moment<P>, n: nat)
    requires RunsTo(p, views, env, n) && !Terminal(After(p, views, n)) && !Blocked(env(n), OutAt(p, views, n))
    ensures RunsTo(p, views, env, n + 1)
  {
  }

  // One tick of the controller is one step of the run.
  lemma TickIsStep(p: Params, views: nat -> View, n: nat)
    ensures After(p, views, n + 1) == Step(p, After(p, views, n), views(n)).0
    ensures OutAt(p, views, n) == Step(p, After(p, views, n), views(n)).1
  {
  }

  lemma RunStarts<P>(p: Params, views: nat -> View, env: nat -> Moment<P>)
    ensures RunsTo(p, views, env, 0) && After(p, views, 0) == Ctrl(Detect, 0)
  {
  }

  // The measure of the loops.
  lemma LoopShortens<P>(p: Params, views: nat -> View, env: nat -> Moment<P>, start: real, n: nat)
    requires Paced(env, start) && n > 0 && !Terminal(After(p, views, n))
    requires views(n - 1).elapsed == env(n - 1).clock - start
    ensures Budget(p.timeout, env(n).clock - start) < Budget(p.timeout, env(n - 1).clock - start)
  {
    StillRunning(p, views, n);
    assert env(n - 1 + 1).clock >= env(n - 1).clock + DT;
    BudgetFalls(p.timeout, env(n - 1).clock - start, env(n).clock - start);
  }

  /** _exec_visual_servo, once the configuration is loaded: it ends, whatever poses, E-stops and
      service failures it meets, and succeeds exactly when it ends in DONE. */
  method ExecVisualServo(cfg: ServoConfig, start: real, env: nat -> Moment<HandlePose>) returns (ok: bool, n: nat)
    requires Paced(env, start)
    ensures Ends(HandleParams(cfg), HandleViews(start, env), env, n)
    ensures ok ==> After(HandleParams(cfg), HandleViews(start, env), n).mode == Done
    ensures !ok ==> After(HandleParams(cfg), HandleViews(start, env), n).mode != Done
    ensures Bounded(HandleParams(cfg), n)
  {
    hide Step, Bounded, Budget, RunsTo, After, Paced, OutAt;
    var ctrl := new HandleServoController(cfg, start);
    ghost var p, views := HandleParams(cfg), HandleViews(start, env);
    n := 0;
    RunStarts(p, views, env);
    while ctrl.mode != Done && ctrl.mode != Failed
      invariant ctrl.start == start && ctrl.cfg == cfg && fresh(ctrl)
      invariant ctrl.State() == After(p, views, n) && RunsTo(p, views, env, n)
      decreases if Terminal(ctrl.State()) then 0 else 1, Budget(cfg.timeout, env(n).clock - start)
    {
      EndIsBounded(p, views, env, start, n);
      if env(n).triggered {
        return false, n;
      }
      var cmd := ctrl.Tick(env(n).estop, env(n).clock, env(n).pose, env(n).ee);
      TickIsStep(p, views, n);
      if cmd == None {
        return false, n;
      }
      if !cmd.value.stop && (cmd.value.vx != 0.0 || cmd.value.vz != 0.0) {
        if !env(n).moves {
          return false, n;
        }
      }
      RunsOn(p, views, env, n);
      n := n + 1;
      if ctrl.mode != Done && ctrl.mode != Failed {
        LoopShortens(p, views, env, start, n);
      }
    }
    EndIsBounded(p, views, env, start, n);
    ok := ctrl.mode == Done;
  }

  /** _exec_visual_servo_xy, the same over the tool controller. */
  method ExecVisualServoXy(cfg: ServoConfig, start: real, env: nat -> Moment<ToolPose>) returns (ok: bool, n: nat)
    requires Paced(env, start)
    ensures Ends(ToolParams(cfg), ToolViews(start, env), env, n)
    ensures ok ==> After(ToolParams(cfg), ToolViews(start, env), n).mode == Done
    ensures !ok ==> After(ToolParams(cfg), ToolViews(start, env), n).mode != Done
    ensures Bounded(ToolParams(cfg), n)
  {
    hide Step, Bounded, Budget, RunsTo, After, Paced, OutAt;
    var ctrl := new ToolServoController(cfg, start);
    ghost var p, views := ToolParams(cfg), ToolViews(start, env);
    n := 0;
    RunStarts(p, views, env);
    while ctrl.mode != Done && ctrl.mode != Failed
      invariant ctrl.start == start && ctrl.cfg == cfg && fresh(ctrl)
      invariant ctrl.State() == After(p, views, n) && RunsTo(p, views, env, n)
      decreases if Terminal(ctrl.State()) then 0 else 1, Budget(cfg.timeout, env(n).clock - start)
    {
      EndIsBounded(p, views, env, start, n);
      if env(n).triggered {
        return false, n;
      }
      var cmd := ctrl.Tick(env(n).estop, env(n).clock, env(n).pose, env(n).ee);
      TickIsStep(p, views, n);
      if cmd == None {
        return false, n;
      }
      if !cmd.value.stop && (cmd.value.vx != 0.0 || cmd.value.vy != 0.0) {
        if !env(n).moves {
          return false, n;
        }
      }
      RunsOn(p, views, env, n);
      n := n + 1;
      if ctrl.mode != Done && ctrl.mode != Failed {
        LoopShortens(p, views, env, start, n);
      }
    }
    EndIsBounded(p, views, env, start, n);
    ok := ctrl.mode == Done;
  }

  /** The loop meets the controller: in a converging closed loop that is given the time, with no
      stop flag and a move service that works, a run can only end in DONE, and within the bound
      of LoopConverges. */
  lemma GoodRunSucceeds<P>(p: Params, views: nat -> View, env: nat -> Moment<P>, m: nat, n: nat)
    requires Ends(p, views, env, n)
    requires Tuned(p, DT) && ExactPlant(p, views, DT) && Times(m, Progress(p, DT)) >= Distance(views(0))
    requires OnTime(p, views, DetectTicks(p) + m + 1)
    requires forall i: nat :: !env(i).triggered && env(i).moves
    ensures After(p, views, n).mode == Done && n <= DetectTicks(p) + m + 1
  {
    hide Velocity, Near, Progress, Times, Distance;
    var bound := DetectTicks(p) + m + 1;
    LoopConverges(p, views, DT, m, bound);
    assert n <= bound;
    assert ExactAt(p, views, DT, n);
    LoopNears(p, views, DT, n);
  }

  // ---------------------------------------------------------------- the arm

  // Relative moves at a velocity for one period, as the two runners' loops ask for them.
  function MovelDelta(at: Position, vx: real, vz: real): Position {
    Position(at.x + Travel(vx, DT), at.y, at.z + Travel(vz, DT))
  }

  function MovelDeltaXy(at: Position, vx: real, vy: real): Position {
    Position(at.x + Travel(vx, DT), at.y + Travel(vy, DT), at.z)
  }

  // Where the arm is after a command of the handle controller, and of the tool controller.
  function Driven(at: Position, cmd: VelocityCommand): Position {
    if cmd.stop then at else MovelDelta(at, cmd.vx, cmd.vz)
  }

  function DrivenXy(at: Position, cmd: VelocityCommand): Position {
    if cmd.stop then at else MovelDeltaXy(at, cmd.vx, cmd.vy)
  }

  // Where the arm says it is.
  function Arm<P>(m: Moment<P>): Position {
    if m.ee.Some? then m.ee.value else Position(0.0, 0.0, 0.0)
  }

  // Within thr of the handle in x and z, and of the tool in x and y.
  predicate AtHandle(at: Position, x: real, z: real, thr: real) {
    (at.x - x) * (at.x - x) + (at.z - z) * (at.z - z) <= thr * thr
  }

  predicate AboveTool(at: Position, x: real, y: real, thr: real) {
    (at.x - x) * (at.x - x) + (at.y - y) * (at.y - y) <= thr * thr
  }

  // The pose stays, the pose service answers, and the arm makes exactly the moves it is told.
  ghost predicate HandleEnv(cfg: ServoConfig, start: real, env: nat -> Moment<HandlePose>, x: real, z: real) {
    forall i: nat :: HandleMoment(cfg, start, env, x, z, i)
  }

  ghost predicate HandleMoment(cfg: ServoConfig, start: real, env: nat -> Moment<HandlePose>, x: real, z: real,
                               i: nat) {
    var cmd := XzCommand(OutAt(HandleParams(cfg), HandleViews(start, env), i));
    && env(i).pose == HandlePose(x, z, true) && env(i).ee.Some? && env(i + 1).ee.Some?
    && (cmd.Some? ==> Arm(env(i + 1)) == Driven(Arm(env(i)), cmd.value))
  }

  ghost predicate ToolEnv(cfg: ServoConfig, start: real, env: nat -> Moment<ToolPose>, tool: ToolPose) {
    tool.valid && forall i: nat :: ToolMoment(cfg, start, env, tool, i)
  }

  ghost predicate ToolMoment(cfg: ServoConfig, start: real, env: nat -> Moment<ToolPose>, tool: ToolPose, i: nat) {
    var cmd := XyCommand(OutAt(ToolParams(cfg), ToolViews(start, env), i));
    && env(i).pose == tool && env(i).ee.Some? && env(i + 1).ee.Some?
    && (cmd.Some? ==> Arm(env(i + 1)) == DrivenXy(Arm(env(i)), cmd.value))
  }

  // A command of the handle controller takes the arm towards the handle, and y is locked.
  lemma HandlePlant(p: Params, c: Ctrl, estop: bool, elapsed: real, later: real, handle: HandlePose, at: Position)
    requires handle.valid
    ensures var view := HandleView(estop, elapsed, handle, Some(at));
            var out := Step(p, c, view).1;
            && XzCommand(out).Some?
            && var to := Driven(at, XzCommand(out).value);
               to.y == at.y && PlantStep(view, out, HandleView(estop, later, handle, Some(to)), DT)
  {
    hide Velocity, Travel, Near;
  }

  lemma ToolPlant(p: Params, c: Ctrl, estop: bool, elapsed: real, later: real, tool: ToolPose, at: Position)
    requires tool.valid
    ensures var view := ToolView(estop, elapsed, tool, Some(at));
            var out := Step(p, c, view).1;
            && XyCommand(out).Some?
            && var to := DrivenXy(at, XyCommand(out).value);
               to.z == at.z && PlantStep(view, out, ToolView(estop, later, tool, Some(to)), DT)
  {
    hide Velocity, Travel, Near;
  }

  lemma HandleEnvIsExact(cfg: ServoConfig, start: real, env: nat -> Moment<HandlePose>, x: real, z: real)
    requires HandleEnv(cfg, start, env, x, z)
    ensures ExactPlant(HandleParams(cfg), HandleViews(start, env), DT)
    ensures forall i: nat :: Arm(env(i + 1)).y == Arm(env(i)).y
  {
    hide Step, Driven, OutAt, After;
    var p, views := HandleParams(cfg), HandleViews(start, env);
    forall i: nat
      ensures ExactAt(p, views, DT, i) && Arm(env(i + 1)).y == Arm(env(i)).y
    {
      assert HandleMoment(cfg, start, env, x, z, i) && HandleMoment(cfg, start, env, x, z, i + 1);
      TickIsStep(p, views, i);
      HandlePlant(p, After(p, views, i), env(i).estop, env(i).clock - start, env(i + 1).clock - start, env(i).pose,
                  Arm(env(i)));
    }
  }

  lemma ToolEnvIsExact(cfg: ServoConfig, start: real, env: nat -> Moment<ToolPose>, tool: ToolPose)
    requires ToolEnv(cfg, start, env, tool)
    ensures ExactPlant(ToolParams(cfg), ToolViews(start, env), DT)
    ensures forall i: nat :: Arm(env(i + 1)).z == Arm(env(i)).z
  {
    hide Step, DrivenXy, OutAt, After;
    var p, views := ToolParams(cfg), ToolViews(start, env);
    forall i: nat
      ensures ExactAt(p, views, DT, i) && Arm(env(i + 1)).z == Arm(env(i)).z
    {
      assert ToolMoment(cfg, start, env, tool, i) && ToolMoment(cfg, start, env, tool, i + 1);
      TickIsStep(p, views, i);
      ToolPlant(p, After(p, views, i), env(i).estop, env(i).clock - start, env(i + 1).clock - start, env(i).pose,
                Arm(env(i)));
    }
  }

  // Once in DONE the errors are within the threshold and stay what they are.
  lemma {:induction false} DoneIsNear(p: Params, views: nat -> View, dt: real, n: nat)
    requires ExactPlant(p, views, dt) && After(p, views, n).mode == Done
    ensures Near(views(n).e1, views(n).e2, p.thr)
    decreases n
  {
    hide Near, Velocity, Travel;
    if n > 0 {
      assert ExactAt(p, views, dt, n - 1);
      TickIsStep(p, views, n - 1);
      if After(p, views, n - 1).mode == Done {
        DoneIsNear(p, views, dt, n - 1);
      }
    }
  }

  lemma {:induction false} HandleKeepsY(env: nat -> Moment<HandlePose>, n: nat)
    requires forall i: nat :: Arm(env(i + 1)).y == Arm(env(i)).y
    ensures Arm(env(n)).y == Arm(env(0)).y
  {
    if n > 0 {
      HandleKeepsY(env, n - 1);
      assert Arm(env(n - 1 + 1)).y == Arm(env(n - 1)).y;
    }
  }

  lemma {:induction false} ToolKeepsZ(env: nat -> Moment<ToolPose>, n: nat)
    requires forall i: nat :: Arm(env(i + 1)).z == Arm(env(i)).z
    ensures Arm(env(n)).z == Arm(env(0)).z
  {
    if n > 0 {
      ToolKeepsZ(env, n - 1);
      assert Arm(env(n - 1 + 1)).z == Arm(env(n - 1)).z;
    }
  }

  // Nothing ends the loop before the controller does.
  ghost predicate Unhindered<P>(p: Params, views: nat -> View, env: nat -> Moment<P>)
    requires Tuned(p, DT)
  {
    && OnTime(p, views, TicksFor(p, DT, views(0).e1, views(0).e2))
    && forall i: nat :: !env(i).triggered && env(i).moves
  }

  lemma EndsDone<P>(p: Params, views: nat -> View, env: nat -> Moment<P>, n: nat)
    requires Ends(p, views, env, n) && Tuned(p, DT) && ExactPlant(p, views, DT) && Unhindered(p, views, env)
    ensures After(p, views, n).mode == Done && n <= TicksFor(p, DT, views(0).e1, views(0).e2)
  {
    hide Ends, ExactPlant, Tuned, Progress, Times;
    ProgressIsPositive(p, DT);
    var m := MovesFor(Distance(views(0)), Progress(p, DT));
    MovesAreEnough(Distance(views(0)), Progress(p, DT));
    GoodRunSucceeds(p, views, env, m, n);
  }

  /** The arm arrives. However it starts, a tuned run of the handle loop over a handle that stays
      where it is ends in DONE within the computed number of ticks, with the arm within the
      threshold of the handle in x and z and its y untouched. */
  lemma ArmReachesHandle(cfg: ServoConfig, start: real, env: nat -> Moment<HandlePose>, x: real, z: real, n: nat)
    requires HandleEnv(cfg, start, env, x, z) && Ends(HandleParams(cfg), HandleViews(start, env), env, n)
    requires Tuned(HandleParams(cfg), DT) && Unhindered(HandleParams(cfg), HandleViews(start, env), env)
    ensures var p, views := HandleParams(cfg), HandleViews(start, env);
            After(p, views, n).mode == Done && n <= TicksFor(p, DT, views(0).e1, views(0).e2)
    ensures var at := Arm(env(n));
            AtHandle(at, x, z, cfg.xzThr) && at.y == Arm(env(0)).y
  {
    hide Ends, Unhindered, OutAt, After, TicksFor;
    var p, views := HandleParams(cfg), HandleViews(start, env);
    HandleEnvIsExact(cfg, start, env, x, z);
    EndsDone(p, views, env, n);
    DoneIsNear(p, views, DT, n);
    HandleKeepsY(env, n);
    assert HandleMoment(cfg, start, env, x, z, n);
    NearIsClose(x, z, Arm(env(n)).x, Arm(env(n)).z, cfg.xzThr);
  }

  /** The same for the tool loop: within the threshold of the tool in x and y, z untouched. */
  lemma ArmReachesTool(cfg: ServoConfig, start: real, env: nat -> Moment<ToolPose>, tool: ToolPose, n: nat)
    requires ToolEnv(cfg, start, env, tool) && Ends(ToolParams(cfg), ToolViews(start, env), env, n)
    requires Tuned(ToolParams(cfg), DT) && Unhindered(ToolParams(cfg), ToolViews(start, env), env)
    ensures var p, views := ToolParams(cfg), ToolViews(start, env);
            After(p, views, n).mode == Done && n <= TicksFor(p, DT, views(0).e1, views(0).e2)
    ensures var at := Arm(env(n));
            AboveTool(at, tool.x, tool.y, cfg.xyThr) && at.z == Arm(env(0)).z
  {
    hide Ends, Unhindered, OutAt, After, TicksFor;
    var p, views := ToolParams(cfg), ToolViews(start, env);
    ToolEnvIsExact(cfg, start, env, tool);
    EndsDone(p, views, env, n);
    DoneIsNear(p, views, DT, n);
    ToolKeepsZ(env, n);
    assert ToolMoment(cfg, start, env, tool, n);
    NearIsClose(tool.x, tool.y, Arm(env(n)).x, Arm(env(n)).y, cfg.xyThr);
  }

  lemma NearIsClose(a: real, b: real, u: real, v: real, thr: real)
    ensures Near(a - u, b - v, thr) <==> thr >= 0.0 && (u - a) * (u - a) + (v - b) * (v - b) <= thr * thr
  {
    assert (a - u) * (a - u) == (u - a) * (u - a) && (b - v) * (b - v) == (v - b) * (v - b);
  }

  /** Exactly when an ALIGN tick that sees its target ends the alignment: when the arm is within
      the threshold of it. */
  lemma AlignsIffClose(cfg: ServoConfig, c: Ctrl, elapsed: real, at: Position, handle: HandlePose, tool: ToolPose)
    requires c.mode == Align && elapsed <= cfg.timeout && handle.valid && tool.valid
    ensures cfg.xzThr >= 0.0 ==>
              (Step(HandleParams(cfg), c, HandleView(false, elapsed, handle, Some(at))).0.mode == Done
               <==> AtHandle(at, handle.x, handle.z, cfg.xzThr))
    ensures cfg.xyThr >= 0.0 ==>
              (Step(ToolParams(cfg), c, ToolView(false, elapsed, tool, Some(at))).0.mode == Done
               <==> AboveTool(at, tool.x, tool.y, cfg.xyThr))
  {
    hide Velocity;
    NearIsClose(handle.x, handle.z, at.x, at.z, cfg.xzThr);
    NearIsClose(tool.x, tool.y, at.x, at.y, cfg.xyThr);
    hide Near;
  }
}
