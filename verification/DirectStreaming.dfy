/** Streaming direct commands: the node skips duplicates and sends the current only when it
    changes. The gripper is modelled down to decoding the Modbus frames it receives. */
module DirectStreaming {
  import opened Wrappers
  import opened BitArithmetic
  import opened ModbusFrames
  import GripperConversion

  datatype Config = Config(slave: Byte, curReg: Word, posReg: Word, posRegs: int, fc16: bool, scale: real)

  // The current register is not one of the position registers.
  predicate Separate(c: Config) {
    c.curReg != c.posReg && c.curReg != c.posReg + 1 && c.posReg + 1 < 65536
  }

  type Registers = map<nat, Word>

  // ---------------------------------------------------------------- the gripper

  function WriteFrom(regs: Registers, addr: nat, values: seq<Word>): Registers
    decreases |values|
  {
    if values == [] then regs else WriteFrom(regs[addr := values[0]], addr + 1, values[1..])
  }

  /** The gripper decodes a frame and obeys it; a frame it cannot decode changes nothing. */
  function ApplyFrame(slave: Byte, regs: Registers, frame: seq<Byte>): Registers {
    match Decode(slave, frame)
    case Some(WriteOne(addr, value)) => regs[addr := value]
    case Some(WriteMany(addr, _, values)) => WriteFrom(regs, addr, values)
    case _ => regs
  }

  function ApplyAll(slave: Byte, regs: Registers, frames: seq<seq<Byte>>): Registers
    decreases |frames|
  {
    if frames == [] then regs else ApplyAll(slave, ApplyFrame(slave, regs, frames[0]), frames[1..])
  }

  // ---------------------------------------------------------------- the frames sent

  function Goal(c: Config, pulse: int): Word {
    GripperConversion.RoundHalfEven(Scaled(c, pulse)) % 65536
  }

  // A scale of zero stands for one.
  function Scaled(c: Config, pulse: int): real {
    pulse as real * (if c.scale == 0.0 then 1.0 else c.scale)
  }

  predicate IsNearest(n: int, x: real) {
    -0.5 <= n as real - x <= 0.5
  }

  /** The goal is the scaled pulse to the nearest integer, half an increment off at most, taken
      modulo 65536; inside the word's range nothing is cut off. */
  lemma GoalIsScaledPulse(c: Config, pulse: int)
    ensures exists n: int :: IsNearest(n, Scaled(c, pulse)) && Goal(c, pulse) == n % 65536
    ensures 0.0 <= Scaled(c, pulse) <= 65535.0 ==> IsNearest(Goal(c, pulse), Scaled(c, pulse))
  {
    hide Scaled;
    var x := Scaled(c, pulse);
    GripperConversion.RoundIsNear(x);
    GripperConversion.RoundOfInt(0);
    GripperConversion.RoundOfInt(65535);
    if 0.0 <= x <= 65535.0 {
      GripperConversion.RoundIsMonotone(0.0, x);
      GripperConversion.RoundIsMonotone(x, 65535.0);
    }
    hide GripperConversion.RoundHalfEven;
    var g := GripperConversion.RoundHalfEven(x);
    assert IsNearest(g, x) && Goal(c, pulse) == g % 65536;
  }

  function PositionRequest(c: Config, pulse: int): Request {
    if c.posRegs > 1 && c.fc16 then WriteMany(c.posReg, 2, [Goal(c, pulse), 0]) else WriteOne(c.posReg, Goal(c, pulse))
  }

  function CurrentFrame(c: Config, cur: Word): seq<Byte> {
    Frame(c.slave, WriteOne(c.curReg, cur))
  }

  function PositionFrame(c: Config, pulse: int): seq<Byte> {
    Frame(c.slave, PositionRequest(c, pulse))
  }

  // The register contents the two frames ask for.
  function WithCurrent(c: Config, regs: Registers, cur: Word): Registers {
    regs[c.curReg := cur]
  }

  function WithPosition(c: Config, regs: Registers, pulse: int): Registers {
    var low := regs[c.posReg := Goal(c, pulse)];
    if c.posRegs > 1 && c.fc16 then low[c.posReg + 1 := 0] else low
  }

  lemma CurrentFrameWrites(c: Config, regs: Registers, cur: Word)
    ensures ApplyFrame(c.slave, regs, CurrentFrame(c, cur)) == WithCurrent(c, regs, cur)
  {
    FrameDecodes(c.slave, WriteOne(c.curReg, cur));
  }

  lemma PositionFrameWrites(c: Config, regs: Registers, pulse: int)
    ensures ApplyFrame(c.slave, regs, PositionFrame(c, pulse)) == WithPosition(c, regs, pulse)
  {
    var req := PositionRequest(c, pulse);
    FrameDecodes(c.slave, req);
    if req.WriteMany? {
      hide Goal;
      var g := Goal(c, pulse);
      assert [g, 0][1..] == [0];
      assert WriteFrom(regs[c.posReg := g], c.posReg + 1, [0]) == regs[c.posReg := g][c.posReg + 1 := 0];
    }
  }

  lemma FramesWrite(c: Config, regs: Registers, pulse: int, cur: Word)
    ensures ApplyAll(c.slave, regs, [PositionFrame(c, pulse)]) == WithPosition(c, regs, pulse)
    ensures ApplyAll(c.slave, regs, [CurrentFrame(c, cur)] + [PositionFrame(c, pulse)])
         == WithPosition(c, WithCurrent(c, regs, cur), pulse)
  {
    var a, b := CurrentFrame(c, cur), PositionFrame(c, pulse);
    CurrentFrameWrites(c, regs, cur);
    PositionFrameWrites(c, regs, pulse);
    PositionFrameWrites(c, WithCurrent(c, regs, cur), pulse);
    hide CurrentFrame, PositionFrame, WithCurrent, WithPosition, ApplyFrame;
    assert ([a] + [b])[1..] == [b];
    OneFrame(c, regs, b);
    OneFrame(c, ApplyFrame(c.slave, regs, a), b);
  }

  lemma OneFrame(c: Config, regs: Registers, frame: seq<Byte>)
    ensures ApplyAll(c.slave, regs, [frame]) == ApplyFrame(c.slave, regs, frame)
  {
    var none := [frame][1..];
    assert |none| == 0;
  }

  // ---------------------------------------------------------------- sending

  // What the gripper gets of a batch: an exception at the server can cut it before either frame.
  datatype Fate = All | CurrentOnly | Nothing

  // `online` is the socket flag, `sent` whether the node's send returned, which without an
  // acknowledgement says nothing about `fate`.
  datatype Command = Command(pulse: int, cur: int, online: bool, sent: bool, fate: Fate)

  // What the node remembers having sent last, and the registers of the gripper.
  datatype State = State(lastPulse: Option<int>, lastCur: Option<int>, regs: Registers)

  // The batch leaves the node.
  predicate Leaves(cmd: Command) {
    cmd.online && cmd.sent && IsWord(cmd.cur)
  }

  function GotPosition(c: Config, regs: Registers, cmd: Command): Registers {
    if cmd.fate == All then WithPosition(c, regs, cmd.pulse) else regs
  }

  function GotBoth(c: Config, regs: Registers, cmd: Command): Registers
    requires IsWord(cmd.cur)
  {
    if cmd.fate == Nothing then regs else GotPosition(c, WithCurrent(c, regs, cmd.cur), cmd)
  }

  /** Sending both frames. */
  function SendFull(c: Config, regs: Registers, cmd: Command): Registers {
    if Leaves(cmd) then GotBoth(c, regs, cmd) else regs
  }

  /** Sending what changed. */
  function SendDelta(c: Config, s: State, cmd: Command): State {
    var sameCur := s.lastCur == Some(cmd.cur);
    if (s.lastPulse == Some(cmd.pulse) && sameCur) || !cmd.online || !cmd.sent || (!sameCur && !IsWord(cmd.cur)) then s
    else
      State(Some(cmd.pulse), Some(cmd.cur), if sameCur then GotPosition(c, s.regs, cmd) else GotBoth(c, s.regs, cmd))
  }

  // The frames of a batch that reach the gripper; the position frame is the last.
  function Reaching(frames: seq<seq<Byte>>, fate: Fate): seq<seq<Byte>>
    requires frames != []
  {
    match fate
    case All => frames
    case CurrentOnly => frames[..|frames| - 1]
    case Nothing => []
  }

  lemma PositionReaches(c: Config, regs: Registers, cmd: Command)
    ensures ApplyAll(c.slave, regs, Reaching([PositionFrame(c, cmd.pulse)], cmd.fate)) == GotPosition(c, regs, cmd)
  {
    PositionFrameWrites(c, regs, cmd.pulse);
    hide PositionFrame, ApplyFrame, WithPosition;
    var alone := [PositionFrame(c, cmd.pulse)];
    OneFrame(c, regs, alone[0]);
    NoFrames(c, regs, alone[..0]);
    NoFrames(c, regs, []);
  }

  lemma BothReach(c: Config, regs: Registers, cmd: Command)
    requires IsWord(cmd.cur)
    ensures ApplyAll(c.slave, regs, Reaching([CurrentFrame(c, cmd.cur)] + [PositionFrame(c, cmd.pulse)], cmd.fate))
         == GotBoth(c, regs, cmd)
  {
    FramesWrite(c, regs, cmd.pulse, cmd.cur);
    CurrentFrameWrites(c, regs, cmd.cur);
    hide CurrentFrame, PositionFrame, ApplyFrame, ApplyAll, WithCurrent, WithPosition;
    var both := [CurrentFrame(c, cmd.cur)] + [PositionFrame(c, cmd.pulse)];
    OneFrame(c, regs, both[0]);
    NoFrames(c, regs, []);
    assert both[..1] == [both[0]];
  }

  lemma NoFrames(c: Config, regs: Registers, frames: seq<seq<Byte>>)
    requires |frames| == 0
    ensures ApplyAll(c.slave, regs, frames) == regs
  {
  }

  /** The node's side of a direct command stream, with the gripper behind it. */
  class DirectSender {
    const c: Config
    var lastPulse: Option<int>
    var lastCur: Option<int>
    var regs: Registers

    constructor (c: Config, regs: Registers)
      ensures this.c == c && Now() == State(None, None, regs)
    {
      this.c, this.regs := c, regs;
      lastPulse, lastCur := None, None;
    }

    function Now(): State
      reads this
    {
      State(lastPulse, lastCur, regs)
    }

    /** _direct_cmd_streaming_inline; `raised` when struct.pack refuses the current. */
    method DirectCommand(cmd: Command) returns (raised: bool)
      modifies this
      ensures Now() == SendDelta(c, old(Now()), cmd)
      ensures raised <==> cmd.online && old(lastCur) != Some(cmd.cur) && !IsWord(cmd.cur)
    {
      hide ApplyAll, PositionFrame, Frame, GotPosition, GotBoth, Reaching;
      raised := false;
      if lastPulse == Some(cmd.pulse) && lastCur == Some(cmd.cur) {
        return;
      }
      if !cmd.online {
        return;
      }
      var frames := [PositionFrame(c, cmd.pulse)];
      if lastCur != Some(cmd.cur) {
        var frame := NodeFc06(c.slave, c.curReg, cmd.cur);
        if frame == None {
          return true;
        }
        frames := [frame.value] + frames;
      }
      if !cmd.sent {
        return;
      }
      PositionReaches(c, regs, cmd);
      if IsWord(cmd.cur) {
        BothReach(c, regs, cmd);
      }
      regs := ApplyAll(c.slave, regs, Reaching(frames, cmd.fate));
      lastPulse, lastCur := Some(cmd.pulse), Some(cmd.cur);
    }

    /** The write of _set_position_callback: both frames, acknowledged or not, and no record of it. */
    method SetPosition(cmd: Command)
      modifies this`regs
      ensures regs == SendFull(c, old(regs), cmd)
    {
      hide ApplyAll, PositionFrame, Frame, GotPosition, GotBoth, Reaching;
      if !cmd.online {
        return;
      }
      var frame := NodeFc06(c.slave, c.curReg, cmd.cur);
      if frame == None || !cmd.sent {
        return;
      }
      BothReach(c, regs, cmd);
      regs := ApplyAll(c.slave, regs, Reaching([frame.value] + [PositionFrame(c, cmd.pulse)], cmd.fate));
    }
  }

  // ---------------------------------------------------------------- one command

  // Only words are ever remembered as sent.
  predicate Remembers(s: State) {
    s.lastCur.Some? ==> IsWord(s.lastCur.value)
  }

  predicate HoldsCurrent(c: Config, regs: Registers, cur: int) {
    c.curReg in regs && regs[c.curReg] == cur
  }

  predicate HoldsPosition(c: Config, regs: Registers, pulse: int) {
    WithPosition(c, regs, pulse) == regs
  }

  // Of what the command would write, the registers hold what the node leaves out.
  predicate Skippable(c: Config, s: State, cmd: Command) {
    Leaves(cmd) && cmd.fate != Nothing && s.lastCur == Some(cmd.cur) ==>
      && HoldsCurrent(c, s.regs, cmd.cur)
      && (s.lastPulse == Some(cmd.pulse) && cmd.fate == All ==> HoldsPosition(c, s.regs, cmd.pulse))
  }

  lemma CurrentHeld(c: Config, regs: Registers, cur: Word)
    ensures WithCurrent(c, regs, cur) == regs <==> HoldsCurrent(c, regs, cur)
  {
  }

  lemma PositionKeepsCurrent(c: Config, regs: Registers, pulse: int)
    requires Separate(c)
    ensures c.curReg in WithPosition(c, regs, pulse) <==> c.curReg in regs
    ensures c.curReg in regs ==> WithPosition(c, regs, pulse)[c.curReg] == regs[c.curReg]
  {
    hide Goal;
  }

  /** One direct command in any state: sending what changed leaves the gripper where sending both
      frames would exactly when the registers hold what is left out. */
  lemma DeltaStepIsFullIff(c: Config, s: State, cmd: Command)
    requires Separate(c) && Remembers(s)
    ensures SendDelta(c, s, cmd).regs == SendFull(c, s.regs, cmd) <==> Skippable(c, s, cmd)
    ensures Remembers(SendDelta(c, s, cmd))
  {
    hide WithPosition;
    if Leaves(cmd) && cmd.fate != Nothing && s.lastCur == Some(cmd.cur) {
      var with := WithCurrent(c, s.regs, cmd.cur);
      CurrentHeld(c, s.regs, cmd.cur);
      PositionKeepsCurrent(c, s.regs, cmd.pulse);
      PositionKeepsCurrent(c, with, cmd.pulse);
    }
  }

  // ---------------------------------------------------------------- runs

  datatype Event = Direct(cmd: Command) | SetPosition(cmd: Command)

  function StepDelta(c: Config, s: State, e: Event): State {
    match e
    case Direct(cmd) => SendDelta(c, s, cmd)
    case SetPosition(cmd) => s.(regs := SendFull(c, s.regs, cmd))
  }

  function RunDelta(c: Config, s: State, events: seq<Event>): State
    decreases |events|
  {
    if events == [] then s else RunDelta(c, StepDelta(c, s, events[0]), events[1..])
  }

  // The same events with both frames sent every time.
  function RunFull(c: Config, regs: Registers, events: seq<Event>): Registers
    decreases |events|
  {
    if events == [] then regs else RunFull(c, SendFull(c, regs, events[0].cmd), events[1..])
  }

  // After every part of the run the registers are the same either way.
  ghost predicate SameThroughout(c: Config, s: State, events: seq<Event>) {
    forall k :: 0 <= k <= |events| ==> RunDelta(c, s, events[..k]).regs == RunFull(c, s.regs, events[..k])
  }

  // At every direct command the registers hold what is left out.
  predicate AllSkippable(c: Config, s: State, events: seq<Event>)
    decreases |events|
  {
    events == [] ||
    ((events[0].Direct? ==> Skippable(c, s, events[0].cmd)) && AllSkippable(c, StepDelta(c, s, events[0]), events[1..]))
  }

  lemma RunStep(c: Config, s: State, events: seq<Event>, k: nat)
    requires 0 < k <= |events|
    ensures RunDelta(c, s, events[..k]) == RunDelta(c, StepDelta(c, s, events[0]), events[1..][..k - 1])
    ensures RunFull(c, s.regs, events[..k]) == RunFull(c, SendFull(c, s.regs, events[0].cmd), events[1..][..k - 1])
  {
    assert events[..k][1..] == events[1..][..k - 1];
  }

  lemma NoEvents(c: Config, s: State, events: seq<Event>)
    requires |events| == 0
    ensures RunDelta(c, s, events) == s && RunFull(c, s.regs, events) == s.regs
  {
  }

  /** Exactly when delta sending preserves meaning: over every mix of direct commands and
      set_positions, failed, lost and cut ones included, the registers are throughout what full
      sending makes them if and only if they hold, at every direct command, what is left out. */
  lemma {:induction false} MixedRunIff(c: Config, s: State, events: seq<Event>)
    requires Separate(c) && Remembers(s)
    ensures SameThroughout(c, s, events) <==> AllSkippable(c, s, events)
    decreases |events|
  {
    hide SendDelta, SendFull, Skippable, RunDelta, RunFull;
    if events == [] {
      NoEvents(c, s, events[..0]);
      assert forall k :: 0 <= k <= |events| ==> events[..k] == events[..0];
    } else {
      var next, later := StepDelta(c, s, events[0]), events[1..];
      var full := SendFull(c, s.regs, events[0].cmd);
      if events[0].Direct? {
        DeltaStepIsFullIff(c, s, events[0].cmd);
      }
      NoEvents(c, s, events[..0]);
      NoEvents(c, next, later[..0]);
      NoEvents(c, next.(regs := full), later[..0]);
      RunStep(c, s, events, 1);
      if next.regs == full {
        MixedRunIff(c, next, later);
        forall k | 0 < k <= |events|
          ensures RunDelta(c, s, events[..k]) == RunDelta(c, next, later[..k - 1])
          ensures RunFull(c, s.regs, events[..k]) == RunFull(c, next.regs, later[..k - 1])
        {
          RunStep(c, s, events, k);
        }
        SameShifts(c, s, next, events);
      } else {
        assert RunDelta(c, s, events[..1]).regs != RunFull(c, s.regs, events[..1]);
      }
    }
  }

  lemma SameShifts(c: Config, s: State, next: State, events: seq<Event>)
    requires events != []
    requires RunDelta(c, s, events[..0]).regs == RunFull(c, s.regs, events[..0])
    requires forall k :: 0 < k <= |events| ==> RunDelta(c, s, events[..k]) == RunDelta(c, next, events[1..][..k - 1])
    requires forall k :: 0 < k <= |events| ==>
               RunFull(c, s.regs, events[..k]) == RunFull(c, next.regs, events[1..][..k - 1])
    ensures SameThroughout(c, s, events) <==> SameThroughout(c, next, events[1..])
  {
    hide RunDelta, RunFull;
    var later := events[1..];
    if SameThroughout(c, s, events) {
      forall k | 0 <= k <= |later|
        ensures RunDelta(c, next, later[..k]).regs == RunFull(c, next.regs, later[..k])
      {
        assert RunDelta(c, s, events[..k + 1]) == RunDelta(c, next, later[..k + 1 - 1]);
        assert RunFull(c, s.regs, events[..k + 1]) == RunFull(c, next.regs, later[..k + 1 - 1]);
      }
    }
  }

  // ---------------------------------------------------------------- direct commands that arrive

  // The registers hold what was sent last.
  predicate InStep(c: Config, s: State) {
    s.lastCur.Some? ==>
      && IsWord(s.lastCur.value) && HoldsCurrent(c, s.regs, s.lastCur.value)
      && (s.lastPulse.Some? ==> HoldsPosition(c, s.regs, s.lastPulse.value))
  }

  // A direct command whose batch, if it leaves the node, is written in full.
  predicate Arrives(e: Event) {
    e.Direct? && (Leaves(e.cmd) ==> e.cmd.fate == All)
  }

  lemma ArrivalKeepsStep(c: Config, s: State, e: Event)
    requires Separate(c) && InStep(c, s) && Arrives(e)
    ensures InStep(c, StepDelta(c, s, e)) && Skippable(c, s, e.cmd)
  {
    hide Goal;
  }

  /** For every run of direct commands, failed sends and refused currents included, in which every
      batch that leaves the node is written, the goal registers are throughout those of full
      sending. */
  lemma DeltaMeansFull(c: Config, s: State, events: seq<Event>)
    requires Separate(c) && InStep(c, s) && forall e :: e in events ==> Arrives(e)
    ensures SameThroughout(c, s, events)
    ensures InStep(c, RunDelta(c, s, events))
  {
    ArrivingRun(c, s, events);
    MixedRunIff(c, s, events);
  }

  lemma {:induction false} ArrivingRun(c: Config, s: State, events: seq<Event>)
    requires Separate(c) && InStep(c, s) && forall e :: e in events ==> Arrives(e)
    ensures AllSkippable(c, s, events) && InStep(c, RunDelta(c, s, events))
    decreases |events|
  {
    hide StepDelta, InStep, Skippable;
    if events != [] {
      ArrivalKeepsStep(c, s, events[0]);
      ArrivingRun(c, StepDelta(c, s, events[0]), events[1..]);
    }
  }

  // ---------------------------------------------------------------- what breaks the step

  /** What a set_position does to a node that is in step: it stays in step exactly if the same
      current and the same goal were written. */
  lemma SetPositionKeepsStepIff(c: Config, s: State, cmd: Command)
    requires Separate(c) && InStep(c, s) && s.lastCur.Some? && s.lastPulse.Some?
    requires Leaves(cmd) && cmd.fate == All
    ensures InStep(c, StepDelta(c, s, SetPosition(cmd)))
       <==> cmd.cur == s.lastCur.value && Goal(c, cmd.pulse) == Goal(c, s.lastPulse.value)
  {
    hide Goal;
    var regs := SendFull(c, s.regs, cmd);
    assert regs[c.curReg] == cmd.cur && regs[c.posReg] == Goal(c, cmd.pulse);
    assert WithPosition(c, regs, s.lastPulse.value)[c.posReg] == Goal(c, s.lastPulse.value);
  }

  lemma RunFirst(c: Config, s: State, x: Event, later: seq<Event>)
    ensures RunDelta(c, s, [x] + later) == RunDelta(c, StepDelta(c, s, x), later)
    ensures RunFull(c, s.regs, [x] + later) == RunFull(c, SendFull(c, s.regs, x.cmd), later)
  {
    assert ([x] + later)[1..] == later;
  }

  lemma RunThree(c: Config, s: State, x: Event, y: Event, z: Event)
    ensures RunDelta(c, s, [x, y, z]) == StepDelta(c, StepDelta(c, StepDelta(c, s, x), y), z)
    ensures RunFull(c, s.regs, [x, y, z]) ==
            SendFull(c, SendFull(c, SendFull(c, s.regs, x.cmd), y.cmd), z.cmd)
  {
    hide StepDelta, SendFull;
    var s1 := StepDelta(c, s, x);
    var s2 := StepDelta(c, s1, y);
    var r1 := SendFull(c, s.regs, x.cmd);
    var r2 := SendFull(c, r1, y.cmd);
    RunFirst(c, s, x, [y, z]);
    RunFirst(c, s1, y, [z]);
    RunFirst(c, s2, z, []);
    RunFirst(c, s.(regs := r1), y, [z]);
    RunFirst(c, s.(regs := r2), z, []);
    assert [x] + [y, z] == [x, y, z] && [y] + [z] == [y, z] && [z] + [] == [z];
  }

  /** A trace for every gripper: a command, a set_position to another goal, the command again. The
      repeat is taken for a duplicate, and the gripper stays where the set_position put it. */
  lemma SkippedReopen(c: Config, regs: Registers, open: Command, closed: Command)
    requires Separate(c) && Leaves(open) && Leaves(closed) && open.fate == All && closed.fate == All
    ensures var events := [Direct(open), SetPosition(closed), Direct(open)];
            var delta, full := RunDelta(c, State(None, None, regs), events).regs, RunFull(c, regs, events);
            && c.posReg in delta && delta[c.posReg] == Goal(c, closed.pulse)
            && c.posReg in full && full[c.posReg] == Goal(c, open.pulse)
  {
    hide Goal;
    RunThree(c, State(None, None, regs), Direct(open), SetPosition(closed), Direct(open));
    hide RunDelta, RunFull;
  }

  /** A lost batch is not sent again: the send returned, nothing was written, and the repeat is
      taken for a duplicate. */
  lemma LostBatchIsNotRepeated(c: Config, regs: Registers, cmd: Command)
    requires Separate(c) && Leaves(cmd) && cmd.fate == All
    ensures var events := [Direct(cmd.(fate := Nothing)), Direct(cmd), Direct(cmd)];
            && RunDelta(c, State(None, None, regs), events).regs == regs
            && HoldsCurrent(c, RunFull(c, regs, events), cmd.cur)
  {
    hide Goal;
    RunThree(c, State(None, None, regs), Direct(cmd.(fate := Nothing)), Direct(cmd), Direct(cmd));
    hide RunDelta, RunFull;
  }
}
