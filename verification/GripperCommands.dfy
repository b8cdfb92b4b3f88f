/** What travels inside the packets: the batch of Modbus frames of a command, its
    acknowledgement, and how the injected server works through a batch of packets. */
module GripperCommands {
  import opened Wrappers
  import opened BitArithmetic
  import opened PacketStream
  import ModbusCrc
  import ModbusFrames

  type Frame = seq<Byte>

  const T_PING: Byte := 1
  const T_PONG: Byte := 2
  const T_CMD: Byte := 3
  const T_ACK: Byte := 4
  const T_STOP: Byte := 6

  predicate Packable(frames: seq<Frame>) {
    |frames| < 65536 && forall k :: 0 <= k < |frames| ==> |frames[k]| < 65536
  }

  function EncodeFrames(frames: seq<Frame>): seq<Byte>
    requires forall k :: 0 <= k < |frames| ==> |frames[k]| < 65536
  {
    if frames == [] then [] else HighFirst(|frames[0]|) + frames[0] + EncodeFrames(frames[1..])
  }

  /** The payload the node builds; struct.pack raises on counts above sixteen bits. */
  function EncodeCommand(frames: seq<Frame>): seq<Byte>
    requires Packable(frames)
  {
    HighFirst(|frames|) + EncodeFrames(frames)
  }

  // The frames cut off before the data ran out, and whether it lasted for all of them.
  datatype Decoded = Decoded(frames: seq<Frame>, complete: bool)

  function DecodeFrames(data: seq<Byte>, n: nat): (d: Decoded)
    ensures |d.frames| <= n && (d.complete <==> |d.frames| == n)
    decreases n
  {
    if n == 0 then Decoded([], true)
    else if |data| < 2 || |data| < 2 + WordAt(data, 0) then Decoded([], false)
    else
      var size := 2 + WordAt(data, 0);
      var later := DecodeFrames(data[size..], n - 1);
      Decoded([data[2..size]] + later.frames, later.complete)
  }

  function DecodeCommand(payload: seq<Byte>): Decoded {
    if |payload| < 2 then Decoded([], false)
    else DecodeFrames(payload[2..], WordAt(payload, 0))
  }

  // An exception after k frames of a command: at the write of the next one, or in the wait and
  // flush behind the last; or none at all.
  type Break = Option<nat>

  function Written(d: Decoded, brk: Break): seq<Frame> {
    if brk.Some? && brk.value < |d.frames| then d.frames[..brk.value] else d.frames
  }

  predicate Raises(d: Decoded, brk: Break) {
    brk.Some? && brk.value <= |d.frames|
  }

  predicate Succeeds(d: Decoded, brk: Break) {
    d.complete && !Raises(d, brk)
  }

  // ---------------------------------------------------------------- commands

  lemma FramesHead(f: Frame, tail: seq<Byte>)
    requires |f| < 65536
    ensures var s := HighFirst(|f|) + f + tail;
            |s| == 2 + |f| + |tail| && WordAt(s, 0) == |f| && s[2..2 + |f|] == f && s[2 + |f|..] == tail
  {
  }

  lemma FirstFrameDecodes(f: Frame, tail: seq<Byte>, n: nat)
    requires |f| < 65536 && n > 0
    ensures var later := DecodeFrames(tail, n - 1);
            DecodeFrames(HighFirst(|f|) + f + tail, n) == Decoded([f] + later.frames, later.complete)
  {
    FramesHead(f, tail);
    hide HighFirst, WordAt;
  }

  lemma {:induction false} FramesRoundTrip(frames: seq<Frame>, tail: seq<Byte>)
    requires forall k :: 0 <= k < |frames| ==> |frames[k]| < 65536
    ensures DecodeFrames(EncodeFrames(frames) + tail, |frames|) == Decoded(frames, true)
  {
    if frames != [] {
      var more := EncodeFrames(frames[1..]) + tail;
      assert EncodeFrames(frames) + tail == HighFirst(|frames[0]|) + frames[0] + more;
      hide EncodeFrames, DecodeFrames, HighFirst;
      FirstFrameDecodes(frames[0], more, |frames|);
      FramesRoundTrip(frames[1..], tail);
      assert [frames[0]] + frames[1..] == frames;
    }
  }

  /** The server decodes exactly the frames the node encoded; trailing bytes do not matter. */
  lemma CommandRoundTrip(frames: seq<Frame>, tail: seq<Byte>)
    requires Packable(frames)
    ensures DecodeCommand(EncodeCommand(frames) + tail) == Decoded(frames, true)
  {
    var s := EncodeCommand(frames) + tail;
    assert s[2..] == EncodeFrames(frames) + tail;
    FramesRoundTrip(frames, tail);
  }

  lemma {:induction false} FramesAreEncoded(data: seq<Byte>, n: nat)
    requires DecodeFrames(data, n).complete
    ensures forall k :: 0 <= k < n ==> |DecodeFrames(data, n).frames[k]| < 65536
    ensures EncodeFrames(DecodeFrames(data, n).frames) <= data
    decreases n
  {
    if n > 0 {
      var size := 2 + WordAt(data, 0);
      var f, later := data[2..size], DecodeFrames(data[size..], n - 1).frames;
      assert DecodeFrames(data, n).frames == [f] + later;
      FramesAreEncoded(data[size..], n - 1);
      hide DecodeFrames, EncodeFrames;
      EncodeHead(f, later);
      HeadIsPrefix(data);
      PrefixStep(data[..size], EncodeFrames(later), data);
    }
  }

  lemma EncodeHead(f: Frame, later: seq<Frame>)
    requires |f| < 65536 && forall k :: 0 <= k < |later| ==> |later[k]| < 65536
    ensures EncodeFrames([f] + later) == HighFirst(|f|) + f + EncodeFrames(later)
  {
    assert ([f] + later)[1..] == later;
  }

  lemma HeadIsPrefix(data: seq<Byte>)
    requires |data| >= 2 && |data| >= 2 + WordAt(data, 0)
    ensures var size := 2 + WordAt(data, 0); HighFirst(WordAt(data, 0)) + data[2..size] == data[..size]
  {
  }

  lemma PrefixStep(a: seq<Byte>, b: seq<Byte>, data: seq<Byte>)
    requires a <= data && b <= data[|a|..]
    ensures a + b <= data
  {
    assert data == a + data[|a|..];
  }

  lemma AcceptedIsEncoded(payload: seq<Byte>)
    requires DecodeCommand(payload).complete
    ensures Packable(DecodeCommand(payload).frames)
    ensures EncodeCommand(DecodeCommand(payload).frames) <= payload
  {
    var n := WordAt(payload, 0);
    FramesAreEncoded(payload[2..], n);
    assert payload[..2] == HighFirst(n);
    PrefixStep(HighFirst(n), EncodeFrames(DecodeCommand(payload).frames), payload);
  }

  /** A payload is accepted exactly when it starts with the encoding of a frame list, and then
      that list is what the server takes from it. */
  lemma AcceptedIffEncoded(payload: seq<Byte>)
    ensures DecodeCommand(payload).complete <==>
            exists frames, tail :: Packable(frames) && payload == EncodeCommand(frames) + tail
    ensures forall frames, tail :: Packable(frames) && payload == EncodeCommand(frames) + tail ==>
              DecodeCommand(payload).frames == frames
  {
    forall frames, tail | Packable(frames) && payload == EncodeCommand(frames) + tail
      ensures DecodeCommand(payload) == Decoded(frames, true)
    {
      CommandRoundTrip(frames, tail);
    }
    if DecodeCommand(payload).complete {
      var frames := DecodeCommand(payload).frames;
      AcceptedIsEncoded(payload);
      assert payload == EncodeCommand(frames) + payload[|EncodeCommand(frames)|..];
    }
  }

  lemma {:induction false} CutFramesArePrefix(frames: seq<Frame>, n: nat, count: nat)
    requires forall k :: 0 <= k < |frames| ==> |frames[k]| < 65536
    requires n < |EncodeFrames(frames)| && count == |frames|
    ensures var d := DecodeFrames(EncodeFrames(frames)[..n], count); !d.complete && d.frames < frames
  {
    hide EncodeFrames, DecodeFrames, HighFirst;
    if frames == [] {
      NoFramesNoBytes(frames);
    }
    var f, later := frames[0], frames[1..];
    var head, more := HighFirst(|f|) + f, EncodeFrames(later);
    assert [f] + later == frames;
    EncodeHead(f, later);
    var s := EncodeFrames(frames)[..n];
    if n >= |head| {
      assert s == head + more[..n - |head|];
      FirstFrameDecodes(f, more[..n - |head|], count);
      CutFramesArePrefix(later, n - |head|, count - 1);
    } else {
      assert s == head[..n];
      HeadCut(f, n, count);
    }
  }

  lemma NoFramesNoBytes(frames: seq<Frame>)
    requires |frames| == 0
    ensures EncodeFrames(frames) == []
  {
  }

  lemma HeadCut(f: Frame, n: nat, count: nat)
    requires |f| < 65536 && n < 2 + |f| && count > 0
    ensures DecodeFrames((HighFirst(|f|) + f)[..n], count) == Decoded([], false)
  {
    var s := (HighFirst(|f|) + f)[..n];
    if n >= 2 {
      assert s[0] == HighFirst(|f|)[0] && s[1] == HighFirst(|f|)[1];
    }
  }

  /** A command cut short is never acknowledged as ok, and only leading frames are written. */
  lemma CutCommandWritesPrefix(frames: seq<Frame>, n: nat, brk: Break)
    requires Packable(frames) && n < |EncodeCommand(frames)|
    ensures var d := DecodeCommand(EncodeCommand(frames)[..n]);
            !Succeeds(d, brk) && Written(d, brk) <= frames
  {
    hide EncodeFrames, DecodeFrames;
    var s := EncodeCommand(frames)[..n];
    if n >= 2 {
      assert s[2..] == EncodeFrames(frames)[..n - 2];
      assert WordAt(s, 0) == |frames| by {
        assert s[0] == HighFirst(|frames|)[0] && s[1] == HighFirst(|frames|)[1];
      }
      CutFramesArePrefix(frames, n - 2, |frames|);
      hide HighFirst, WordAt;
    }
  }

  // ---------------------------------------------------------------- acknowledgements

  function AckPayload(ok: bool, err: seq<Byte>): (r: seq<Byte>)
    ensures |r| <= 203
  {
    var eb := if !ok && err != [] then (if |err| > 200 then err[..200] else err) else [];
    [if ok then 1 else 0] + HighFirst(|eb|) + eb
  }

  datatype Ack = Ack(ok: bool, err: seq<Byte>)

  /** How the node reads an acknowledgement. */
  function ReadAck(payload: seq<Byte>): Ack {
    var ok := |payload| >= 1 && payload[0] != 0;
    if !ok && |payload| >= 3 && WordAt(payload, 1) > 0 && |payload| >= 3 + WordAt(payload, 1) then
      Ack(ok, payload[3..3 + WordAt(payload, 1)])
    else Ack(ok, [])
  }

  /** The verdict always survives; the message up to its first 200 bytes, failures only. */
  lemma AckRoundTrip(ok: bool, err: seq<Byte>)
    ensures ReadAck(AckPayload(ok, err)) == Ack(ok, if ok then [] else if |err| > 200 then err[..200] else err)
  {
    var p := AckPayload(ok, err);
    var eb := if ok then [] else if |err| > 200 then err[..200] else err;
    assert p == [if ok then 1 else 0] + HighFirst(|eb|) + eb;
    assert WordAt(p, 1) == |eb|;
    assert p[3..3 + |eb|] == eb;
  }

  /** An acknowledgement on the wire: the verdict, the length of the message high byte first, and
      the message, which only a failure has. */
  lemma AckLayout(ok: bool, err: seq<Byte>)
    ensures var p := AckPayload(ok, err);
            && |p| >= 3 && p[0] == (if ok then 1 else 0) && 256 * (p[1] as int) + p[2] == |p[3..]|
            && p[3..] == (if ok then [] else if |err| > 200 then err[..200] else err)
  {
  }

  // ---------------------------------------------------------------- the server's loop

  // Everything the server has done so far: serial writes, packets sent back, commands tried.
  datatype Line = Line(serial: seq<Frame>, replies: seq<Packet>, tried: nat)

  // `breaks(i)` is where the i-th command raises, with what message.
  type Breaks = nat -> (Break, seq<Byte>)

  function AckOf(p: Packet, brk: (Break, seq<Byte>)): Packet {
    var out := Expected([], DecodeCommand(p.payload), Reached(p.payload, brk));
    Packet(T_ACK, p.seqNo, AckPayload(out.ok, out.err))
  }

  // A payload without a count is refused before anything can raise.
  function Reached(payload: seq<Byte>, brk: (Break, seq<Byte>)): (Break, seq<Byte>) {
    if |payload| < 2 then (None, brk.1) else brk
  }

  function ServeOne(p: Packet, l: Line, breaks: Breaks): Line {
    if p.kind == T_PING then l.(replies := l.replies + [Packet(T_PONG, p.seqNo, [])])
    else if p.kind != T_CMD then l
    else
      var brk := breaks(l.tried);
      Line(l.serial + Written(DecodeCommand(p.payload), brk.0), l.replies + [AckOf(p, brk)], l.tried + 1)
  }

  // A stop packet ends the batch, not the session.
  function ServeBatch(ps: seq<Packet>, l: Line, breaks: Breaks): Line
    decreases |ps|
  {
    if ps == [] || ps[0].kind == T_STOP then l
    else ServeBatch(ps[1..], ServeOne(ps[0], l, breaks), breaks)
  }

  lemma NextFrame(payload: seq<Byte>, off: nat, m: nat)
    requires m > 0 && off <= |payload|
    ensures var d := DecodeFrames(payload[off..], m);
            if off + 2 > |payload| || off + 2 + WordAt(payload, off) > |payload| then d == Decoded([], false)
            else
              var end := off + 2 + WordAt(payload, off);
              var later := DecodeFrames(payload[end..], m - 1);
              d == Decoded([payload[off + 2..end]] + later.frames, later.complete)
  {
    if off + 2 <= |payload| {
      var here := payload[off..];
      assert WordAt(here, 0) == WordAt(payload, off);
      var size := 2 + WordAt(here, 0);
      if size <= |here| {
        assert here[2..size] == payload[off + 2..off + size] && here[size..] == payload[off + size..];
      }
    }
  }

  // What a command leaves behind: the serial line, the verdict and the message.
  datatype Outcome = Outcome(serial: seq<Frame>, ok: bool, err: seq<Byte>)

  function Expected(start: seq<Frame>, d: Decoded, brk: (Break, seq<Byte>)): Outcome {
    Outcome(start + Written(d, brk.0), Succeeds(d, brk.0), if Raises(d, brk.0) then brk.1 else [])
  }

  // The break as seen after k writes.
  function Later(brk: (Break, seq<Byte>), k: nat): (Break, seq<Byte>) {
    if brk.0.Some? && brk.0.value >= k then (Some(brk.0.value - k), brk.1) else (None, brk.1)
  }

  lemma LaterByNone(brk: (Break, seq<Byte>))
    ensures Later(brk, 0) == brk
  {
  }

  lemma DecodeNothing(data: seq<Byte>)
    ensures DecodeFrames(data, 0) == Decoded([], true)
  {
  }

  lemma ExpectedAtEnd(serial: seq<Frame>, complete: bool, brk: (Break, seq<Byte>))
    requires brk.0 != Some(0)
    ensures Expected(serial, Decoded([], complete), brk) == Outcome(serial, complete, [])
  {
    assert serial + [] == serial;
  }

  lemma ExpectedStruck(serial: seq<Frame>, d: Decoded, brk: (Break, seq<Byte>))
    requires brk.0 == Some(0)
    ensures Expected(serial, d, brk) == Outcome(serial, false, brk.1)
  {
    assert serial + d.frames[..0] == serial;
    assert |d.frames| == 0 ==> serial + d.frames == serial;
  }

  // A frame is written and the command goes on behind it.
  lemma ExpectedAtWrite(serial: seq<Frame>, f: Frame, later: Decoded, brk: (Break, seq<Byte>), k: nat)
    requires brk.0.Some? ==> k < brk.0.value
    ensures Expected(serial, Decoded([f] + later.frames, later.complete), Later(brk, k)) ==
            Expected(serial + [f], later, Later(brk, k + 1))
  {
    WrittenAtWrite(f, later, Later(brk, k).0);
    hide Written;
    var rest := Written(later, Later(brk, k + 1).0);
    assert serial + ([f] + rest) == serial + [f] + rest;
  }

  lemma WrittenAtWrite(f: Frame, later: Decoded, brk: Break)
    requires brk != Some(0)
    ensures Written(Decoded([f] + later.frames, later.complete), brk) ==
            [f] + Written(later, if brk.Some? then Some(brk.value - 1) else None)
  {
    var now := [f] + later.frames;
    if brk.Some? && brk.value < |now| {
      assert now[..brk.value] == [f] + later.frames[..brk.value - 1];
    }
  }

  lemma AckOfExpected(p: Packet, start: seq<Frame>, brk: (Break, seq<Byte>))
    ensures var out := Expected(start, DecodeCommand(p.payload), Reached(p.payload, brk));
            && out.serial == start + Written(DecodeCommand(p.payload), brk.0)
            && AckOf(p, brk) == Packet(T_ACK, p.seqNo, AckPayload(out.ok, out.err))
  {
  }

  /** The injected server between its sockets: one command, one batch. */
  class DrlServer {
    var serial: seq<Frame>
    var replies: seq<Packet>
    var tried: nat

    constructor ()
      ensures State() == Line([], [], 0)
    {
      serial, replies, tried := [], [], 0;
    }

    function State(): Line
      reads this
    {
      Line(serial, replies, tried)
    }

    /** The frames of one command payload, cut off and written one by one. */
    method RunCommand(payload: seq<Byte>, brk: (Break, seq<Byte>)) returns (ok: bool, err: seq<Byte>)
      modifies this`serial
      ensures Outcome(serial, ok, err) == Expected(old(serial), DecodeCommand(payload), Reached(payload, brk))
    {
      if |payload| < 2 {
        assert old(serial) + [] == serial;
        return false, [];
      }
      ok, err := WriteFrames(payload, WordAt(payload, 0), brk);
    }

    // The loop of the command branch, from the first length field on.
    method WriteFrames(payload: seq<Byte>, n: nat, brk: (Break, seq<Byte>)) returns (ok: bool, err: seq<Byte>)
      requires |payload| >= 2
      modifies this`serial
      ensures Outcome(serial, ok, err) == Expected(old(serial), DecodeFrames(payload[2..], n), brk)
    {
      var off := 2;
      hide DecodeFrames, WordAt, Expected;
      LaterByNone(brk);
      for k := 0 to n
        invariant 2 <= off <= |payload|
        invariant brk.0.Some? ==> k <= brk.0.value
        invariant Expected(serial, DecodeFrames(payload[off..], n - k), Later(brk, k))
               == Expected(old(serial), DecodeFrames(payload[2..], n), brk)
      {
        if brk.0 == Some(k) {
          ExpectedStruck(serial, DecodeFrames(payload[off..], n - k), Later(brk, k));
          return false, brk.1;
        }
        NextFrame(payload, off, n - k);
        ExpectedAtEnd(serial, false, Later(brk, k));
        if off + 2 > |payload| {
          return false, [];
        }
        var flen := WordAt(payload, off);
        off := off + 2;
        if off + flen > |payload| {
          return false, [];
        }
        var pkt := payload[off..off + flen];
        off := off + flen;
        ExpectedAtWrite(serial, pkt, DecodeFrames(payload[off..], n - k - 1), brk, k);
        serial := serial + [pkt];
      }
      DecodeNothing(payload[off..]);
      if brk.0 == Some(n) {
        ExpectedStruck(serial, Decoded([], true), Later(brk, n));
        return false, brk.1;
      }
      ExpectedAtEnd(serial, true, Later(brk, n));
      return true, [];
    }

    /** One pass of the server's main loop over the packets of one receive. */
    method RunBatch(packets: seq<Packet>, breaks: Breaks)
      modifies this
      ensures State() == ServeBatch(packets, old(State()), breaks)
    {
      hide AckOf, Written, Expected, ServeBatch, AckPayload;
      var i := 0;
      while i < |packets|
        invariant i <= |packets|
        invariant ServeBatch(packets[i..], State(), breaks) == ServeBatch(packets, old(State()), breaks)
      {
        var p := packets[i];
        ServeNext(packets, i, State(), breaks);
        i := i + 1;
        if p.kind == T_PING {
          replies := replies + [Packet(T_PONG, p.seqNo, [])];
          continue;
        }
        if p.kind == T_STOP {
          return;
        }
        if p.kind != T_CMD {
          continue;
        }
        AckOfExpected(p, serial, breaks(tried));
        var ok, err := RunCommand(p.payload, breaks(tried));
        replies := replies + [Packet(T_ACK, p.seqNo, AckPayload(ok, err))];
        tried := tried + 1;
      }
      ServeNothing(packets[i..], State(), breaks);
    }
  }

  /** The server's main loop over a receiver: the packets of each poll are served before the next
      poll, until a poll ends the session. */
  method ServeSession(server: DrlServer, rx: ServerReceiver, polls: seq<seq<seq<Byte>>>, breaks: Breaks)
    returns (live: bool)
    modifies server, rx
    ensures var t := RunPolls(polls, old(rx.rxbuf), old(server.State()), breaks);
            server.State() == t.line && live == t.live && (live ==> rx.rxbuf == t.rest)
  {
    hide Parse, ServeBatch;
    for i := 0 to |polls|
      invariant RunPolls(polls[i..], rx.rxbuf, server.State(), breaks)
             == RunPolls(polls, old(rx.rxbuf), old(server.State()), breaks)
    {
      assert polls[i..][1..] == polls[i + 1..];
      var r := rx.ReceivePackets(polls[i]);
      if !r.Batch? {
        return false;
      }
      server.RunBatch(r.packets, breaks);
    }
    return true;
  }

  lemma ServeNext(ps: seq<Packet>, i: nat, l: Line, breaks: Breaks)
    requires i < |ps|
    ensures ServeBatch(ps[i..], l, breaks) ==
            if ps[i].kind == T_STOP then l else ServeBatch(ps[i + 1..], ServeOne(ps[i], l, breaks), breaks)
  {
    assert ps[i..][1..] == ps[i + 1..];
  }

  lemma ServeNothing(ps: seq<Packet>, l: Line, breaks: Breaks)
    requires |ps| == 0
    ensures ServeBatch(ps, l, breaks) == l
  {
  }

  predicate NoStop(ps: seq<Packet>) {
    forall k :: 0 <= k < |ps| ==> ps[k].kind != T_STOP
  }

  lemma {:induction false} BatchesCompose(a: seq<Packet>, b: seq<Packet>, l: Line, breaks: Breaks)
    requires NoStop(a)
    ensures ServeBatch(a + b, l, breaks) == ServeBatch(b, ServeBatch(a, l, breaks), breaks)
    decreases |a|
  {
    if a == [] {
      assert a + b == b;
    } else {
      assert (a + b)[1..] == a[1..] + b;
      BatchesCompose(a[1..], b, ServeOne(a[0], l, breaks), breaks);
    }
  }

  // Where a session stands: what was done, the bytes kept, and whether it is still running.
  datatype Served = Served(line: Line, rest: seq<Byte>, live: bool)

  // The session as it runs: each poll's packets are served before the next poll.
  function RunPolls(polls: seq<seq<seq<Byte>>>, rxbuf: seq<Byte>, l: Line, breaks: Breaks): Served
    decreases |polls|
  {
    if polls == [] then Served(l, rxbuf, true)
    else if !AllPlain(polls[0]) then Served(l, [], false)
    else
      var now := Parse(rxbuf + Concat(polls[0]));
      RunPolls(polls[1..], now.rest, ServeBatch(now.packets, l, breaks), breaks)
  }

  // The packets the server answers.
  predicate Answered(p: Packet) {
    p.kind == T_PING || p.kind == T_CMD
  }

  // Nothing the server would answer comes behind a stop packet.
  predicate QuietBehindStop(ps: seq<Packet>) {
    forall i, j :: 0 <= i < j < |ps| && ps[i].kind == T_STOP ==> !Answered(ps[j])
  }

  lemma QuietParts(a: seq<Packet>, b: seq<Packet>)
    requires QuietBehindStop(a + b)
    ensures QuietBehindStop(a) && QuietBehindStop(b)
    ensures NoStop(a) || forall j :: 0 <= j < |b| ==> !Answered(b[j])
  {
    var ps := a + b;
    assert forall k :: 0 <= k < |a| ==> ps[k] == a[k];
    assert forall k :: 0 <= k < |b| ==> ps[|a| + k] == b[k];
  }

  lemma {:induction false} NothingAnswered(ps: seq<Packet>, l: Line, breaks: Breaks)
    requires forall j :: 0 <= j < |ps| ==> !Answered(ps[j])
    ensures ServeBatch(ps, l, breaks) == l
    decreases |ps|
  {
    if ps != [] && ps[0].kind != T_STOP {
      NothingAnswered(ps[1..], l, breaks);
    }
  }

  // Up to its first stop packet a batch is served whatever follows.
  lemma {:induction false} StopCutsBatch(a: seq<Packet>, b: seq<Packet>, l: Line, breaks: Breaks)
    requires !NoStop(a)
    ensures ServeBatch(a + b, l, breaks) == ServeBatch(a, l, breaks)
    decreases |a|
  {
    if a[0].kind != T_STOP {
      assert (a + b)[1..] == a[1..] + b;
      var k :| 0 <= k < |a| && a[k].kind == T_STOP;
      assert a[1..][k - 1].kind == T_STOP;
      StopCutsBatch(a[1..], b, ServeOne(a[0], l, breaks), breaks);
    }
  }

  lemma QuietBatchesCompose(a: seq<Packet>, b: seq<Packet>, l: Line, breaks: Breaks)
    requires QuietBehindStop(a + b)
    ensures ServeBatch(a + b, l, breaks) == ServeBatch(b, ServeBatch(a, l, breaks), breaks)
  {
    QuietParts(a, b);
    if NoStop(a) {
      BatchesCompose(a, b, l, breaks);
    } else {
      StopCutsBatch(a, b, l, breaks);
      NothingAnswered(b, ServeBatch(a, l, breaks), breaks);
    }
  }

  /** What the server does, writes on the serial line and answers included, depends on the byte
      stream alone and not on how it was received, as long as no poll ends the session and nothing
      it would answer comes behind a stop packet. */
  lemma {:induction false} ExecutionIsChunkIndependent(polls: seq<seq<seq<Byte>>>, rxbuf: seq<Byte>, l: Line,
                                                       breaks: Breaks)
    requires Parse(rxbuf) == Parsed([], rxbuf) && Survived(polls) == |polls|
    requires QuietBehindStop(Parse(rxbuf + Stream(polls)).packets)
    ensures var whole := Parse(rxbuf + Stream(polls));
            RunPolls(polls, rxbuf, l, breaks) == Served(ServeBatch(whole.packets, l, breaks), whole.rest, true)
    decreases |polls|
  {
    hide Parse, ServeOne, QuietBehindStop;
    if polls == [] {
      assert rxbuf + Stream(polls) == rxbuf;
    } else {
      var seen, more := rxbuf + Concat(polls[0]), Stream(polls[1..]);
      var now := Parse(seen);
      assert rxbuf + Stream(polls) == seen + more;
      ParseSplits(seen, more);
      var later := Parse(now.rest + more).packets;
      assert Parse(seen + more).packets == now.packets + later;
      QuietParts(now.packets, later);
      RestIsSettled(seen);
      ExecutionIsChunkIndependent(polls[1..], now.rest, ServeBatch(now.packets, l, breaks), breaks);
      QuietBatchesCompose(now.packets, later, l, breaks);
    }
  }

  // ---------------------------------------------------------------- what the answers tell

  // The packets of a batch that get an answer: pings and commands in front of a stop packet.
  function Asked(ps: seq<Packet>): seq<Packet>
    decreases |ps|
  {
    if ps == [] || ps[0].kind == T_STOP then []
    else (if Answered(ps[0]) then [ps[0]] else []) + Asked(ps[1..])
  }

  // And those of a session, up to the poll that ends it.
  function AskedIn(polls: seq<seq<seq<Byte>>>, rxbuf: seq<Byte>): seq<Packet>
    decreases |polls|
  {
    if polls == [] || !AllPlain(polls[0]) then []
    else
      var now := Parse(rxbuf + Concat(polls[0]));
      Asked(now.packets) + AskedIn(polls[1..], now.rest)
  }

  function CountCommands(asked: seq<Packet>): nat {
    if asked == [] then 0
    else CountCommands(asked[..|asked| - 1]) + (if asked[|asked| - 1].kind == T_CMD then 1 else 0)
  }

  // What the commands asked for put on the serial line, one after the other.
  function Lines(asked: seq<Packet>, breaks: Breaks): seq<Frame> {
    if asked == [] then []
    else
      var before, p := asked[..|asked| - 1], asked[|asked| - 1];
      Lines(before, breaks)
        + (if p.kind == T_CMD then Written(DecodeCommand(p.payload), breaks(CountCommands(before)).0) else [])
  }

  // The frames stand on the line one after the other.
  ghost predicate OnLine(serial: seq<Frame>, frames: seq<Frame>) {
    exists before: seq<Frame>, after: seq<Frame> :: serial == before + frames + after
  }

  // The message of an exception, as much of it as is sent.
  function Shown(payload: seq<Byte>, brk: (Break, seq<Byte>)): seq<Byte> {
    if |payload| < 2 || !Raises(DecodeCommand(payload), brk.0) then []
    else if |brk.1| > 200 then brk.1[..200]
    else brk.1
  }

  // A reply as the node reads it: it carries the number of what it answers; a ping's is a pong,
  // a command's says ok exactly if the payload held all its frames and nothing raised, and then
  // all of them are on the line.
  ghost predicate Tells(p: Packet, reply: Packet, serial: seq<Frame>, brk: (Break, seq<Byte>)) {
    && reply.seqNo == p.seqNo
    && (p.kind == T_PING ==> reply.kind == T_PONG)
    && (p.kind == T_CMD ==>
          var d := DecodeCommand(p.payload);
          && reply.kind == T_ACK
          && ReadAck(reply.payload) == Ack(d.complete && !Raises(d, brk.0), Shown(p.payload, brk))
          && (ReadAck(reply.payload).ok ==> OnLine(serial, d.frames)))
  }

  // Every packet asked has its reply, in order, and the line holds what the commands wrote.
  ghost predicate Told(l: Line, asked: seq<Packet>, breaks: Breaks) {
    && |l.replies| == |asked| && l.tried == CountCommands(asked)
    && l.serial == Lines(asked, breaks)
    && forall i :: 0 <= i < |asked| ==>
         Tells(asked[i], l.replies[i], l.serial, breaks(CountCommands(asked[..i])))
  }

  lemma OnLineGrows(serial: seq<Frame>, more: seq<Frame>, frames: seq<Frame>)
    requires OnLine(serial, frames)
    ensures OnLine(serial + more, frames)
  {
    var before: seq<Frame>, after: seq<Frame> :| serial == before + frames + after;
    assert serial + more == before + frames + (after + more);
  }

  lemma TellsGrows(p: Packet, reply: Packet, serial: seq<Frame>, more: seq<Frame>, brk: (Break, seq<Byte>))
    requires Tells(p, reply, serial, brk)
    ensures Tells(p, reply, serial + more, brk)
  {
    hide OnLine, DecodeCommand, ReadAck, Raises;
    if p.kind == T_CMD && ReadAck(reply.payload).ok {
      OnLineGrows(serial, more, DecodeCommand(p.payload).frames);
    }
  }

  lemma AckTells(p: Packet, serial: seq<Frame>, brk: (Break, seq<Byte>))
    requires p.kind == T_CMD
    ensures Tells(p, AckOf(p, brk), serial + Written(DecodeCommand(p.payload), brk.0), brk)
  {
    var d := DecodeCommand(p.payload);
    var out := Expected([], d, Reached(p.payload, brk));
    AckRoundTrip(out.ok, out.err);
    hide DecodeFrames, AckPayload, ReadAck;
    assert out.ok ==> serial + Written(d, brk.0) == serial + d.frames + [];
  }

  lemma OneTells(p: Packet, l: Line, breaks: Breaks, asked: seq<Packet>)
    requires Told(l, asked, breaks) && Answered(p)
    ensures Told(ServeOne(p, l, breaks), asked + [p], breaks)
  {
    hide Tells, AckOf, Written, DecodeCommand, Lines;
    var all, t := asked + [p], ServeOne(p, l, breaks);
    assert all[..|asked|] == asked;
    LastLine(asked, p, breaks);
    forall i | 0 <= i < |all|
      ensures Tells(all[i], t.replies[i], t.serial, breaks(CountCommands(all[..i])))
    {
      if i < |asked| {
        assert all[..i] == asked[..i];
        OneKeeps(p, l, breaks, asked[i], l.replies[i], breaks(CountCommands(asked[..i])));
      } else {
        OneAnswers(p, l, breaks);
      }
    }
  }

  lemma LastLine(asked: seq<Packet>, p: Packet, breaks: Breaks)
    ensures CountCommands(asked + [p]) == CountCommands(asked) + (if p.kind == T_CMD then 1 else 0)
    ensures Lines(asked + [p], breaks) == Lines(asked, breaks)
              + (if p.kind == T_CMD then Written(DecodeCommand(p.payload), breaks(CountCommands(asked)).0) else [])
  {
    assert (asked + [p])[..|asked|] == asked;
  }

  lemma OneKeeps(p: Packet, l: Line, breaks: Breaks, q: Packet, reply: Packet, brk: (Break, seq<Byte>))
    requires Tells(q, reply, l.serial, brk)
    ensures Tells(q, reply, ServeOne(p, l, breaks).serial, brk)
  {
    hide Tells, Written, DecodeCommand, AckOf;
    if p.kind == T_CMD {
      TellsGrows(q, reply, l.serial, Written(DecodeCommand(p.payload), breaks(l.tried).0), brk);
    }
  }

  lemma OneAnswers(p: Packet, l: Line, breaks: Breaks)
    requires Answered(p)
    ensures var t := ServeOne(p, l, breaks);
            |t.replies| == |l.replies| + 1 && Tells(p, t.replies[|l.replies|], t.serial, breaks(l.tried))
  {
    hide Tells, Written, DecodeCommand, AckOf;
    if p.kind == T_CMD {
      AckTells(p, l.serial, breaks(l.tried));
    } else {
      PongTells(p, l.serial, breaks(l.tried));
    }
  }

  lemma PongTells(p: Packet, serial: seq<Frame>, brk: (Break, seq<Byte>))
    requires p.kind == T_PING
    ensures Tells(p, Packet(T_PONG, p.seqNo, []), serial, brk)
  {
  }

  lemma {:induction false} BatchTells(ps: seq<Packet>, l: Line, breaks: Breaks, asked: seq<Packet>)
    requires Told(l, asked, breaks)
    ensures Told(ServeBatch(ps, l, breaks), asked + Asked(ps), breaks)
    decreases |ps|
  {
    hide Told, ServeOne;
    if ps == [] || ps[0].kind == T_STOP {
      assert asked + [] == asked;
    } else if Answered(ps[0]) {
      OneTells(ps[0], l, breaks, asked);
      BatchTells(ps[1..], ServeOne(ps[0], l, breaks), breaks, asked + [ps[0]]);
      assert asked + ([ps[0]] + Asked(ps[1..])) == asked + [ps[0]] + Asked(ps[1..]);
    } else {
      UnaskedIsSkipped(ps[0], l, breaks);
      BatchTells(ps[1..], l, breaks, asked);
      assert [] + Asked(ps[1..]) == Asked(ps[1..]);
    }
  }

  lemma UnaskedIsSkipped(p: Packet, l: Line, breaks: Breaks)
    ensures !Answered(p) ==> ServeOne(p, l, breaks) == l
  {
  }

  lemma {:induction false} PollsTell(polls: seq<seq<seq<Byte>>>, rxbuf: seq<Byte>, l: Line, breaks: Breaks,
                                     asked: seq<Packet>)
    requires Told(l, asked, breaks)
    ensures Told(RunPolls(polls, rxbuf, l, breaks).line, asked + AskedIn(polls, rxbuf), breaks)
    decreases |polls|
  {
    hide Told, Parse, ServeBatch, Asked;
    if polls == [] || !AllPlain(polls[0]) {
      assert asked + [] == asked;
    } else {
      var now := Parse(rxbuf + Concat(polls[0]));
      BatchTells(now.packets, l, breaks, asked);
      PollsTell(polls[1..], now.rest, ServeBatch(now.packets, l, breaks), breaks, asked + Asked(now.packets));
      assert asked + AskedIn(polls, rxbuf) == asked + Asked(now.packets) + AskedIn(polls[1..], now.rest);
    }
  }

  /** The answers of a whole session tell the truth, however it is received and whatever raises:
      every ping and command taken from the stream gets its reply, in order; a reply that reads ok
      answers a command all of whose frames are on the serial line, one that does not answers a
      command that was cut short or raised; and the line holds nothing else. */
  lemma AnswersTellTheTruth(polls: seq<seq<seq<Byte>>>, breaks: Breaks)
    ensures Told(RunPolls(polls, [], Line([], [], 0), breaks).line, AskedIn(polls, []), breaks)
  {
    PollsTell(polls, [], Line([], [], 0), breaks, []);
    assert [] + AskedIn(polls, []) == AskedIn(polls, []);
  }

  // ---------------------------------------------------------------- which streams are served alike

  // One poll for every byte.
  function BytePolls(s: seq<Byte>): (polls: seq<seq<seq<Byte>>>)
    ensures |polls| == |s| && forall i :: 0 <= i < |s| ==> polls[i] == [[s[i]]]
  {
    if s == [] then [] else [[[s[0]]]] + BytePolls(s[1..])
  }

  lemma OneByte(b: Byte)
    ensures Concat([[b]]) == [b] && AllPlain([[b]])
  {
    assert |[[b]][1..]| == 0;
    assert [b] + [] == [b];
  }

  lemma {:induction false} BytePollsStream(s: seq<Byte>)
    ensures Stream(BytePolls(s)) == s
    decreases |s|
  {
    if s != [] {
      assert BytePolls(s)[1..] == BytePolls(s[1..]);
      OneByte(s[0]);
      BytePollsStream(s[1..]);
    }
  }

  // Each packet in a batch of its own.
  function ServeSingly(ps: seq<Packet>, l: Line, breaks: Breaks): Line
    decreases |ps|
  {
    if ps == [] then l else ServeSingly(ps[1..], ServeBatch([ps[0]], l, breaks), breaks)
  }

  lemma ServeBatchOfOne(p: Packet, l: Line, breaks: Breaks)
    ensures ServeBatch([p], l, breaks) == if p.kind == T_STOP then l else ServeOne(p, l, breaks)
  {
    assert |[p][1..]| == 0;
  }

  lemma {:induction false} SinglyJoins(a: seq<Packet>, b: seq<Packet>, l: Line, breaks: Breaks)
    ensures ServeSingly(a + b, l, breaks) == ServeSingly(b, ServeSingly(a, l, breaks), breaks)
    decreases |a|
  {
    if a == [] {
      assert a + b == b;
    } else {
      assert (a + b)[1..] == a[1..] + b;
      SinglyJoins(a[1..], b, ServeBatch([a[0]], l, breaks), breaks);
    }
  }

  // One byte behind a settled buffer completes one packet at most.
  lemma AtMostOnePacket(buf: seq<Byte>, b: Byte)
    requires Parse(buf) == Parsed([], buf)
    ensures |Parse(buf + [b]).packets| <= 1
  {
    var s := buf + [b];
    if |s| >= HEADER_SIZE && GoodHeader(s) && |s| >= PacketSize(s) {
      if |buf| >= HEADER_SIZE {
        assert GoodHeader(s) == GoodHeader(buf) && PacketSize(s) == PacketSize(buf);
        DroppedByteShows(buf);
      }
      assert |s[PacketSize(s)..]| == 0;
      ParseSmall(s[PacketSize(s)..]);
    } else if |s| >= HEADER_SIZE && !GoodHeader(s) {
      if |buf| >= HEADER_SIZE {
        DroppedByteShows(buf);
      }
      ParseSmall(s[1..]);
    }
  }

  // A settled buffer is no header yet, or the beginning of a packet.
  lemma DroppedByteShows(buf: seq<Byte>)
    requires Parse(buf) == Parsed([], buf) && |buf| >= HEADER_SIZE
    ensures GoodHeader(buf) && |buf| < PacketSize(buf)
  {
    if !GoodHeader(buf) {
      RestIsShorter(buf[1..]);
    }
  }

  lemma {:induction false} RestIsShorter(buf: seq<Byte>)
    ensures |Parse(buf).rest| <= |buf|
    decreases |buf|
  {
    if |buf| >= HEADER_SIZE {
      if !GoodHeader(buf) {
        RestIsShorter(buf[1..]);
      } else if |buf| >= PacketSize(buf) {
        RestIsShorter(buf[PacketSize(buf)..]);
      }
    }
  }

  lemma {:induction false} BytePollsServeSingly(s: seq<Byte>, rxbuf: seq<Byte>, l: Line, breaks: Breaks)
    requires Parse(rxbuf) == Parsed([], rxbuf)
    ensures RunPolls(BytePolls(s), rxbuf, l, breaks).line == ServeSingly(Parse(rxbuf + s).packets, l, breaks)
    decreases |s|
  {
    hide Parse, ServeBatch, ServeSingly, AllPlain, Concat, RunPolls, BytePolls;
    if s == [] {
      assert rxbuf + s == rxbuf;
      SinglyOfNone(Parse(rxbuf + s).packets, l, breaks);
      NoPolls(BytePolls(s), rxbuf, l, breaks);
    } else {
      var polls, seen := BytePolls(s), rxbuf + [s[0]];
      BytePollsTail(s);
      OneByte(s[0]);
      PollStep(polls, rxbuf, l, breaks);
      var now := Parse(seen);
      var later := Parse(now.rest + s[1..]).packets;
      assert rxbuf + s == seen + s[1..];
      ParseSplits(seen, s[1..]);
      RestIsSettled(seen);
      AtMostOnePacket(rxbuf, s[0]);
      BytePollsServeSingly(s[1..], now.rest, ServeBatch(now.packets, l, breaks), breaks);
      SinglyJoins(now.packets, later, l, breaks);
      SinglyOfFew(now.packets, l, breaks);
    }
  }

  lemma BytePollsTail(s: seq<Byte>)
    requires s != []
    ensures BytePolls(s)[1..] == BytePolls(s[1..])
  {
  }

  lemma NoPolls(polls: seq<seq<seq<Byte>>>, rxbuf: seq<Byte>, l: Line, breaks: Breaks)
    requires |polls| == 0
    ensures RunPolls(polls, rxbuf, l, breaks) == Served(l, rxbuf, true)
  {
  }

  lemma PollStep(polls: seq<seq<seq<Byte>>>, rxbuf: seq<Byte>, l: Line, breaks: Breaks)
    requires polls != [] && AllPlain(polls[0])
    ensures var now := Parse(rxbuf + Concat(polls[0]));
            RunPolls(polls, rxbuf, l, breaks)
            == RunPolls(polls[1..], now.rest, ServeBatch(now.packets, l, breaks), breaks)
  {
  }

  lemma SinglyOfNone(ps: seq<Packet>, l: Line, breaks: Breaks)
    requires |ps| == 0
    ensures ServeSingly(ps, l, breaks) == l
  {
  }

  lemma SinglyOfFew(ps: seq<Packet>, l: Line, breaks: Breaks)
    requires |ps| <= 1
    ensures ServeSingly(ps, l, breaks) == ServeBatch(ps, l, breaks)
  {
    if |ps| == 1 {
      assert ps == [ps[0]] && |ps[1..]| == 0;
    }
  }

  function CountAnswered(ps: seq<Packet>): nat {
    if ps == [] then 0 else (if Answered(ps[0]) then 1 else 0) + CountAnswered(ps[1..])
  }

  lemma ServeOneReplies(p: Packet, l: Line, breaks: Breaks)
    ensures |ServeOne(p, l, breaks).replies| == |l.replies| + if Answered(p) then 1 else 0
  {
  }

  lemma {:induction false} SinglyReplies(ps: seq<Packet>, l: Line, breaks: Breaks)
    ensures |ServeSingly(ps, l, breaks).replies| == |l.replies| + CountAnswered(ps)
    decreases |ps|
  {
    hide ServeOne, ServeBatch;
    if ps != [] {
      ServeBatchOfOne(ps[0], l, breaks);
      ServeOneReplies(ps[0], l, breaks);
      SinglyReplies(ps[1..], ServeBatch([ps[0]], l, breaks), breaks);
    }
  }

  // Served as one batch, a list that is not quiet behind a stop packet is answered less often.
  lemma {:induction false} BatchRepliesFewer(ps: seq<Packet>, l: Line, breaks: Breaks)
    ensures |ServeBatch(ps, l, breaks).replies| <= |l.replies| + CountAnswered(ps)
    ensures !QuietBehindStop(ps) ==> |ServeBatch(ps, l, breaks).replies| < |l.replies| + CountAnswered(ps)
    decreases |ps|
  {
    hide ServeOne;
    if ps != [] {
      ServeOneReplies(ps[0], l, breaks);
      if ps[0].kind != T_STOP {
        BatchRepliesFewer(ps[1..], ServeOne(ps[0], l, breaks), breaks);
        if !QuietBehindStop(ps) {
          var i, j :| 0 <= i < j < |ps| && ps[i].kind == T_STOP && Answered(ps[j]);
          assert ps[1..][i - 1].kind == T_STOP && Answered(ps[1..][j - 1]);
        }
      } else if !QuietBehindStop(ps) {
        var i, j :| 0 <= i < j < |ps| && ps[i].kind == T_STOP && Answered(ps[j]);
        SomeAnswered(ps, j);
      }
    }
  }

  lemma {:induction false} SomeAnswered(ps: seq<Packet>, j: nat)
    requires j < |ps| && Answered(ps[j])
    ensures CountAnswered(ps) > 0
    decreases |ps|
  {
    if j > 0 {
      SomeAnswered(ps[1..], j - 1);
    }
  }

  // However s is received, the session does what one poll with all of it does.
  ghost predicate ServedAlike(s: seq<Byte>, c: nat, l: Line, breaks: Breaks) {
    var whole := Parse(s);
    forall polls :: SplitOf(polls, s, c) ==>
      RunPolls(polls, [], l, breaks) == Served(ServeBatch(whole.packets, l, breaks), whole.rest, true)
  }

  lemma BytePollsSplit(s: seq<Byte>, c: nat)
    requires c >= 1
    ensures SplitOf(BytePolls(s), s, c)
  {
    BytePollsStream(s);
  }

  /** Exactly which streams are served alike however they are received, by receives of four bytes
      or more at most: those that do not spell the stop word and carry no ping and no command
      behind a stop packet. */
  lemma ServedAlikeIff(s: seq<Byte>, c: nat, l: Line, breaks: Breaks)
    requires c >= 4
    ensures ServedAlike(s, c, l, breaks) <==> !HasStop(s) && QuietBehindStop(Parse(s).packets)
  {
    hide Parse, ServeBatch, SplitOf, QuietBehindStop, RunPolls;
    ParseSmall([]);
    assert [] + s == s;
    if HasStop(s) {
      var k :| 0 <= k < |s| && StopAt(s, k);
      AroundStopSplits(s, k, c);
      StopEndsSession(s, k, l, breaks);
    } else if QuietBehindStop(Parse(s).packets) {
      forall polls | SplitOf(polls, s, c)
        ensures RunPolls(polls, [], l, breaks)
             == Served(ServeBatch(Parse(s).packets, l, breaks), Parse(s).rest, true)
      {
        PlainWithoutStop(polls, s, c);
        SplitStreams(polls, s, c);
        ExecutionIsChunkIndependent(polls, [], l, breaks);
      }
    } else {
      BytePollsSplit(s, c);
      BytePollsServeSingly(s, [], l, breaks);
      SinglyReplies(Parse(s).packets, l, breaks);
      BatchRepliesFewer(Parse(s).packets, l, breaks);
    }
  }

  lemma SplitStreams(polls: seq<seq<seq<Byte>>>, s: seq<Byte>, c: nat)
    requires SplitOf(polls, s, c)
    ensures Stream(polls) == s
  {
  }

  lemma StopEndsSession(s: seq<Byte>, k: nat, l: Line, breaks: Breaks)
    requires k + 4 <= |s| && StopAt(s, k)
    ensures !RunPolls([AroundStop(s, k)], [], l, breaks).live
  {
    var chunks := AroundStop(s, k);
    assert StopAt(chunks[k], 0);
    assert !AllPlain(chunks);
  }

  // ---------------------------------------------------------------- a command that spells the word

  // The packet of a command with one register write, of the value 0x4F50 to the register 0x5354.
  function Spelling(slave: Byte, seqNo: Word): Packet {
    Packet(T_CMD, seqNo, EncodeCommand([ModbusFrames.Frame(slave, ModbusFrames.WriteOne(0x5354, 0x4F50))]))
  }

  lemma SpellingBytes(slave: Byte, seqNo: Word) returns (lo: Byte, hi: Byte)
    ensures Sendable(Spelling(slave, seqNo))
    ensures EncodePacket(Spelling(slave, seqNo)) ==
            [0x47, 0x50, 1, 3, seqNo / 256, seqNo % 256, 0, 12, 0, 1, 0, 8, slave, 0x06, 0x53, 0x54, 0x4F, 0x50, lo, hi]
  {
    hide ModbusCrc.Crc;
    var f := ModbusFrames.Frame(slave, ModbusFrames.WriteOne(0x5354, 0x4F50));
    assert f[..6] == [slave, 0x06, 0x53, 0x54, 0x4F, 0x50];
    lo, hi := f[6], f[7];
    EncodeHead(f, []);
    assert [f] + [] == [f];
  }

  /** A register write whose frame happens to spell the stop word ends the session when received
      whole, and goes through when the receive boundary falls inside the word. */
  lemma StopWordDependsOnChunks(slave: Byte, seqNo: Word, k: nat)
    requires 14 < k < 18
    ensures var p := Spelling(slave, seqNo);
            && Sendable(p) && k < |EncodePacket(p)|
            && Serve([[EncodePacket(p)]], []) == Over([])
            && Serve([[EncodePacket(p)[..k], EncodePacket(p)[k..]]], []) == Live(Parsed([p], []))
  {
    hide EncodePacket, Parse, Spelling;
    var p := Spelling(slave, seqNo);
    var lo, hi := SpellingBytes(slave, seqNo);
    var s := EncodePacket(p);
    assert StopAt(s, 14);
    assert !Plain([s][0]);
    var a, b := s[..k], s[k..];
    assert forall i | 0 <= i < |a| :: !StopAt(a, i);
    assert forall i | 0 <= i < |b| :: !StopAt(b, i);
    assert AllPlain([a, b]);
    TwoReceives(a, b);
    assert a + b == s;
    ParseHead(p, []);
    assert s + [] == s;
    ParseSmall([]);
  }

  lemma TwoReceives(a: seq<Byte>, b: seq<Byte>)
    requires AllPlain([a, b])
    ensures Serve([[a, b]], []) == Live(Parse(a + b))
  {
    hide Parse, Serve;
    var polls := [[a, b]];
    ParseSmall([]);
    assert forall i :: 0 <= i < |polls| ==> AllPlain(polls[i]);
    assert Survived(polls) == 1;
    ServerIsChunkIndependent(polls, []);
    OnePoll([a, b]);
    ConcatAppends([a], b);
    ConcatAppends([], a);
    assert [] + [a] == [a] && [a] + [b] == [a, b] && [] + a == a;
    assert polls[..1] == polls && [] + (a + b) == a + b;
  }
}
