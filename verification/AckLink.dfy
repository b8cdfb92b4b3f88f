/** Command threads, the FIFO connection, the server and the receive loop of the gripper
    link in binary mode, as a state machine over their atomic steps. Command ids are
    unbounded and allocated one by one; the wire carries their low sixteen bits. */
module AckLink {
  import opened Wrappers
  import opened BitArithmetic
  import opened PacketStream
  import opened GripperCommands

  // Where a command thread stands between taking its id and returning.
  datatype Phase = Allocated | Registered | Sent | Returned(ok: bool)

  // `waits` is false for a fire-and-forget command; `woken` is its event.
  datatype Client = Client(frames: seq<Frame>, waits: bool, phase: Phase, woken: bool)

  // One command the server has carried out; `id` is history, the server sees only the packet.
  datatype Done = Done(id: nat, written: seq<Frame>, ok: bool, reply: Packet)

  datatype Message = Message(id: nat, packet: Packet)

  // Both directions of the connection are first in, first out: the server has taken the
  // first |done| of the messages sent, the receive loop the first `heard` of the replies; it is
  // about to set the event of `waking`, if any.
  datatype State = State(
    nextId: nat,
    clients: map<nat, Client>,
    waiters: set<nat>,
    results: map<nat, Ack>,
    sent: seq<Message>,
    done: seq<Done>,
    heard: nat,
    waking: Option<nat>,
    serial: seq<Frame>)

  datatype Step =
    | Allocate(frames: seq<Frame>, waits: bool)
    | Register(id: nat)
    | Send(id: nat)
    | SendFails(id: nat)
    | Serve(brk: (Break, seq<Byte>))
    | Receive
    | SetEvent
    | FindLate(id: nat)
    | Finish(id: nat)
    | GiveUp(id: nat)

  function Init(): State {
    State(1, map[], {}, map[], [], [], 0, None, [])
  }

  // The payload fits both struct.pack calls and the packet header.
  predicate Deliverable(frames: seq<Frame>) {
    Packable(frames) && |EncodeCommand(frames)| < 65536
  }

  function CommandPacket(id: nat, frames: seq<Frame>): Packet
    requires Deliverable(frames)
  {
    Packet(T_CMD, id % 65536, EncodeCommand(frames))
  }

  function Set(s: State, id: nat, phase: Phase): State
    requires id in s.clients
  {
    s.(clients := s.clients[id := s.clients[id].(phase := phase)])
  }

  function Wake(s: State, id: nat): State
    requires id in s.clients
  {
    s.(clients := s.clients[id := s.clients[id].(woken := true)])
  }

  // The receive loop files the reply under its wire number, waited for or not.
  function Store(s: State, p: Packet): State {
    s.(heard := s.heard + 1, results := s.results[p.seqNo := ReadAck(p.payload)])
  }

  predicate ReadyToSend(c: Client) {
    c.phase == if c.waits then Registered else Allocated
  }

  predicate Waiting(s: State, id: nat) {
    id in s.clients && s.clients[id].waits && s.clients[id].phase == Sent
  }

  // A fire-and-forget call returns as soon as it has sent.
  function AfterSend(c: Client): Phase {
    if c.waits then Sent else Returned(true)
  }

  // The server's command branch: decode, write frame by frame, acknowledge.
  function Execute(m: Message, brk: (Break, seq<Byte>)): Done {
    var d := DecodeCommand(m.packet.payload);
    Done(m.id, Written(d, brk.0), Succeeds(d, brk.0), AckOf(m.packet, brk))
  }

  /** One atomic step; a step that is not enabled changes nothing. */
  function Next(s: State, step: Step): State {
    match step
    case Allocate(frames, waits) =>
      s.(nextId := s.nextId + 1, clients := s.clients[s.nextId := Client(frames, waits, Allocated, false)])
    case Register(id) =>
      if id in s.clients && s.clients[id].waits && s.clients[id].phase == Allocated then
        Set(s, id, Registered).(waiters := s.waiters + {id}, results := s.results - {id})
      else s
    case Send(id) =>
      if id in s.clients && ReadyToSend(s.clients[id]) then
        var c := s.clients[id];
        if Deliverable(c.frames) then
          Set(s, id, AfterSend(c)).(sent := s.sent + [Message(id, CommandPacket(id, c.frames))])
        else Set(s, id, Returned(false)).(waiters := s.waiters - {id})
      else s
    case SendFails(id) =>
      if id in s.clients && ReadyToSend(s.clients[id]) then
        Set(s, id, Returned(false)).(waiters := s.waiters - {id})
      else s
    case Serve(brk) =>
      if |s.done| >= |s.sent| then s
      else
        var e := Execute(s.sent[|s.done|], brk);
        s.(serial := s.serial + e.written, done := s.done + [e])
    case Receive =>
      if s.heard >= |s.done| || s.waking.Some? then s
      else
        var p := s.done[s.heard].reply;
        Store(s, p).(waking := if p.seqNo in s.waiters then Some(p.seqNo) else None)
    case SetEvent =>
      if s.waking.Some? && s.waking.value in s.clients then Wake(s, s.waking.value).(waking := None)
      else s.(waking := None)
    case FindLate(id) =>
      if Waiting(s, id) && id in s.results then Wake(s, id) else s
    case Finish(id) =>
      if Waiting(s, id) && s.clients[id].woken then
        var ok := id in s.results && s.results[id].ok;
        Set(s, id, Returned(ok)).(waiters := s.waiters - {id}, results := s.results - {id})
      else s
    case GiveUp(id) =>
      if Waiting(s, id) && !s.clients[id].woken then
        Set(s, id, Returned(false)).(waiters := s.waiters - {id})
      else s
  }

  function Run(s: State, steps: seq<Step>): State
    decreases |steps|
  {
    if steps == [] then s else Run(Next(s, steps[0]), steps[1..])
  }

  // ---------------------------------------------------------------- the invariant

  ghost predicate IdsOk(s: State) {
    && s.nextId >= 1
    && forall id :: id in s.clients <==> 1 <= id < s.nextId
  }

  predicate Gone(c: Client) {
    c.phase.Sent? || c.phase.Returned?
  }

  // Each command is handed over at most once, as its own packet.
  ghost predicate SentOk(s: State) {
    && (forall i :: 0 <= i < |s.sent| ==> SentFrom(s.sent[i], s.clients))
    && (forall i, j :: 0 <= i < j < |s.sent| ==> s.sent[i].id != s.sent[j].id)
  }

  ghost predicate SentFrom(m: Message, clients: map<nat, Client>) {
    && m.id in clients && Gone(clients[m.id])
    && Deliverable(clients[m.id].frames) && m.packet == CommandPacket(m.id, clients[m.id].frames)
  }

  ghost predicate DoneOk(s: State) {
    && s.heard <= |s.done| <= |s.sent|
    && (forall i :: 0 <= i < |s.done| ==> s.done[i].id == s.sent[i].id)
    && (forall i :: 0 <= i < |s.done| ==> DoneFor(s.done[i], s.clients))
    && s.serial == Writes(s.done)
  }

  // What was carried out: a prefix of the command's frames, all of them when acknowledged ok.
  ghost predicate DoneFor(e: Done, clients: map<nat, Client>) {
    && e.id in clients
    && e.written <= clients[e.id].frames
    && (e.ok ==> e.written == clients[e.id].frames)
    && e.reply.seqNo == e.id % 65536
    && ReadAck(e.reply.payload).ok == e.ok
  }

  function Writes(done: seq<Done>): seq<Frame> {
    if done == [] then [] else Writes(done[..|done| - 1]) + done[|done| - 1].written
  }

  // Some command with this wire number was carried out and acknowledged ok.
  ghost predicate AckedAs(done: seq<Done>, wire: nat) {
    exists i :: 0 <= i < |done| && done[i].ok && done[i].id % 65536 == wire
  }

  ghost predicate ResultsOk(s: State) {
    forall k :: k in s.results ==> k < 65536 && (s.results[k].ok ==> AckedAs(s.done, k))
  }

  ghost predicate ReturnsOk(s: State) {
    forall id :: id in s.clients ==> ReturnOk(id, s.clients[id], s.done)
  }

  ghost predicate ReturnOk(id: nat, c: Client, done: seq<Done>) {
    c.waits ==>
      && (c.phase == Returned(true) ==> id < 65536 && AckedAs(done, id))
      && (c.woken ==> id < 65536)
  }

  ghost predicate Inv(s: State) {
    && IdsOk(s) && SentOk(s) && DoneOk(s) && ResultsOk(s) && ReturnsOk(s)
    && (s.waking.Some? ==> s.waking.value < 65536)
  }

  // ---------------------------------------------------------------- preservation

  // Every thread keeps its command, and once gone stays gone.
  ghost predicate ClientsGrow(c: map<nat, Client>, d: map<nat, Client>) {
    forall id :: id in c ==>
      id in d && d[id].frames == c[id].frames && d[id].waits == c[id].waits && (Gone(c[id]) ==> Gone(d[id]))
  }

  lemma HistoryKept(s: State, t: State)
    requires SentOk(s) && DoneOk(s) && ClientsGrow(s.clients, t.clients)
    requires t.sent == s.sent && t.done == s.done && t.serial == s.serial
    requires t.heard == s.heard || t.heard <= |t.done|
    ensures SentOk(t) && DoneOk(t)
  {
    hide AckedAs;
    assert forall i :: 0 <= i < |t.sent| ==> SentFrom(s.sent[i], s.clients);
    assert forall i :: 0 <= i < |t.done| ==> DoneFor(s.done[i], s.clients);
  }

  lemma AckedGrows(done: seq<Done>, e: Done, k: nat)
    requires AckedAs(done, k)
    ensures AckedAs(done + [e], k)
  {
    var i :| 0 <= i < |done| && done[i].ok && done[i].id % 65536 == k;
    assert (done + [e])[i] == done[i];
  }

  lemma AllocateKeeps(s: State, frames: seq<Frame>, waits: bool)
    requires Inv(s)
    ensures Inv(Next(s, Allocate(frames, waits)))
  {
    HistoryKept(s, Next(s, Allocate(frames, waits)));
  }

  lemma SendKeeps(s: State, id: nat)
    requires Inv(s)
    ensures Inv(Next(s, Send(id)))
  {
    hide AckedAs, DoneFor, SentFrom, CommandPacket, Deliverable, SentOk, DoneOk;
    var t := Next(s, Send(id));
    if t.sent == s.sent {
      HistoryKept(s, t);
    } else {
      SentGrows(s, t, id);
    }
  }

  lemma SentGrows(s: State, t: State, id: nat)
    requires Inv(s) && t == Next(s, Send(id)) && t.sent != s.sent
    ensures SentOk(t) && DoneOk(t)
  {
    hide AckedAs, Deliverable, CommandPacket, ReadAck, Writes;
    forall i | 0 <= i < |t.sent|
      ensures SentFrom(t.sent[i], t.clients)
    {
      if i < |s.sent| { assert SentFrom(s.sent[i], s.clients); }
    }
    assert forall i :: 0 <= i < |s.sent| ==> s.sent[i].id != id by {
      assert forall i :: 0 <= i < |s.sent| ==> SentFrom(s.sent[i], s.clients);
    }
    forall i | 0 <= i < |t.done|
      ensures DoneFor(t.done[i], t.clients)
    {
      assert DoneFor(s.done[i], s.clients);
    }
  }

  lemma ExecuteIsFaithful(m: Message, clients: map<nat, Client>, brk: (Break, seq<Byte>))
    requires SentFrom(m, clients)
    ensures DoneFor(Execute(m, brk), clients)
  {
    var frames := clients[m.id].frames;
    CommandRoundTrip(frames, []);
    assert EncodeCommand(frames) + [] == m.packet.payload;
    var d := DecodeCommand(m.packet.payload);
    AckRoundTrip(Succeeds(d, brk.0), if Raises(d, brk.0) then brk.1 else []);
  }

  lemma ServeKeeps(s: State, brk: (Break, seq<Byte>))
    requires Inv(s)
    ensures Inv(Next(s, Serve(brk)))
  {
    hide Execute, AckedAs, SentFrom, DoneFor;
    if |s.done| < |s.sent| {
      var m := s.sent[|s.done|];
      var e := Execute(m, brk);
      ExecuteIsFaithful(m, s.clients, brk);
      assert e.id == m.id by { ExecuteKeepsId(m, brk); }
      assert (s.done + [e])[..|s.done|] == s.done;
      forall k | AckedAs(s.done, k)
        ensures AckedAs(s.done + [e], k)
      {
        AckedGrows(s.done, e, k);
      }
    }
  }

  lemma ExecuteKeepsId(m: Message, brk: (Break, seq<Byte>))
    ensures Execute(m, brk).id == m.id
  {
  }

  lemma ReplyIsAcked(s: State)
    requires Inv(s) && s.heard < |s.done|
    ensures var p := s.done[s.heard].reply; ReadAck(p.payload).ok ==> AckedAs(s.done, p.seqNo)
  {
    assert DoneFor(s.done[s.heard], s.clients);
  }

  lemma StoreKeeps(s: State)
    requires Inv(s) && s.heard < |s.done|
    ensures Inv(Store(s, s.done[s.heard].reply))
  {
    ReplyIsAcked(s);
    hide AckedAs, DoneOk, SentOk, ReadAck;
    HistoryKept(s, Store(s, s.done[s.heard].reply));
  }

  lemma WakeKeeps(s: State, id: nat)
    requires Inv(s) && id in s.clients && id < 65536
    ensures Inv(Wake(s, id))
  {
    hide AckedAs, DoneOk, SentOk;
    HistoryKept(s, Wake(s, id));
  }

  lemma ReceiveKeeps(s: State)
    requires Inv(s)
    ensures Inv(Next(s, Receive))
  {
    if s.heard < |s.done| && s.waking == None {
      StoreKeeps(s);
    }
    hide AckedAs, SentFrom, DoneFor, ReturnOk;
  }

  lemma SetEventKeeps(s: State)
    requires Inv(s)
    ensures Inv(Next(s, SetEvent))
  {
    if s.waking.Some? && s.waking.value in s.clients {
      WakeKeeps(s, s.waking.value);
    }
    hide AckedAs, SentFrom, DoneFor, ReturnOk;
  }

  lemma RegisterKeeps(s: State, id: nat)
    requires Inv(s)
    ensures Inv(Next(s, Register(id)))
  {
    hide AckedAs, DoneOk, SentOk;
    HistoryKept(s, Next(s, Register(id)));
  }

  lemma SendFailsKeeps(s: State, id: nat)
    requires Inv(s)
    ensures Inv(Next(s, SendFails(id)))
  {
    hide AckedAs, DoneOk, SentOk;
    HistoryKept(s, Next(s, SendFails(id)));
  }

  lemma FindLateKeeps(s: State, id: nat)
    requires Inv(s)
    ensures Inv(Next(s, FindLate(id)))
  {
    hide AckedAs, DoneOk, SentOk;
    HistoryKept(s, Next(s, FindLate(id)));
  }

  lemma FinishKeeps(s: State, id: nat)
    requires Inv(s)
    ensures Inv(Next(s, Finish(id)))
  {
    hide AckedAs, DoneOk, SentOk;
    HistoryKept(s, Next(s, Finish(id)));
  }

  lemma GiveUpKeeps(s: State, id: nat)
    requires Inv(s)
    ensures Inv(Next(s, GiveUp(id)))
  {
    hide AckedAs, DoneOk, SentOk;
    HistoryKept(s, Next(s, GiveUp(id)));
  }

  lemma NextKeeps(s: State, step: Step)
    requires Inv(s)
    ensures Inv(Next(s, step))
  {
    hide Inv, Next;
    match step
    case Allocate(frames, waits) => AllocateKeeps(s, frames, waits);
    case Send(id) => SendKeeps(s, id);
    case Serve(brk) => ServeKeeps(s, brk);
    case Receive => ReceiveKeeps(s);
    case SetEvent => SetEventKeeps(s);
    case Register(id) => RegisterKeeps(s, id);
    case SendFails(id) => SendFailsKeeps(s, id);
    case FindLate(id) => FindLateKeeps(s, id);
    case Finish(id) => FinishKeeps(s, id);
    case GiveUp(id) => GiveUpKeeps(s, id);
  }

  lemma {:induction false} RunKeeps(s: State, steps: seq<Step>)
    requires Inv(s)
    ensures Inv(Run(s, steps))
    decreases |steps|
  {
    hide Inv, Next;
    if steps != [] {
      NextKeeps(s, steps[0]);
      RunKeeps(Next(s, steps[0]), steps[1..]);
    }
  }

  // ---------------------------------------------------------------- what an ok means

  // The server carried out command `id` exactly once, in full.
  ghost predicate CarriedOutOnce(s: State, id: nat) {
    exists i :: 0 <= i < |s.done| && s.done[i].id == id && s.done[i].ok
             && id in s.clients && s.done[i].written == s.clients[id].frames
             && forall j :: 0 <= j < |s.done| && s.done[j].id == id ==> j == i
  }

  /** In every interleaving: when a waiting call returns ok and fewer than 65536 ids were
      handed out after its own, the server carried out exactly that command, once, writing
      all its frames in order; and the serial line holds the commands' writes back to back. */
  lemma OkMeansCarriedOut(steps: seq<Step>, id: nat)
    requires var s := Run(Init(), steps);
             id in s.clients && s.clients[id].waits && s.clients[id].phase == Returned(true) && s.nextId <= id + 65536
    ensures CarriedOutOnce(Run(Init(), steps), id)
    ensures Run(Init(), steps).serial == Writes(Run(Init(), steps).done)
  {
    var s := Run(Init(), steps);
    RunKeeps(Init(), steps);
    var i :| 0 <= i < |s.done| && s.done[i].ok && s.done[i].id % 65536 == id;
    SameWireNumber(s.done[i].id, id, s.nextId);
    assert DoneFor(s.done[i], s.clients);
  }

  lemma SameWireNumber(a: nat, id: nat, nextId: nat)
    requires 1 <= a < nextId && id < 65536 && a % 65536 == id && nextId <= id + 65536
    ensures a == id
  {
    assert a == 65536 * (a / 65536) + id;
  }

  /** A call whose id no longer fits sixteen bits is never woken and never reports ok. */
  lemma WideIdsNeverSucceed(steps: seq<Step>, id: nat)
    requires id in Run(Init(), steps).clients && Run(Init(), steps).clients[id].waits && id >= 65536
    ensures !Run(Init(), steps).clients[id].woken
    ensures Run(Init(), steps).clients[id].phase != Returned(true)
  {
    RunKeeps(Init(), steps);
  }

  // ---------------------------------------------------------------- the verdict that is reported

  // Every result filed under a wire number is the verdict of some command with that number.
  ghost predicate ResultsTell(results: map<nat, Ack>, done: seq<Done>) {
    forall k :: k in results ==> VerdictAs(done, k, results[k].ok)
  }

  ghost predicate VerdictAs(done: seq<Done>, wire: nat, ok: bool) {
    exists i :: 0 <= i < |done| && done[i].id % 65536 == wire && done[i].ok == ok
  }

  predicate Pending(c: Client) {
    c.waits && (c.phase == Registered || c.phase == Sent)
  }

  // Who waits is registered and has not returned, and who was woken finds a result.
  ghost predicate WokenFinds(s: State) {
    && (forall id :: id in s.waiters ==> id in s.clients && Pending(s.clients[id]))
    && (forall id :: id in s.clients && Pending(s.clients[id]) && (s.clients[id].woken || s.waking == Some(id)) ==>
          id in s.results)
    && (forall id :: id in s.clients && s.clients[id].phase == Allocated ==>
          !s.clients[id].woken && s.waking != Some(id))
    && (s.waking.Some? ==> s.waking.value in s.clients)
  }

  // A call that does not wait returns true exactly if its packet was handed over.
  ghost predicate ForgetOk(s: State) {
    forall id :: id in s.clients && !s.clients[id].waits ==>
      && (s.clients[id].phase == Allocated || s.clients[id].phase.Returned?)
      && (s.clients[id].phase == Returned(true) <==> IsSent(s.sent, id))
  }

  ghost predicate IsSent(sent: seq<Message>, id: nat) {
    exists i :: 0 <= i < |sent| && sent[i].id == id
  }

  lemma IsSentGrows(sent: seq<Message>, m: Message, id: nat)
    ensures IsSent(sent + [m], id) <==> IsSent(sent, id) || m.id == id
  {
    var all := sent + [m];
    assert all[|sent|] == m;
    forall i | 0 <= i < |sent| ensures all[i] == sent[i] {
    }
  }

  lemma VerdictGrows(done: seq<Done>, e: Done, k: nat, ok: bool)
    requires VerdictAs(done, k, ok)
    ensures VerdictAs(done + [e], k, ok)
  {
    var i :| 0 <= i < |done| && done[i].id % 65536 == k && done[i].ok == ok;
    assert (done + [e])[i] == done[i];
  }

  lemma VerdictsKeep(s: State, step: Step)
    requires Inv(s) && ResultsTell(s.results, s.done)
    ensures ResultsTell(Next(s, step).results, Next(s, step).done)
  {
    hide VerdictAs, Execute, ReadAck, SentOk, IdsOk, CommandPacket, Deliverable, AckedAs, ReturnsOk;
    match step
    case Serve(brk) =>
      if |s.done| < |s.sent| {
        var e := Execute(s.sent[|s.done|], brk);
        forall k | k in s.results
          ensures VerdictAs(s.done + [e], k, s.results[k].ok)
        {
          VerdictGrows(s.done, e, k, s.results[k].ok);
        }
      }
    case Receive =>
      if s.heard < |s.done| {
        assert DoneFor(s.done[s.heard], s.clients);
        var p := s.done[s.heard].reply;
        assert VerdictAs(s.done, p.seqNo, ReadAck(p.payload).ok) by { VerdictOf(s.done, s.heard); }
      }
    case _ =>
  }

  lemma VerdictOf(done: seq<Done>, i: nat)
    requires i < |done|
    ensures VerdictAs(done, done[i].id % 65536, done[i].ok)
  {
  }

  lemma WokenKeeps(s: State, step: Step)
    requires Inv(s) && WokenFinds(s)
    ensures WokenFinds(Next(s, step))
  {
    match step
    case Receive => ReceiveWakes(s);
    case Serve(brk) => hide Execute, Inv, WokenFinds;
    case SetEvent => WakingStep(s, step);
    case FindLate(_) => WakingStep(s, step);
    case Finish(_) => WakingStep(s, step);
    case GiveUp(_) => WakingStep(s, step);
    case _ => SendingStep(s, step);
    hide Next, WokenFinds;
  }

  lemma WakingStep(s: State, step: Step)
    requires WokenFinds(s) && (step.SetEvent? || step.FindLate? || step.Finish? || step.GiveUp?)
    ensures WokenFinds(Next(s, step))
  {
  }

  lemma SendingStep(s: State, step: Step)
    requires IdsOk(s) && WokenFinds(s) && (step.Allocate? || step.Register? || step.Send? || step.SendFails?)
    ensures WokenFinds(Next(s, step))
  {
    hide CommandPacket, Deliverable;
  }

  lemma ReceiveWakes(s: State)
    requires WokenFinds(s)
    ensures WokenFinds(Next(s, Receive))
  {
    hide ReadAck;
  }

  lemma ForgetKeeps(s: State, step: Step)
    requires Inv(s) && ForgetOk(s)
    ensures ForgetOk(Next(s, step))
  {
    hide DoneOk, Execute, ReadAck, CommandPacket, Deliverable, ResultsOk, ReturnsOk, IsSent;
    match step
    case Allocate(frames, waits) => FreshIsUnsent(s);
    case Send(id) =>
      var t := Next(s, step);
      if t.sent != s.sent {
        forall k | k in t.clients
          ensures IsSent(t.sent, k) <==> IsSent(s.sent, k) || k == id
        {
          IsSentGrows(s.sent, t.sent[|s.sent|], k);
        }
      }
    case _ =>
  }

  lemma FreshIsUnsent(s: State)
    requires IdsOk(s) && SentOk(s)
    ensures !IsSent(s.sent, s.nextId)
  {
    forall i | 0 <= i < |s.sent| ensures s.sent[i].id != s.nextId {
      assert SentFrom(s.sent[i], s.clients);
    }
  }

  lemma {:induction false} RunTells(s: State, steps: seq<Step>)
    requires Inv(s) && ResultsTell(s.results, s.done) && WokenFinds(s) && ForgetOk(s)
    ensures var t := Run(s, steps); Inv(t) && ResultsTell(t.results, t.done) && WokenFinds(t) && ForgetOk(t)
    decreases |steps|
  {
    hide Inv, Next, ResultsTell, WokenFinds, ForgetOk;
    if steps != [] {
      NextKeeps(s, steps[0]);
      VerdictsKeep(s, steps[0]);
      WokenKeeps(s, steps[0]);
      ForgetKeeps(s, steps[0]);
      RunTells(Next(s, steps[0]), steps[1..]);
    }
  }

  // Where the call stands.
  function PhaseOf(s: State, id: nat): Phase {
    if id in s.clients then s.clients[id].phase else Allocated
  }

  /** And the verdict is the command's own in both directions: a woken call with fewer than 65536
      ids handed out after its own returns exactly what the server found when it carried that
      command out. */
  lemma FinishReportsVerdict(steps: seq<Step>, id: nat)
    requires var s := Run(Init(), steps);
             Waiting(s, id) && s.clients[id].woken && s.nextId <= id + 65536
    ensures var s := Run(Init(), steps);
            exists i :: 0 <= i < |s.done| && s.done[i].id == id
              && PhaseOf(Next(s, Finish(id)), id) == Returned(s.done[i].ok)
  {
    RunTells(Init(), steps);
    hide Run;
    OwnVerdict(Run(Init(), steps), id);
  }

  lemma OwnVerdict(s: State, id: nat)
    requires Inv(s) && ResultsTell(s.results, s.done) && WokenFinds(s)
    requires Waiting(s, id) && s.clients[id].woken && s.nextId <= id + 65536
    ensures exists i :: 0 <= i < |s.done| && s.done[i].id == id
              && PhaseOf(Next(s, Finish(id)), id) == Returned(s.done[i].ok)
  {
    assert id in s.results && VerdictAs(s.done, id, s.results[id].ok);
    var i :| 0 <= i < |s.done| && s.done[i].id % 65536 == id && s.done[i].ok == s.results[id].ok;
    assert DoneFor(s.done[i], s.clients) && ReturnOk(id, s.clients[id], s.done);
    SameWireNumber(s.done[i].id, id, s.nextId);
    FinishReturns(s, id);
    hide Inv, Next, ResultsTell, WokenFinds;
  }

  lemma FinishReturns(s: State, id: nat)
    requires Waiting(s, id) && s.clients[id].woken && id in s.results
    ensures PhaseOf(Next(s, Finish(id)), id) == Returned(s.results[id].ok)
  {
  }

  /** A fire-and-forget call returns true exactly if its packet was handed to the connection. */
  lemma ForgetMeansSent(steps: seq<Step>, id: nat)
    requires var s := Run(Init(), steps);
             id in s.clients && !s.clients[id].waits && s.clients[id].phase.Returned?
    ensures var s := Run(Init(), steps); s.clients[id].phase.ok <==> IsSent(s.sent, id)
  {
    RunTells(Init(), steps);
    hide Run;
  }

  // ---------------------------------------------------------------- the server is the server

  function Packets(sent: seq<Message>): seq<Packet> {
    if sent == [] then [] else Packets(sent[..|sent| - 1]) + [sent[|sent| - 1].packet]
  }

  function Replies(done: seq<Done>): seq<Packet> {
    if done == [] then [] else Replies(done[..|done| - 1]) + [done[|done| - 1].reply]
  }

  // What struck the commands served along a run.
  function Struck(s: State, steps: seq<Step>): seq<(Break, seq<Byte>)>
    decreases |steps|
  {
    if steps == [] then []
    else
      (if steps[0].Serve? && |s.done| < |s.sent| then [steps[0].brk] else []) + Struck(Next(s, steps[0]), steps[1..])
  }

  function BreaksOf(struck: seq<(Break, seq<Byte>)>): Breaks {
    (i: nat) => if i < |struck| then struck[i] else (None, [])
  }

  // The server has done what one batch with the packets taken so far makes it do.
  ghost predicate AsOneBatch(s: State, struck: seq<(Break, seq<Byte>)>) {
    && |s.done| == |struck| && |s.done| <= |s.sent|
    && ServeBatch(Packets(s.sent[..|s.done|]), Line([], [], 0), BreaksOf(struck))
       == Line(s.serial, Replies(s.done), |s.done|)
  }

  lemma {:induction false} SameBreaks(ps: seq<Packet>, l: Line, b: Breaks, c: Breaks)
    requires forall i: nat :: i < l.tried + |ps| ==> b(i) == c(i)
    ensures ServeBatch(ps, l, b) == ServeBatch(ps, l, c)
    decreases |ps|
  {
    if ps != [] && ps[0].kind != T_STOP {
      SameBreaks(ps[1..], ServeOne(ps[0], l, b), b, c);
    }
  }

  lemma {:induction false} PacketsAreCommands(sent: seq<Message>, clients: map<nat, Client>)
    requires forall i :: 0 <= i < |sent| ==> SentFrom(sent[i], clients)
    ensures |Packets(sent)| == |sent| && forall i :: 0 <= i < |sent| ==> Packets(sent)[i].kind == T_CMD
  {
    hide Deliverable;
    if sent != [] {
      var before := sent[..|sent| - 1];
      forall i | 0 <= i < |before| ensures SentFrom(before[i], clients) {
        assert SentFrom(sent[i], clients);
      }
      PacketsAreCommands(before, clients);
      assert SentFrom(sent[|sent| - 1], clients);
    }
  }

  // The server's step is ServeOne on the packet.
  lemma ExecuteIsServeOne(m: Message, l: Line, breaks: Breaks)
    requires m.packet.kind == T_CMD
    ensures var e := Execute(m, breaks(l.tried));
            ServeOne(m.packet, l, breaks) == Line(l.serial + e.written, l.replies + [e.reply], l.tried + 1)
  {
  }

  lemma SentAreCommands(s: State, n: nat)
    requires Inv(s) && n < |s.sent|
    ensures |Packets(s.sent[..n])| == n && s.sent[n].packet.kind == T_CMD
    ensures forall i :: 0 <= i < n ==> Packets(s.sent[..n])[i].kind == T_CMD
  {
    forall i | 0 <= i < n ensures SentFrom(s.sent[..n][i], s.clients) {
      assert SentFrom(s.sent[i], s.clients);
    }
    PacketsAreCommands(s.sent[..n], s.clients);
    assert SentFrom(s.sent[n], s.clients);
    hide Inv, Packets;
  }

  lemma OneMore(sent: seq<Message>, n: nat, done: seq<Done>, e: Done)
    requires n < |sent|
    ensures Packets(sent[..n + 1]) == Packets(sent[..n]) + [sent[n].packet]
    ensures Replies(done + [e]) == Replies(done) + [e.reply]
  {
    assert sent[..n + 1][..n] == sent[..n] && (done + [e])[..|done|] == done;
  }

  lemma ServeIsBatch(s: State, brk: (Break, seq<Byte>), struck: seq<(Break, seq<Byte>)>)
    requires Inv(s) && AsOneBatch(s, struck) && |s.done| < |s.sent|
    ensures AsOneBatch(Next(s, Serve(brk)), struck + [brk])
  {
    hide Execute, ServeBatch, Inv, BreaksOf, Packets, Replies;
    var n := |s.done|;
    SentAreCommands(s, n);
    OneMore(s.sent, n, s.done, Execute(s.sent[n], brk));
    BatchGrows(Packets(s.sent[..n]), s.sent[n], struck, brk);
  }

  // One more command behind a batch of commands.
  lemma BatchGrows(ps: seq<Packet>, m: Message, struck: seq<(Break, seq<Byte>)>, brk: (Break, seq<Byte>))
    requires |ps| == |struck| && m.packet.kind == T_CMD && forall i :: 0 <= i < |ps| ==> ps[i].kind == T_CMD
    requires ServeBatch(ps, Line([], [], 0), BreaksOf(struck)).tried == |ps|
    ensures var l, e := ServeBatch(ps, Line([], [], 0), BreaksOf(struck)), Execute(m, brk);
            ServeBatch(ps + [m.packet], Line([], [], 0), BreaksOf(struck + [brk]))
            == Line(l.serial + e.written, l.replies + [e.reply], l.tried + 1)
  {
    hide Execute, ServeOne, ServeBatch;
    var more := struck + [brk];
    SameBreaks(ps, Line([], [], 0), BreaksOf(struck), BreaksOf(more));
    BatchesCompose(ps, [m.packet], Line([], [], 0), BreaksOf(more));
    var l := ServeBatch(ps, Line([], [], 0), BreaksOf(more));
    ServeBatchOfOne(m.packet, l, BreaksOf(more));
    ExecuteIsServeOne(m, l, BreaksOf(more));
  }

  lemma OtherStepsKeepBatch(s: State, step: Step, struck: seq<(Break, seq<Byte>)>)
    requires Inv(s) && AsOneBatch(s, struck) && !(step.Serve? && |s.done| < |s.sent|)
    ensures AsOneBatch(Next(s, step), struck)
  {
    hide Inv, ServeBatch, Replies, Packets, ReadAck, CommandPacket, Deliverable, Execute;
    var t := Next(s, step);
    assert t.done == s.done && t.serial == s.serial;
    assert s.sent <= t.sent;
    assert t.sent[..|s.done|] == s.sent[..|s.done|];
  }

  lemma {:induction false} RunIsBatch(s: State, steps: seq<Step>, struck: seq<(Break, seq<Byte>)>)
    requires Inv(s) && AsOneBatch(s, struck)
    ensures AsOneBatch(Run(s, steps), struck + Struck(s, steps))
    decreases |steps|
  {
    hide Inv, Next, AsOneBatch;
    if steps == [] {
      assert struck + [] == struck;
    } else {
      var now := if steps[0].Serve? && |s.done| < |s.sent| then [steps[0].brk] else [];
      NextKeeps(s, steps[0]);
      if now != [] {
        ServeIsBatch(s, steps[0].brk, struck);
      } else {
        OtherStepsKeepBatch(s, steps[0], struck);
        assert struck + now == struck;
      }
      RunIsBatch(Next(s, steps[0]), steps[1..], struck + now);
      assert struck + Struck(s, steps) == struck + now + Struck(Next(s, steps[0]), steps[1..]);
    }
  }

  /** The server of the link is the injected server: along every run its writes and its replies are
      those of serving the packets handed over, in order, as one batch. */
  lemma ServedAsOneBatch(steps: seq<Step>)
    ensures AsOneBatch(Run(Init(), steps), Struck(Init(), steps))
  {
    RunIsBatch(Init(), steps, []);
    assert [] + Struck(Init(), steps) == Struck(Init(), steps);
  }

  // ---------------------------------------------------------------- the bound is exact

  function Repeat(step: Step, n: nat): seq<Step> {
    if n == 0 then [] else [step] + Repeat(step, n - 1)
  }

  lemma {:induction false} RunJoins(s: State, a: seq<Step>, b: seq<Step>)
    ensures Run(s, a + b) == Run(Run(s, a), b)
    decreases |a|
  {
    if a == [] {
      assert a + b == b;
    } else {
      assert (a + b)[1..] == a[1..] + b;
      RunJoins(Next(s, a[0]), a[1..], b);
    }
  }

  // n allocations of empty fire-and-forget commands change nothing else.
  ghost predicate OnlyAllocated(s: State, t: State, n: nat) {
    && t.nextId == s.nextId + n
    && (forall id :: id in t.clients ==> id < t.nextId)
    && (forall id :: id in s.clients ==> id in t.clients && t.clients[id] == s.clients[id])
    && (forall id :: s.nextId <= id < t.nextId ==>
          id in t.clients && t.clients[id] == Client([], false, Allocated, false))
    && t.waiters == s.waiters && t.results == s.results
    && t.sent == s.sent && t.done == s.done && t.heard == s.heard && t.waking == s.waking && t.serial == s.serial
  }

  lemma {:induction false} ManyAllocations(s: State, n: nat)
    requires forall id :: id in s.clients ==> id < s.nextId
    ensures OnlyAllocated(s, Run(s, Repeat(Allocate([], false), n)), n)
    decreases n
  {
    if n > 0 {
      var t := Next(s, Allocate([], false));
      var steps := Repeat(Allocate([], false), n);
      assert steps[1..] == Repeat(Allocate([], false), n - 1);
      ManyAllocations(t, n - 1);
    }
  }

  // The thread of `id` is held up between registering and sending while the command 65536
  // ids later goes through; it then sends and finds itself acknowledged.
  function Overtaken(id: nat): seq<Step> {
    [Send(id + 65536), Serve((None, [])), Receive, SetEvent, Send(id), Finish(id)]
  }

  /** With 65536 ids handed out after it, a call can return ok before the server has seen its
      command at all: for every id the wire can carry there is such a run. */
  lemma AliasedOkIsFalse(id: nat, frames: seq<Frame>)
    requires 1 <= id < 65536 && Deliverable(frames)
    ensures exists steps :: var s := Run(Init(), steps);
              && s.nextId == id + 65537
              && id in s.clients && s.clients[id].frames == frames && s.clients[id].waits
              && s.clients[id].phase == Returned(true)
              && !CarriedOutOnce(s, id)
  {
    hide Run, Repeat, Deliverable, Overtaken, CarriedOutOnce, RoundTheIds, WaitsFor;
    var steps := RoundTheIds(id, frames);
    RoundTheIdsWaits(id, frames);
    OvertakenReturnsOk(Run(Init(), steps), id, frames);
    RunJoins(Init(), steps, Overtaken(id));
    assert Run(Init(), steps + Overtaken(id)).nextId == id + 65537;
  }

  // Command `id` is registered, and every other id up to 65536 later is taken.
  function RoundTheIds(id: nat, frames: seq<Frame>): seq<Step>
    requires id >= 1
  {
    Repeat(Allocate([], false), id - 1) + [Allocate(frames, true), Register(id)] + Repeat(Allocate([], false), 65536)
  }

  // Commands `id` and `id + 65536` are ready to be sent and nothing has been.
  predicate WaitsFor(c: State, id: nat, frames: seq<Frame>) {
    && id in c.clients && c.clients[id] == Client(frames, true, Registered, false) && id in c.waiters
    && id + 65536 in c.clients && c.clients[id + 65536] == Client([], false, Allocated, false)
    && c.sent == [] && c.heard == 0 && c.done == [] && c.waking == None
  }

  lemma RoundTheIdsWaits(id: nat, frames: seq<Frame>)
    requires 1 <= id < 65536
    ensures var c := Run(Init(), RoundTheIds(id, frames)); WaitsFor(c, id, frames) && c.nextId == id + 65537
  {
    var other := Allocate([], false);
    var before, after := Repeat(other, id - 1), Repeat(other, 65536);
    var mine := [Allocate(frames, true), Register(id)];
    ManyAllocations(Init(), id - 1);
    var a := Run(Init(), before);
    RegisterAsNext(a, id, frames);
    hide Run, Repeat, Next;
    var b := Run(a, mine);
    ManyAllocations(b, 65536);
    RunJoins(Init(), before, mine);
    RunJoins(Init(), before + mine, after);
  }

  lemma RegisterAsNext(a: State, id: nat, frames: seq<Frame>)
    requires id >= 1 && OnlyAllocated(Init(), a, id - 1)
    requires forall k :: k in a.clients ==> k < a.nextId
    ensures var b := Run(a, [Allocate(frames, true), Register(id)]);
            && b.nextId == id + 1 && id in b.clients && b.clients[id] == Client(frames, true, Registered, false)
            && (forall k :: k in b.clients ==> k < b.nextId)
            && id in b.waiters && b.sent == [] && b.done == [] && b.heard == 0 && b.waking == None
  {
    RunTwo(a, Allocate(frames, true), Register(id));
  }

  lemma RunTwo(s: State, x: Step, y: Step)
    ensures Run(s, [x, y]) == Next(Next(s, x), y)
  {
    hide Next;
    RunFirst(s, x, [y]);
    RunFirst(Next(s, x), y, []);
    assert [x] + [y] == [x, y];
  }

  lemma OvertakenReturnsOk(c: State, id: nat, frames: seq<Frame>)
    requires 1 <= id < 65536 && Deliverable(frames) && WaitsFor(c, id, frames)
    ensures var s := Run(c, Overtaken(id));
            && s.nextId == c.nextId && id in s.clients && s.clients[id].frames == frames && s.clients[id].waits
            && s.clients[id].phase == Returned(true) && !CarriedOutOnce(s, id)
  {
    OvertakenRun(c, id);
    hide Run, Next, CarriedOutOnce, WaitsFor, Deliverable;
    var s3 := FarCommandWakes(c, id, frames);
    WokenFinishes(s3, id, frames);
  }

  // A woken call sends its command and finds the reply it takes for its own.
  lemma WokenFinishes(s: State, id: nat, frames: seq<Frame>)
    requires id in s.clients && s.clients[id] == Client(frames, true, Registered, true) && Deliverable(frames)
    requires id in s.results && s.results[id].ok && |s.done| == 1 && s.done[0].id != id
    ensures var t := Next(Next(s, Send(id)), Finish(id));
            && t.nextId == s.nextId && id in t.clients && t.clients[id].frames == frames && t.clients[id].waits
            && t.clients[id].phase == Returned(true) && !CarriedOutOnce(t, id)
  {
    hide CommandPacket, CarriedOutOnce, Deliverable;
    var sent := Next(s, Send(id));
    assert sent.clients[id] == Client(frames, true, Sent, true) && sent.done == s.done && sent.results == s.results;
    NotCarriedOut(Next(sent, Finish(id)), id);
  }

  lemma NotCarriedOut(s: State, id: nat)
    requires |s.done| == 1 && s.done[0].id != id
    ensures !CarriedOutOnce(s, id)
  {
  }

  // The far command goes through, and its reply wakes the near one.
  lemma FarCommandWakes(c: State, id: nat, frames: seq<Frame>) returns (s3: State)
    requires 1 <= id < 65536 && WaitsFor(c, id, frames)
    ensures s3 == Next(Next(Next(Next(c, Send(id + 65536)), Serve((None, []))), Receive), SetEvent)
    ensures s3.nextId == c.nextId && id in s3.clients && s3.clients[id] == Client(frames, true, Registered, true)
    ensures id in s3.results && s3.results[id].ok && |s3.done| == 1 && s3.done[0].id == id + 65536
  {
    var far := id + 65536;
    assert Deliverable([]);
    var m := Message(far, CommandPacket(far, []));
    CommandRoundTrip([], []);
    AckRoundTrip(true, []);
    assert EncodeCommand([]) + [] == m.packet.payload;
    var e := Execute(m, (None, []));
    assert e.ok && e.id == far && e.reply.seqNo == id && ReadAck(e.reply.payload).ok;
    hide Execute, ReadAck, CommandPacket, Deliverable;
    var s1 := Next(c, Send(far));
    assert s1.sent == [m] && s1.done == [] && s1.heard == 0 && s1.waking == None && s1.waiters == c.waiters;
    var s2 := Next(s1, Serve((None, [])));
    assert s2.done == [e] && s2.heard == 0 && s2.waking == None && s2.waiters == c.waiters;
    ReplyWakes(s2, id, frames);
    s3 := Next(Next(s2, Receive), SetEvent);
  }

  lemma ReplyWakes(s: State, id: nat, frames: seq<Frame>)
    requires s.heard == 0 && |s.done| == 1 && s.waking == None && id in s.waiters
    requires s.done[0].reply.seqNo == id && ReadAck(s.done[0].reply.payload).ok
    requires id in s.clients && s.clients[id] == Client(frames, true, Registered, false)
    ensures var t := Next(Next(s, Receive), SetEvent);
            && t.nextId == s.nextId && t.done == s.done && id in t.results && t.results[id].ok
            && id in t.clients && t.clients[id] == Client(frames, true, Registered, true)
  {
    hide ReadAck;
  }

  lemma OvertakenRun(c: State, id: nat)
    ensures Run(c, Overtaken(id)) ==
            Next(Next(Next(Next(Next(Next(c, Send(id + 65536)), Serve((None, []))), Receive), SetEvent), Send(id)),
                 Finish(id))
  {
    hide Next;
    RunFirst(c, Send(id + 65536), [Serve((None, [])), Receive, SetEvent, Send(id), Finish(id)]);
    var c1 := Next(c, Send(id + 65536));
    RunFirst(c1, Serve((None, [])), [Receive, SetEvent, Send(id), Finish(id)]);
    var c2 := Next(c1, Serve((None, [])));
    RunFirst(c2, Receive, [SetEvent, Send(id), Finish(id)]);
    var c3 := Next(c2, Receive);
    RunFirst(c3, SetEvent, [Send(id), Finish(id)]);
    RunTwo(Next(c3, SetEvent), Send(id), Finish(id));
  }

  lemma RunFirst(s: State, x: Step, later: seq<Step>)
    ensures Run(s, [x] + later) == Run(Next(s, x), later)
  {
    assert ([x] + later)[1..] == later;
  }
}
