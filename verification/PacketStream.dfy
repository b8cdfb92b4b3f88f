/** The binary packet layer of the gripper link: how the injected server and the node cut
    the byte stream into packets, and when the two cuts agree. */
module PacketStream {
  import opened Wrappers
  import opened BitArithmetic

  const HEADER_SIZE: nat := 8
  const VERSION: Byte := 1

  datatype Packet = Packet(kind: Byte, seqNo: Word, payload: seq<Byte>)

  datatype Parsed = Parsed(packets: seq<Packet>, rest: seq<Byte>)

  // Packets already cut off, then what a later cut gives.
  function Join(earlier: seq<Packet>, later: Parsed): Parsed {
    Parsed(earlier + later.packets, later.rest)
  }

  lemma JoinAssociates(a: seq<Packet>, b: seq<Packet>, c: Parsed)
    ensures Join(a + b, c) == Join(a, Join(b, c))
  {
    assert a + b + c.packets == a + (b + c.packets);
  }

  lemma JoinNothing(c: Parsed)
    ensures Join([], c) == c
    ensures Join(c.packets, Parsed([], c.rest)) == c
  {
  }

  // The header's length field has sixteen bits.
  predicate Sendable(p: Packet) {
    |p.payload| < 65536
  }

  function EncodePacket(p: Packet): (r: seq<Byte>)
    requires Sendable(p)
    ensures |r| == HEADER_SIZE + |p.payload|
  {
    [0x47, 0x50, VERSION, p.kind] + HighFirst(p.seqNo) + HighFirst(|p.payload|) + p.payload
  }

  function EncodeAll(ps: seq<Packet>): seq<Byte>
    requires forall p :: p in ps ==> Sendable(p)
  {
    if ps == [] then [] else EncodePacket(ps[0]) + EncodeAll(ps[1..])
  }

  /** _send_bin of the node: type and sequence number are masked, an oversized payload raises. */
  function SendBin(mtype: int, seqNo: int, payload: seq<Byte>): (r: Option<seq<Byte>>)
    ensures r.Some? <==> |payload| < 65536
    ensures r.Some? ==> r.value == EncodePacket(Packet(mtype % 256, seqNo % 65536, payload))
  {
    if |payload| >= 65536 then None
    else Some([0x47, 0x50, VERSION, mtype % 256] + HighFirst(seqNo % 65536) + HighFirst(|payload|) + payload)
  }

  predicate GoodHeader(buf: seq<Byte>)
    requires |buf| >= HEADER_SIZE
  {
    buf[0] == 0x47 && buf[1] == 0x50 && buf[2] == VERSION
  }

  function PacketSize(buf: seq<Byte>): (n: nat)
    requires |buf| >= HEADER_SIZE
    ensures n >= HEADER_SIZE
  {
    HEADER_SIZE + WordAt(buf, 6)
  }

  function FirstPacket(buf: seq<Byte>): Packet
    requires |buf| >= HEADER_SIZE && |buf| >= PacketSize(buf)
  {
    Packet(buf[3], WordAt(buf, 4), buf[HEADER_SIZE..PacketSize(buf)])
  }

  /** The server's loop: a byte that cannot start a header is dropped and the search goes on. */
  function Parse(buf: seq<Byte>): Parsed {
    if |buf| < HEADER_SIZE then Parsed([], buf)
    else if !GoodHeader(buf) then Parse(buf[1..])
    else if |buf| < PacketSize(buf) then Parsed([], buf)
    else
      Join([FirstPacket(buf)], Parse(buf[PacketSize(buf)..]))
  }

  /** The node's loop: it also drops such a byte, but then waits for the next receive. */
  function Take(buf: seq<Byte>): Parsed {
    if |buf| < HEADER_SIZE then Parsed([], buf)
    else if !GoodHeader(buf) then Parsed([], buf[1..])
    else if |buf| < PacketSize(buf) then Parsed([], buf)
    else
      Join([FirstPacket(buf)], Take(buf[PacketSize(buf)..]))
  }

  // ---------------------------------------------------------------- splitting the stream

  lemma {:induction false} ParseSplits(a: seq<Byte>, b: seq<Byte>)
    ensures Parse(a + b) == Join(Parse(a).packets, Parse(Parse(a).rest + b))
    decreases |a|
  {
    if |a| < HEADER_SIZE || (GoodHeader(a) && |a| < PacketSize(a)) {
      JoinNothing(Parse(a + b));
    } else if !GoodHeader(a) {
      assert (a + b)[1..] == a[1..] + b;
      ParseSplits(a[1..], b);
    } else {
      var n := PacketSize(a);
      assert (a + b)[n..] == a[n..] + b;
      assert (a + b)[HEADER_SIZE..n] == a[HEADER_SIZE..n];
      ParseSplits(a[n..], b);
      var later := Parse(a[n..]);
      JoinAssociates([FirstPacket(a)], later.packets, Parse(later.rest + b));
    }
  }

  function Concat(chunks: seq<seq<Byte>>): seq<Byte> {
    if chunks == [] then [] else chunks[0] + Concat(chunks[1..])
  }

  // The stop word b"STOP" starts at position k.
  predicate StopAt(s: seq<Byte>, k: nat) {
    k + 4 <= |s| && s[k] == 0x53 && s[k + 1] == 0x54 && s[k + 2] == 0x4F && s[k + 3] == 0x50
  }

  predicate HasStop(s: seq<Byte>) {
    exists k | 0 <= k < |s| :: StopAt(s, k)
  }

  predicate Plain(chunk: seq<Byte>) {
    chunk != [] && !HasStop(chunk)
  }

  // What one call of the server's receive function gives back.
  datatype Received = Closed | Stopped | Batch(packets: seq<Packet>)

  // Index of the first receive that ends the session, or their number.
  function FirstEnding(chunks: seq<seq<Byte>>): (k: nat)
    ensures k <= |chunks|
    ensures forall i :: 0 <= i < k ==> Plain(chunks[i])
    ensures k < |chunks| ==> !Plain(chunks[k])
  {
    if chunks == [] || !Plain(chunks[0]) then 0 else 1 + FirstEnding(chunks[1..])
  }

  /** The receive side of the injected server. */
  class ServerReceiver {
    var rxbuf: seq<Byte>

    constructor ()
      ensures rxbuf == []
    {
      rxbuf := [];
    }

    /** The calls of a session, one poll each, up to the one that ends it. */
    method ReceiveAll(polls: seq<seq<seq<Byte>>>) returns (packets: seq<Packet>, live: bool)
      modifies this
      ensures Serve(polls, old(rxbuf)) == if live then Live(Parsed(packets, rxbuf)) else Over(packets)
    {
      hide Parse;
      packets, live := [], true;
      for i := 0 to |polls|
        invariant Serve(polls, old(rxbuf)) == Prepend(packets, Serve(polls[i..], rxbuf))
      {
        var r := ReceivePackets(polls[i]);
        assert polls[i..][1..] == polls[i + 1..];
        if !r.Batch? {
          assert packets + [] == packets;
          return packets, false;
        }
        PrependTwice(packets, r.packets, Serve(polls[i + 1..], rxbuf));
        packets := packets + r.packets;
      }
      assert packets + [] == packets;
    }

    /** _recv_bin_packets, where `chunks` are the receives that succeed before select runs dry. */
    method ReceivePackets(chunks: seq<seq<Byte>>) returns (r: Received)
      modifies this
      ensures var k := FirstEnding(chunks);
              if k == |chunks| then
                && r == Batch(Parse(old(rxbuf) + Concat(chunks)).packets)
                && rxbuf == Parse(old(rxbuf) + Concat(chunks)).rest
              else
                && r == (if chunks[k] == [] then Closed else Stopped)
                && rxbuf == old(rxbuf) + Concat(chunks[..k])
    {
      var i := 0;
      assert rxbuf == rxbuf + Concat(chunks[..0]);
      while i < |chunks|
        invariant i <= FirstEnding(chunks)
        invariant rxbuf == old(rxbuf) + Concat(chunks[..i])
      {
        var raw := chunks[i];
        if raw == [] {
          return Closed;
        }
        if HasStop(raw) {
          return Stopped;
        }
        ConcatAppends(chunks[..i], raw);
        assert chunks[..i + 1] == chunks[..i] + [raw];
        rxbuf := rxbuf + raw;
        i := i + 1;
      }
      assert chunks[..i] == chunks;
      ghost var all := rxbuf;
      var packets: seq<Packet> := [];
      while |rxbuf| >= HEADER_SIZE
        invariant Parse(all) == Join(packets, Parse(rxbuf))
        decreases |rxbuf|
      {
        if !GoodHeader(rxbuf) {
          rxbuf := rxbuf[1..];
          continue;
        }
        var n := PacketSize(rxbuf);
        if |rxbuf| < n {
          break;
        }
        JoinAssociates(packets, [FirstPacket(rxbuf)], Parse(rxbuf[n..]));
        packets := packets + [FirstPacket(rxbuf)];
        rxbuf := rxbuf[n..];
      }
      r := Batch(packets);
    }
  }

  lemma PrependTwice(a: seq<Packet>, b: seq<Packet>, later: Session)
    ensures Prepend(a + b, later) == Prepend(a, Prepend(b, later))
  {
    match later
    case Live(parsed) => JoinAssociates(a, b, parsed);
    case Over(more) => assert a + b + more == a + (b + more);
  }

  lemma {:induction false} ConcatAppends(chunks: seq<seq<Byte>>, c: seq<Byte>)
    ensures Concat(chunks + [c]) == Concat(chunks) + c
  {
    if chunks == [] {
      assert chunks + [c] == [c];
      assert |[c][1..]| == 0;
    } else {
      assert (chunks + [c])[1..] == chunks[1..] + [c];
      ConcatAppends(chunks[1..], c);
    }
  }

  // A session of calls: what it has delivered, and whether it is still running.
  datatype Session = Live(parsed: Parsed) | Over(packets: seq<Packet>)

  function Prepend(packets: seq<Packet>, later: Session): Session {
    match later
    case Live(parsed) => Live(Join(packets, parsed))
    case Over(more) => Over(packets + more)
  }

  predicate AllPlain(chunks: seq<seq<Byte>>) {
    forall i :: 0 <= i < |chunks| ==> Plain(chunks[i])
  }

  // A poll with a closed socket or a stop word in it ends the session, its own receives lost.
  function Serve(polls: seq<seq<seq<Byte>>>, rxbuf: seq<Byte>): Session
    decreases |polls|
  {
    if polls == [] then Live(Parsed([], rxbuf))
    else if !AllPlain(polls[0]) then Over([])
    else
      var now := Parse(rxbuf + Concat(polls[0]));
      Prepend(now.packets, Serve(polls[1..], now.rest))
  }

  // The number of polls before the first that ends the session.
  function Survived(polls: seq<seq<seq<Byte>>>): (k: nat)
    ensures k <= |polls|
    ensures k == |polls| <==> forall i :: 0 <= i < |polls| ==> AllPlain(polls[i])
  {
    if polls == [] || !AllPlain(polls[0]) then 0 else 1 + Survived(polls[1..])
  }

  function Stream(polls: seq<seq<seq<Byte>>>): seq<Byte> {
    if polls == [] then [] else Concat(polls[0]) + Stream(polls[1..])
  }

  /** What a session delivers is the stream of the polls it survives, parsed at once, however it
      was received; it is still running exactly if it survives them all. */
  lemma {:induction false} ServerIsChunkIndependent(polls: seq<seq<seq<Byte>>>, rxbuf: seq<Byte>)
    requires Parse(rxbuf) == Parsed([], rxbuf)
    ensures var k := Survived(polls);
            var parsed := Parse(rxbuf + Stream(polls[..k]));
            Serve(polls, rxbuf) == if k == |polls| then Live(parsed) else Over(parsed.packets)
    decreases |polls|
  {
    hide Parse;
    var k := Survived(polls);
    if k == 0 {
      assert polls[..0] == [] && rxbuf + Stream(polls[..0]) == rxbuf;
    } else {
      var seen, more := rxbuf + Concat(polls[0]), Stream(polls[1..][..k - 1]);
      assert polls[..k][1..] == polls[1..][..k - 1];
      assert rxbuf + Stream(polls[..k]) == seen + more;
      RestIsSettled(seen);
      ServerIsChunkIndependent(polls[1..], Parse(seen).rest);
      ParseSplits(seen, more);
    }
  }

  // ---------------------------------------------------------------- every way to receive a stream

  // A way to receive s: non-empty receives of at most c bytes, in any number of polls.
  ghost predicate SplitOf(polls: seq<seq<seq<Byte>>>, s: seq<Byte>, c: nat) {
    Stream(polls) == s && forall i, j :: 0 <= i < |polls| && 0 <= j < |polls[i]| ==> 0 < |polls[i][j]| <= c
  }

  lemma StopSpreads(a: seq<Byte>, x: seq<Byte>, b: seq<Byte>)
    requires HasStop(x)
    ensures HasStop(a + x + b)
  {
    var k :| 0 <= k < |x| && StopAt(x, k);
    assert StopAt(a + x + b, |a| + k);
  }

  lemma {:induction false} ConcatHasStop(chunks: seq<seq<Byte>>, j: nat)
    requires j < |chunks| && HasStop(chunks[j])
    ensures HasStop(Concat(chunks))
    decreases |chunks|
  {
    var later := Concat(chunks[1..]);
    if j == 0 {
      StopSpreads([], chunks[0], later);
      assert [] + chunks[0] + later == Concat(chunks);
    } else {
      ConcatHasStop(chunks[1..], j - 1);
      StopSpreads(chunks[0], later, []);
      assert chunks[0] + later + [] == Concat(chunks);
    }
  }

  lemma {:induction false} StreamHasStop(polls: seq<seq<seq<Byte>>>, i: nat)
    requires i < |polls| && HasStop(Concat(polls[i]))
    ensures HasStop(Stream(polls))
    decreases |polls|
  {
    var now, later := Concat(polls[0]), Stream(polls[1..]);
    if i == 0 {
      StopSpreads([], now, later);
      assert [] + now + later == Stream(polls);
    } else {
      StreamHasStop(polls[1..], i - 1);
      StopSpreads(now, later, []);
      assert now + later + [] == Stream(polls);
    }
  }

  lemma PlainWithoutStop(polls: seq<seq<seq<Byte>>>, s: seq<Byte>, c: nat)
    requires SplitOf(polls, s, c) && (!HasStop(s) || c < 4)
    ensures Survived(polls) == |polls|
  {
    forall i, j | 0 <= i < |polls| && 0 <= j < |polls[i]|
      ensures Plain(polls[i][j])
    {
      if HasStop(polls[i][j]) {
        ConcatHasStop(polls[i], j);
        StreamHasStop(polls, i);
      }
    }
  }

  // One byte at a time.
  function Bytes(s: seq<Byte>): (chunks: seq<seq<Byte>>)
    ensures |chunks| == |s| && forall i :: 0 <= i < |s| ==> chunks[i] == [s[i]]
  {
    if s == [] then [] else [[s[0]]] + Bytes(s[1..])
  }

  lemma {:induction false} BytesJoin(s: seq<Byte>)
    ensures Concat(Bytes(s)) == s
    decreases |s|
  {
    if s != [] {
      assert Bytes(s)[1..] == Bytes(s[1..]);
      BytesJoin(s[1..]);
    }
  }

  lemma {:induction false} ConcatJoins(a: seq<seq<Byte>>, b: seq<seq<Byte>>)
    ensures Concat(a + b) == Concat(a) + Concat(b)
    decreases |a|
  {
    if a == [] {
      assert a + b == b;
    } else {
      assert (a + b)[1..] == a[1..] + b;
      ConcatJoins(a[1..], b);
    }
  }

  // The stop word at k in one receive, everything else byte by byte, in one poll.
  function AroundStop(s: seq<Byte>, k: nat): seq<seq<Byte>>
    requires k + 4 <= |s|
  {
    Bytes(s[..k]) + [s[k..k + 4]] + Bytes(s[k + 4..])
  }

  lemma AroundStopJoins(s: seq<Byte>, k: nat)
    requires k + 4 <= |s|
    ensures Stream([AroundStop(s, k)]) == s
  {
    hide Bytes, Concat;
    var a, x, b := Bytes(s[..k]), s[k..k + 4], Bytes(s[k + 4..]);
    BytesJoin(s[..k]);
    BytesJoin(s[k + 4..]);
    ConcatAppends(a, x);
    ConcatJoins(a + [x], b);
    OnePoll(AroundStop(s, k));
    ThreeParts(s, k, k + 4);
  }

  lemma ThreeParts(s: seq<Byte>, i: nat, j: nat)
    requires i <= j <= |s|
    ensures s[..i] + s[i..j] + s[j..] == s
  {
  }

  lemma AroundStopSplits(s: seq<Byte>, k: nat, c: nat)
    requires k + 4 <= |s| && c >= 4
    ensures SplitOf([AroundStop(s, k)], s, c)
  {
    AroundStopJoins(s, k);
    hide Stream;
    var chunks := AroundStop(s, k);
    forall j | 0 <= j < |chunks|
      ensures 0 < |chunks[j]| <= c
    {
    }
  }

  lemma OnePoll(chunks: seq<seq<Byte>>)
    ensures Stream([chunks]) == Concat(chunks)
  {
    assert |[chunks][1..]| == 0;
    assert Concat(chunks) + [] == Concat(chunks);
  }

  /** Exactly which streams arrive however they are received, with any limit on a receive: those
      that do not spell the stop word, or all if no receive has room for it. */
  lemma EverySplitDeliversIff(s: seq<Byte>, c: nat)
    ensures (forall polls :: SplitOf(polls, s, c) ==> Serve(polls, []) == Live(Parse(s)))
       <==> !HasStop(s) || c < 4
  {
    hide Parse, Serve;
    if HasStop(s) && c >= 4 {
      var k :| 0 <= k < |s| && StopAt(s, k);
      var chunks := AroundStop(s, k);
      AroundStopSplits(s, k, c);
      assert StopAt(chunks[k], 0);
      assert !AllPlain(chunks);
      ServerIsChunkIndependent([chunks], []) by { ParseSmall([]); }
    } else {
      forall polls | SplitOf(polls, s, c)
        ensures Serve(polls, []) == Live(Parse(s))
      {
        PlainWithoutStop(polls, s, c);
        ServerIsChunkIndependent(polls, []) by { ParseSmall([]); }
        assert polls[..|polls|] == polls && [] + s == s;
      }
    }
  }

  lemma ParseSmall(buf: seq<Byte>)
    requires |buf| < HEADER_SIZE
    ensures Parse(buf) == Parsed([], buf)
  {
  }

  lemma {:induction false} RestIsSettled(buf: seq<Byte>)
    ensures Parse(Parse(buf).rest) == Parsed([], Parse(buf).rest)
    decreases |buf|
  {
    if |buf| >= HEADER_SIZE {
      if !GoodHeader(buf) {
        RestIsSettled(buf[1..]);
      } else if |buf| >= PacketSize(buf) {
        RestIsSettled(buf[PacketSize(buf)..]);
      }
    }
  }

  // ---------------------------------------------------------------- round trip

  lemma EncodedHead(p: Packet, tail: seq<Byte>)
    requires Sendable(p)
    ensures var s := EncodePacket(p) + tail;
            && GoodHeader(s) && PacketSize(s) == |EncodePacket(p)|
            && FirstPacket(s) == p && s[PacketSize(s)..] == tail
  {
    var s := EncodePacket(p) + tail;
    var n := |p.payload|;
    assert s[6] == n / 256 && s[7] == n % 256;
    assert s[4] == p.seqNo / 256 && s[5] == p.seqNo % 256;
    assert s[HEADER_SIZE..HEADER_SIZE + n] == p.payload;
  }

  lemma ParseHead(p: Packet, tail: seq<Byte>)
    requires Sendable(p)
    ensures Parse(EncodePacket(p) + tail) == Join([p], Parse(tail))
  {
    hide EncodePacket;
    EncodedHead(p, tail);
  }

  /** Parsing an encoded packet list gives the list back; what follows is parsed as if alone. */
  lemma {:induction false} PacketsRoundTrip(ps: seq<Packet>, tail: seq<Byte>)
    requires forall p :: p in ps ==> Sendable(p)
    ensures Parse(EncodeAll(ps) + tail) == Join(ps, Parse(tail))
    decreases |ps|
  {
    hide EncodePacket, Parse;
    if ps == [] {
      assert EncodeAll(ps) + tail == tail;
      JoinNothing(Parse(tail));
    } else {
      var more := EncodeAll(ps[1..]) + tail;
      assert EncodeAll(ps) + tail == EncodePacket(ps[0]) + more;
      ParseHead(ps[0], more);
      PacketsRoundTrip(ps[1..], tail);
      JoinAssociates([ps[0]], ps[1..], Parse(tail));
      assert [ps[0]] + ps[1..] == ps;
    }
  }

  /** Garbage without the magic's first byte never costs a packet behind it. */
  lemma {:induction false} GarbageIsSkipped(garbage: seq<Byte>, s: seq<Byte>)
    requires 0x47 !in garbage
    ensures Parse(garbage + s).packets == Parse(s).packets
    decreases |garbage|
  {
    if garbage == [] {
      assert garbage + s == s;
    } else if |garbage + s| >= HEADER_SIZE {
      assert (garbage + s)[0] == garbage[0];
      assert (garbage + s)[1..] == garbage[1..] + s;
      GarbageIsSkipped(garbage[1..], s);
    }
  }

  /** For packets: with receives of four bytes or more, a list arrives as sent under every way of
      receiving it exactly when its bytes do not spell the stop word. */
  lemma PacketsArriveIff(ps: seq<Packet>, c: nat)
    requires (forall p :: p in ps ==> Sendable(p)) && c >= 4
    ensures (forall polls :: SplitOf(polls, EncodeAll(ps), c) ==> Serve(polls, []) == Live(Parsed(ps, [])))
       <==> !HasStop(EncodeAll(ps))
  {
    hide Parse, Serve, SplitOf;
    var s := EncodeAll(ps);
    EverySplitDeliversIff(s, c);
    PacketsRoundTrip(ps, []);
    ParseSmall([]);
    assert s + [] == s && ps + [] == ps;
  }

  // The packet's encoding stands in the stream at position k.
  predicate StandsAt(s: seq<Byte>, p: Packet, k: nat) {
    Sendable(p) && k <= |s| && EncodePacket(p) <= s[k..]
  }

  // The packets' encodings lie in the stream one behind the other, with gaps.
  predicate CutFrom(s: seq<Byte>, ps: seq<Packet>)
    decreases |ps|
  {
    ps == [] ||
    (exists k: nat | k <= |s| :: StandsAt(s, ps[0], k) && CutFrom(s[k + |EncodePacket(ps[0])|..], ps[1..]))
  }

  lemma GoodHeaderIsEncoded(s: seq<Byte>)
    requires |s| >= HEADER_SIZE && GoodHeader(s) && |s| >= PacketSize(s)
    ensures Sendable(FirstPacket(s)) && EncodePacket(FirstPacket(s)) == s[..PacketSize(s)]
  {
    var p, n := FirstPacket(s), PacketSize(s);
    assert s[..n] == s[..HEADER_SIZE] + s[HEADER_SIZE..n];
  }

  /** Nothing is made up: on every stream, garbage included, the packets cut are packets whose
      encodings stand in the stream, in this order and without overlap. */
  lemma {:induction false} ParsedIsEncoded(s: seq<Byte>)
    ensures CutFrom(s, Parse(s).packets)
    decreases |s|
  {
    hide EncodePacket;
    if |s| >= HEADER_SIZE {
      if !GoodHeader(s) {
        ParsedIsEncoded(s[1..]);
        CutFromLater(s, Parse(s[1..]).packets);
      } else if |s| >= PacketSize(s) {
        var n := PacketSize(s);
        var p, more := FirstPacket(s), Parse(s[n..]).packets;
        ParsedIsEncoded(s[n..]);
        GoodHeaderIsEncoded(s);
        assert s[0..] == s && ([p] + more)[1..] == more && StandsAt(s, p, 0);
      }
    }
  }

  lemma CutFromLater(s: seq<Byte>, ps: seq<Packet>)
    requires s != [] && CutFrom(s[1..], ps)
    ensures CutFrom(s, ps)
  {
    hide EncodePacket, GoodHeader;
    if ps != [] {
      var rest := s[1..];
      var k: nat :| k <= |rest| && StandsAt(rest, ps[0], k) && CutFrom(rest[k + |EncodePacket(ps[0])|..], ps[1..]);
      StandsLater(s, ps[0], k);
    }
  }

  lemma StandsLater(s: seq<Byte>, p: Packet, k: nat)
    requires s != [] && StandsAt(s[1..], p, k)
    ensures StandsAt(s, p, k + 1) && k + |EncodePacket(p)| <= |s[1..]|
    ensures s[k + 1 + |EncodePacket(p)|..] == s[1..][k + |EncodePacket(p)|..]
  {
    hide EncodePacket;
    assert s[k + 1..] == s[1..][k..];
  }

  /** The header: the two magic bytes, version one, the type, and sequence number and payload size
      high byte first. */
  lemma HeaderLayout(p: Packet)
    requires Sendable(p)
    ensures var s := EncodePacket(p);
            && |s| == 8 + |p.payload| && s[0] == 0x47 && s[1] == 0x50 && s[2] == 1 && s[3] == p.kind
            && 256 * (s[4] as int) + s[5] == p.seqNo && 256 * (s[6] as int) + s[7] == |p.payload|
            && s[8..] == p.payload
  {
  }

  // ---------------------------------------------------------------- the node's receiver

  function Max(a: int, b: int): int {
    if a >= b then a else b
  }

  // buf[-max(1024, keep):] once the buffer has outgrown max.
  function Trim(buf: seq<Byte>, max: int, keep: int): seq<Byte> {
    if max > 0 && |buf| > max then
      var n := Max(1024, keep);
      if n >= |buf| then buf else buf[|buf| - n..]
    else buf
  }

  // One attempt of the node: the packet cut off, if any, and the bytes left.
  function TakeOne(buf: seq<Byte>): (r: (Option<Packet>, seq<Byte>))
    ensures r.0.Some? ==> |r.1| < |buf|
  {
    if |buf| < HEADER_SIZE then (None, buf)
    else if !GoodHeader(buf) then (None, buf[1..])
    else if |buf| < PacketSize(buf) then (None, buf)
    else (Some(FirstPacket(buf)), buf[PacketSize(buf)..])
  }

  lemma TakeFromOne(buf: seq<Byte>)
    ensures var (p, rest) := TakeOne(buf);
            Take(buf) == if p == None then Parsed([], rest) else Join([p.value], Take(rest))
  {
  }

  /** The receive side of the node. */
  class NodeReceiver {
    var rxBuf: seq<Byte>
    const rxMax: int
    const rxKeep: int

    constructor (rxMax: int, rxKeep: int)
      ensures rxBuf == [] && this.rxMax == rxMax && this.rxKeep == rxKeep
    {
      this.rxMax, this.rxKeep := rxMax, rxKeep;
      rxBuf := [];
    }

    /** _bin_try_parse_one */
    method TryParseOne() returns (r: Option<Packet>)
      modifies this
      ensures (r, rxBuf) == TakeOne(old(rxBuf))
    {
      var buf := rxBuf;
      if |buf| < HEADER_SIZE {
        return None;
      }
      if !GoodHeader(buf) {
        rxBuf := buf[1..];
        return None;
      }
      var n := PacketSize(buf);
      if |buf| < n {
        return None;
      }
      rxBuf := buf[n..];
      r := Some(FirstPacket(buf));
    }

    /** One turn of _recv_loop in binary mode. */
    method OnChunk(chunk: seq<Byte>) returns (packets: seq<Packet>)
      modifies this
      ensures Take(Trim(old(rxBuf) + chunk, rxMax, rxKeep)) == Parsed(packets, rxBuf)
    {
      rxBuf := rxBuf + chunk;
      if rxMax > 0 && |rxBuf| > rxMax {
        var n := Max(1024, rxKeep);
        rxBuf := if n >= |rxBuf| then rxBuf else rxBuf[|rxBuf| - n..];
      }
      ghost var all := rxBuf;
      assert all == Trim(old(rxBuf) + chunk, rxMax, rxKeep);
      packets := [];
      hide Take, TakeOne, Trim, Join;
      JoinNothing(Take(all));
      while true
        invariant Take(all) == Join(packets, Take(rxBuf))
        decreases |rxBuf|
      {
        TakeFromOne(rxBuf);
        var parsed := TryParseOne();
        if parsed == None {
          JoinNothing(Parsed(packets, rxBuf));
          break;
        }
        JoinAssociates(packets, [parsed.value], Take(rxBuf));
        packets := packets + [parsed.value];
      }
    }
  }

  // A whole session of the node's receiver.
  function TakeAll(chunks: seq<seq<Byte>>, buf: seq<Byte>, max: int, keep: int): Parsed
    decreases |chunks|
  {
    if chunks == [] then Parsed([], buf)
    else
      var now := Take(Trim(buf + chunks[0], max, keep));
      Join(now.packets, TakeAll(chunks[1..], now.rest, max, keep))
  }

  // Every header position the parser reaches holds a good header.
  predicate Clean(buf: seq<Byte>) {
    |buf| < HEADER_SIZE ||
    (GoodHeader(buf) && (|buf| < PacketSize(buf) || Clean(buf[PacketSize(buf)..])))
  }

  lemma {:induction false} TakeIsBehind(buf: seq<Byte>)
    ensures var t := Take(buf);
            && Parse(buf) == Join(t.packets, Parse(t.rest))
            && (Clean(buf) ==> t == Parse(buf))
    decreases |buf|
  {
    if |buf| >= HEADER_SIZE && GoodHeader(buf) && |buf| >= PacketSize(buf) {
      var later := Take(buf[PacketSize(buf)..]);
      TakeIsBehind(buf[PacketSize(buf)..]);
      JoinAssociates([FirstPacket(buf)], later.packets, Parse(later.rest));
    } else {
      JoinNothing(Parse(buf));
    }
  }

  lemma TakeThenMore(seen: seq<Byte>, more: seq<Byte>)
    ensures Parse(seen + more) == Join(Take(seen).packets, Parse(Take(seen).rest + more))
  {
    hide Parse, Take;
    var now := Take(seen);
    TakeIsBehind(seen);
    ParseSplits(seen, more);
    ParseSplits(now.rest, more);
    JoinAssociates(now.packets, Parse(now.rest).packets, Parse(Parse(now.rest).rest + more));
  }

  // No receive of the session outgrows the buffer's cap.
  predicate Untrimmed(chunks: seq<seq<Byte>>, buf: seq<Byte>, max: int, keep: int)
    decreases |chunks|
  {
    chunks == [] ||
    (var seen := buf + chunks[0];
     Trim(seen, max, keep) == seen && Untrimmed(chunks[1..], Take(seen).rest, max, keep))
  }

  /** On every stream, garbage included, and with any cap that no receive outgrows, the node is
      only late, never wrong: the server's packets are the node's followed by those still inside
      the node's buffer. */
  lemma {:induction false} NodeIsOnlyLate(chunks: seq<seq<Byte>>, buf: seq<Byte>, max: int, keep: int)
    requires Untrimmed(chunks, buf, max, keep)
    ensures var t := TakeAll(chunks, buf, max, keep);
            Parse(buf + Concat(chunks)) == Join(t.packets, Parse(t.rest))
    decreases |chunks|
  {
    hide Parse, Take, Trim;
    if chunks == [] {
      assert buf + Concat(chunks) == buf;
      JoinNothing(Parse(buf));
    } else {
      var seen, more := buf + chunks[0], Concat(chunks[1..]);
      var now := Take(seen);
      NodeIsOnlyLate(chunks[1..], now.rest, max, keep);
      var t := TakeAll(chunks[1..], now.rest, max, keep);
      TakeThenMore(seen, more);
      JoinAssociates(now.packets, t.packets, Parse(t.rest));
      assert buf + Concat(chunks) == seen + more;
    }
  }

  lemma {:induction false} CleanSplits(a: seq<Byte>, b: seq<Byte>)
    requires Clean(a + b)
    ensures Clean(a) && Clean(Parse(a).rest + b)
    decreases |a|
  {
    if |a| >= HEADER_SIZE && |a| >= PacketSize(a) {
      var n := PacketSize(a);
      assert (a + b)[n..] == a[n..] + b;
      CleanSplits(a[n..], b);
    }
  }

  // The cap of the node's buffer is off, or leaves room for any unfinished packet plus a receive.
  predicate RoomFor(max: int, payload: nat, chunk: nat) {
    max <= 0 || max >= HEADER_SIZE + payload - 1 + chunk
  }

  lemma {:induction false} CleanRestIsShort(buf: seq<Byte>, m: nat)
    requires Clean(buf) && PayloadsWithin(buf, m)
    ensures |Parse(buf).rest| < HEADER_SIZE + m
    decreases |buf|
  {
    if |buf| >= HEADER_SIZE && |buf| >= PacketSize(buf) {
      CleanRestIsShort(buf[PacketSize(buf)..], m);
    }
  }

  // No header the parser reaches announces more than m payload bytes.
  predicate PayloadsWithin(buf: seq<Byte>, m: nat) {
    |buf| >= HEADER_SIZE && GoodHeader(buf) ==>
      && PacketSize(buf) <= HEADER_SIZE + m
      && (|buf| >= PacketSize(buf) ==> PayloadsWithin(buf[PacketSize(buf)..], m))
  }

  lemma {:induction false} PayloadsWithinSplits(a: seq<Byte>, b: seq<Byte>, m: nat)
    requires Clean(a + b) && PayloadsWithin(a + b, m)
    ensures PayloadsWithin(a, m) && PayloadsWithin(Parse(a).rest + b, m)
    decreases |a|
  {
    CleanSplits(a, b);
    if |a| >= HEADER_SIZE && |a| >= PacketSize(a) {
      var n := PacketSize(a);
      assert (a + b)[n..] == a[n..] + b;
      PayloadsWithinSplits(a[n..], b, m);
    }
  }

  /** On a stream that starts on a frame boundary, as long as no receive outgrows the cap, the
      node's receiver gives the server's packets and holds the server's buffer after every chunk. */
  lemma {:induction false} NodeAgreesWithServer(chunks: seq<seq<Byte>>, buf: seq<Byte>, max: int, keep: int)
    requires Parse(buf) == Parsed([], buf)
    requires Clean(buf + Concat(chunks)) && Untrimmed(chunks, buf, max, keep)
    ensures TakeAll(chunks, buf, max, keep) == Parse(buf + Concat(chunks))
    decreases |chunks|
  {
    hide Parse, Take, Trim, Clean;
    if chunks == [] {
      assert buf + Concat(chunks) == buf;
    } else {
      var seen, more := buf + chunks[0], Concat(chunks[1..]);
      assert buf + Concat(chunks) == seen + more;
      CleanSplits(seen, more);
      TakeIsBehind(seen);
      RestIsSettled(seen);
      ParseSplits(seen, more);
      NodeAgreesWithServer(chunks[1..], Parse(seen).rest, max, keep);
    }
  }

  // With room for any unfinished packet and a receive, no receive outgrows the cap.
  lemma {:induction false} RoomIsEnough(chunks: seq<seq<Byte>>, buf: seq<Byte>, max: int, keep: int, m: nat, c: nat)
    requires Parse(buf) == Parsed([], buf)
    requires Clean(buf + Concat(chunks)) && PayloadsWithin(buf + Concat(chunks), m)
    requires RoomFor(max, m, c) && forall k :: 0 <= k < |chunks| ==> |chunks[k]| <= c
    ensures Untrimmed(chunks, buf, max, keep)
    decreases |chunks|
  {
    if chunks != [] {
      var seen, more := buf + chunks[0], Concat(chunks[1..]);
      assert buf + Concat(chunks) == seen + more;
      CleanSplits(seen, more);
      PayloadsWithinSplits(seen, more, m);
      assert buf + Concat(chunks) == buf + (chunks[0] + more);
      CleanSplits(buf, chunks[0] + more);
      PayloadsWithinSplits(buf, chunks[0] + more, m);
      CleanRestIsShort(buf, m);
      TakeIsBehind(seen);
      RestIsSettled(seen);
      RoomIsEnough(chunks[1..], Parse(seen).rest, max, keep, m, c);
    }
  }

  /** Streams of encoded packets, cut off anywhere, start on a frame boundary. */
  lemma {:induction false} EncodedIsClean(ps: seq<Packet>, n: nat, m: nat)
    requires forall p :: p in ps ==> Sendable(p) && |p.payload| <= m
    requires n <= |EncodeAll(ps)|
    ensures Clean(EncodeAll(ps)[..n]) && PayloadsWithin(EncodeAll(ps)[..n], m)
    decreases |ps|
  {
    var s := EncodeAll(ps)[..n];
    if n >= HEADER_SIZE {
      var e, more := EncodePacket(ps[0]), EncodeAll(ps[1..]);
      EncodedHead(ps[0], more);
      assert EncodeAll(ps)[6] == s[6] && EncodeAll(ps)[7] == s[7];
      assert GoodHeader(s) && PacketSize(s) == |e|;
      if n >= |e| {
        assert s[|e|..] == more[..n - |e|];
        EncodedIsClean(ps[1..], n - |e|, m);
      }
    }
  }

  // The parameters' defaults, and the size of a receive.
  const RX_MAX := 65536
  const RX_KEEP := 8192
  const RECEIVE: nat := 512

  // A session in which packets of up to m payload bytes are sent and received.
  ghost predicate SessionOf(ps: seq<Packet>, m: nat, chunks: seq<seq<Byte>>) {
    && (forall p :: p in ps ==> Sendable(p) && |p.payload| <= m)
    && Concat(chunks) == EncodeAll(ps) && forall k :: 0 <= k < |chunks| ==> |chunks[k]| <= RECEIVE
  }

  ghost predicate AlwaysArrive(m: nat) {
    forall ps, chunks :: SessionOf(ps, m, chunks) ==> TakeAll(chunks, [], RX_MAX, RX_KEEP) == Parsed(ps, [])
  }

  lemma DefaultCapIsEnough(ps: seq<Packet>, m: nat, chunks: seq<seq<Byte>>)
    requires SessionOf(ps, m, chunks) && m <= 65017
    ensures TakeAll(chunks, [], RX_MAX, RX_KEEP) == Parsed(ps, [])
  {
    var s := EncodeAll(ps);
    EncodedIsClean(ps, |s|, m);
    assert s[..|s|] == s && [] + s == s;
    RoomIsEnough(chunks, [], RX_MAX, RX_KEEP, m, RECEIVE);
    NodeAgreesWithServer(chunks, [], RX_MAX, RX_KEEP);
    PacketsRoundTrip(ps, []);
    assert s + [] == s && ps + [] == ps;
  }

  function Zeros(n: nat): (s: seq<Byte>)
    ensures |s| == n && forall i :: 0 <= i < n ==> s[i] == 0
  {
    seq(n, _ => 0)
  }

  // A packet of zeros, by the size of its payload.
  function ZeroPacket(n: nat): (p: Packet)
    ensures p.payload == Zeros(n)
  {
    Packet(3, 0, Zeros(n))
  }

  // A part of a packet that is not yet complete stays in the buffer.
  lemma PartStays(p: Packet, n: nat)
    requires Sendable(p) && n < |EncodePacket(p)|
    ensures Take(EncodePacket(p)[..n]) == Parsed([], EncodePacket(p)[..n])
  {
    var s, part := EncodePacket(p), EncodePacket(p)[..n];
    EncodedHead(p, []);
    assert s + [] == s;
    if n >= HEADER_SIZE {
      assert part[6] == s[6] && part[7] == s[7] && GoodHeader(part);
    }
  }

  // Up to the cap such a part comes in byte by byte.
  lemma {:induction false} PartComesIn(p: Packet, i: nat, n: nat, later: seq<seq<Byte>>, max: int, keep: int)
    requires Sendable(p) && i <= n < |EncodePacket(p)| && n <= max
    ensures var s := EncodePacket(p);
            TakeAll(Bytes(s[i..n]) + later, s[..i], max, keep) == TakeAll(later, s[..n], max, keep)
    decreases n - i
  {
    hide EncodePacket, Take, Trim;
    var s := EncodePacket(p);
    if i == n {
      assert Bytes(s[i..n]) + later == later;
    } else {
      var chunks := Bytes(s[i..n]) + later;
      assert s[i..n][1..] == s[i + 1..n] && s[i..n][0] == s[i];
      assert chunks[1..] == Bytes(s[i + 1..n]) + later;
      assert s[..i] + chunks[0] == s[..i + 1];
      PartStays(p, i + 1);
      TrimKeeps(s[..i + 1], max, keep);
      PartComesIn(p, i + 1, n, later, max, keep);
      JoinNothing(TakeAll(chunks[1..], s[..i + 1], max, keep));
    }
  }

  lemma TrimKeeps(buf: seq<Byte>, max: int, keep: int)
    requires |buf| <= max
    ensures Trim(buf, max, keep) == buf
  {
  }

  // The bytes of a packet of zeros and of a packet behind it.
  lemma TrimHitsZeros(p: Packet, q: seq<Byte>)
    requires p == ZeroPacket(65018) && |q| == 511
    ensures Take(Trim(EncodePacket(p) + q, RX_MAX, RX_KEEP)).packets == []
  {
    var s := EncodePacket(p) + q;
    var kept := s[|s| - RX_KEEP..];
    assert |s| == 65537 && Trim(s, RX_MAX, RX_KEEP) == kept;
    assert kept[0] == EncodePacket(p)[57345] == p.payload[57337];
  }

  // All of the first packet but its last byte, byte by byte, then the rest in one receive.
  function TooLate(s: seq<Byte>): seq<seq<Byte>>
    requires |s| == 65537
  {
    Bytes(s[..65025]) + [s[65025..]]
  }

  lemma OneMoreChunk(x: seq<Byte>, y: seq<Byte>, s: seq<Byte>, max: int, keep: int)
    requires x + y == s
    ensures TakeAll([y], x, max, keep).packets == Take(Trim(s, max, keep)).packets
  {
    assert |[y][1..]| == 0;
    var now := Take(Trim(s, max, keep));
    assert now.packets + [] == now.packets;
  }

  lemma TooLateIsLost(p: Packet, q: Packet)
    requires p == ZeroPacket(65018) && q == ZeroPacket(503)
    ensures var s := EncodePacket(p) + EncodePacket(q);
            |s| == 65537 && TakeAll(TooLate(s), [], RX_MAX, RX_KEEP).packets == []
  {
    hide EncodePacket, Take, Trim, TakeAll, Bytes;
    var e, s := EncodePacket(p), EncodePacket(p) + EncodePacket(q);
    var n: nat := 65025;
    var x, y := s[..n], s[n..];
    assert e[..n] == x && e[0..n] == x && e[..0] == [];
    PartComesIn(p, 0, n, [y], RX_MAX, RX_KEEP);
    assert x + y == s;
    OneMoreChunk(x, y, s, RX_MAX, RX_KEEP);
    TrimHitsZeros(p, EncodePacket(q));
  }

  lemma TooLateIsSession(p: Packet, q: Packet, m: nat)
    requires p == ZeroPacket(65018) && q == ZeroPacket(503) && m >= 65018
    ensures var s := EncodePacket(p) + EncodePacket(q);
            |s| == 65537 && SessionOf([p, q], m, TooLate(s))
  {
    var s := EncodePacket(p) + EncodePacket(q);
    EncodeTwo(p, q);
    hide EncodePacket, EncodeAll, Concat, Bytes;
    var n: nat := 65025;
    BytesJoin(s[..n]);
    ConcatAppends(Bytes(s[..n]), s[n..]);
    assert s[..n] + s[n..] == s;
  }

  lemma EncodeTwo(p: Packet, q: Packet)
    requires Sendable(p) && Sendable(q)
    ensures EncodeAll([p, q]) == EncodePacket(p) + EncodePacket(q)
  {
    hide EncodePacket;
    assert [p, q][1..] == [q];
    EncodeSingle(q);
  }

  lemma EncodeSingle(p: Packet)
    requires Sendable(p)
    ensures EncodeAll([p]) == EncodePacket(p)
  {
    hide EncodePacket;
    assert |[p][1..]| == 0;
    assert EncodePacket(p) + [] == EncodePacket(p);
  }

  /** Exactly how large packets may be with the default cap: up to 65017 payload bytes every list
      arrives as sent, however it is received; from 65018 on, which the header allows, some list
      and some way of receiving it do not. */
  lemma CapIsEnoughIff(m: nat)
    requires m < 65536
    ensures AlwaysArrive(m) <==> m <= 65017
  {
    hide TakeAll, SessionOf, TooLate;
    if m <= 65017 {
      forall ps, chunks | SessionOf(ps, m, chunks)
        ensures TakeAll(chunks, [], RX_MAX, RX_KEEP) == Parsed(ps, [])
      {
        DefaultCapIsEnough(ps, m, chunks);
      }
    } else {
      var p, q := ZeroPacket(65018), ZeroPacket(503);
      TooLateIsLost(p, q);
      TooLateIsSession(p, q, m);
    }
  }

  // What comes behind the first header that is not one.
  function BehindBad(buf: seq<Byte>): seq<Byte>
    decreases |buf|
  {
    if |buf| < HEADER_SIZE then []
    else if !GoodHeader(buf) then buf[1..]
    else if |buf| < PacketSize(buf) then []
    else BehindBad(buf[PacketSize(buf)..])
  }

  lemma {:induction false} BehindIsLate(buf: seq<Byte>)
    ensures Parse(buf).packets == Take(buf).packets + Parse(BehindBad(buf)).packets
    decreases |buf|
  {
    ParseSmall([]);
    if |buf| >= HEADER_SIZE && GoodHeader(buf) && |buf| >= PacketSize(buf) {
      BehindIsLate(buf[PacketSize(buf)..]);
    }
  }

  // One attempt on more bytes: it stops at the same bad header, or goes on where it stopped.
  predicate Continues(a: seq<Byte>, b: seq<Byte>) {
    var now, all := Take(a), Take(a + b);
    || all.packets == now.packets
    || (Take(now.rest).packets == [] && all.packets == now.packets + Take(now.rest + b).packets)
  }

  lemma {:induction false} TakeContinues(a: seq<Byte>, b: seq<Byte>)
    ensures Continues(a, b)
    decreases |a|
  {
    if |a| < HEADER_SIZE || (GoodHeader(a) && |a| < PacketSize(a)) {
      assert Take(a) == Parsed([], a);
    } else if GoodHeader(a) {
      var n := PacketSize(a);
      assert (a + b)[n..] == a[n..] + b;
      TakeContinues(a[n..], b);
      OneMorePacket(a, b, n);
    }
  }

  // The first attempt cuts the same packet off, however much comes behind it.
  lemma SamePacket(a: seq<Byte>, b: seq<Byte>, n: nat)
    requires |a| >= n >= HEADER_SIZE && GoodHeader(a) && n == PacketSize(a) && (a + b)[n..] == a[n..] + b
    ensures Take(a) == Join([FirstPacket(a)], Take(a[n..]))
    ensures Take(a + b) == Join([FirstPacket(a)], Take(a[n..] + b))
  {
    assert (a + b)[HEADER_SIZE..n] == a[HEADER_SIZE..n];
    hide Join;
  }

  lemma OneMorePacket(a: seq<Byte>, b: seq<Byte>, n: nat)
    requires |a| >= n >= HEADER_SIZE && GoodHeader(a) && n == PacketSize(a)
    requires (a + b)[n..] == a[n..] + b && Continues(a[n..], b)
    ensures Continues(a, b)
  {
    hide Take, GoodHeader, PacketSize, FirstPacket;
    SamePacket(a, b, n);
    var p, now, all := [FirstPacket(a)], Take(a[n..]), Take(a[n..] + b);
    if all.packets != now.packets {
      assert p + all.packets == p + now.packets + Take(now.rest + b).packets;
    }
  }

  // However it is received, the node gets the packets in front of the first bad header.
  lemma {:induction false} NodeKeepsUp(chunks: seq<seq<Byte>>, buf: seq<Byte>, max: int, keep: int)
    requires Untrimmed(chunks, buf, max, keep) && Take(buf).packets == []
    ensures |Take(buf + Concat(chunks)).packets| <= |TakeAll(chunks, buf, max, keep).packets|
    decreases |chunks|
  {
    hide Take, Trim;
    if chunks == [] {
      assert buf + Concat(chunks) == buf;
    } else {
      var seen, more := buf + chunks[0], Concat(chunks[1..]);
      assert buf + Concat(chunks) == seen + more;
      TakeContinues(seen, more);
      if Take(Take(seen).rest).packets == [] {
        NodeKeepsUp(chunks[1..], Take(seen).rest, max, keep);
      }
    }
  }

  // What the node has leaves nothing for the rest of its buffer.
  lemma Nothing(t: Parsed, all: seq<Packet>, server: seq<Packet>)
    requires server == Join(t.packets, Parse(t.rest)).packets && |all| <= |t.packets| && server == all
    ensures t.packets == server
  {
    hide Parse;
  }

  /** Exactly on which streams node and server agree: as long as no receive outgrows the cap, the
      node cuts the server's packets under every way of receiving the stream if and only if no
      packet comes behind its first bad header. */
  lemma NodeAgreesIff(s: seq<Byte>, max: int, keep: int)
    requires Trim(s, max, keep) == s
    ensures (forall chunks :: Concat(chunks) == s && Untrimmed(chunks, [], max, keep)
               ==> TakeAll(chunks, [], max, keep).packets == Parse(s).packets)
       <==> Parse(BehindBad(s)).packets == []
  {
    BehindIsLate(s);
    assert Take([]).packets == [];
    hide Take, Parse, Trim, BehindBad;
    if Parse(BehindBad(s)).packets == [] {
      forall chunks | Concat(chunks) == s && Untrimmed(chunks, [], max, keep)
        ensures TakeAll(chunks, [], max, keep).packets == Parse(s).packets
      {
        assert [] + s == s;
        NodeIsOnlyLate(chunks, [], max, keep);
        NodeKeepsUp(chunks, [], max, keep);
        Nothing(TakeAll(chunks, [], max, keep), Take(s).packets, Parse(s).packets);
      }
    } else {
      OneChunk(s, max, keep);
    }
  }

  lemma OneChunk(s: seq<Byte>, max: int, keep: int)
    requires Trim(s, max, keep) == s
    ensures Concat([s]) == s && Untrimmed([s], [], max, keep)
    ensures TakeAll([s], [], max, keep).packets == Take(s).packets
  {
    hide Take, Trim;
    assert |[s][1..]| == 0 && [] + s == s;
    assert s + [] == s && Take(s).packets + [] == Take(s).packets;
  }

  /** What a full buffer costs: the bytes in front of the last max(1024, keep). Packets that lie
      whole within those are found again behind any garbage without the magic's first byte. */
  lemma TailSurvivesTrim(garbage: seq<Byte>, ps: seq<Packet>, max: int, keep: int)
    requires 0x47 !in garbage && forall p :: p in ps ==> Sendable(p)
    requires |EncodeAll(ps)| <= Max(1024, keep)
    ensures Parse(Trim(garbage + EncodeAll(ps), max, keep)).packets == ps
  {
    var s := EncodeAll(ps);
    var buf := garbage + s;
    var kept := Max(1024, keep);
    var rest := if 0 < max < |buf| && kept < |buf| then garbage[|buf| - kept..] else garbage;
    assert Trim(buf, max, keep) == rest + s;
    hide Parse, EncodeAll, Trim;
    GarbageIsSkipped(rest, s);
    PacketsRoundTrip(ps, []);
    ParseSmall([]);
    assert s + [] == s && ps + [] == ps;
  }

  /** One garbage byte is enough to make the node late: the frame behind it has arrived, the
      server has it, and the node waits for a further receive. */
  lemma GarbageDelaysNode(p: Packet)
    requires Sendable(p)
    ensures var s := [0] + EncodePacket(p);
            && Parse(s).packets == [p]
            && Take(s) == Parsed([], EncodePacket(p))
  {
    var s := [0] + EncodePacket(p);
    assert s[1..] == EncodePacket(p);
    PacketsRoundTrip([p], []);
    assert EncodeAll([p]) + [] == EncodePacket(p);
  }
}
