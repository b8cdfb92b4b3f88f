/** The Modbus RTU requests the gripper link builds, in the node, in the injected server and
    in the HAL driver, against one reference encoding and one device-side decoder
    (MODBUS Application Protocol V1.1b3, sections 6.3, 6.6 and 6.12). */
module ModbusFrames {
  import opened Wrappers
  import opened BitArithmetic
  import opened ModbusCrc

  datatype Request =
    | Read(addr: Word, count: Word)
    | WriteOne(addr: Word, value: Word)
    | WriteMany(addr: Word, count: Word, values: seq<Word>)

  predicate Encodable(req: Request) {
    req.WriteMany? ==> |req.values| <= 127
  }

  // The quantity limits of the protocol; the byte count must match the quantity.
  predicate Conforms(req: Request) {
    match req
    case Read(_, count) => 1 <= count <= 125
    case WriteOne(_, _) => true
    case WriteMany(_, count, values) => 1 <= count <= 123 && |values| == count
  }

  function WordsOut(values: seq<Word>): (r: seq<Byte>)
    ensures |r| == 2 * |values|
  {
    if values == [] then [] else HighFirst(values[0]) + WordsOut(values[1..])
  }

  function WordsIn(data: seq<Byte>): (r: seq<Word>)
    requires |data| % 2 == 0
    ensures |r| == |data| / 2
  {
    if data == [] then [] else [WordAt(data, 0)] + WordsIn(data[2..])
  }

  function Body(slave: Byte, req: Request): seq<Byte>
    requires Encodable(req)
  {
    match req
    case Read(addr, count) => [slave, 0x03, addr / 256, addr % 256, count / 256, count % 256]
    case WriteOne(addr, value) => [slave, 0x06, addr / 256, addr % 256, value / 256, value % 256]
    case WriteMany(addr, count, values) =>
      [slave, 0x10, addr / 256, addr % 256, count / 256, count % 256, 2 * |values|] + WordsOut(values)
  }

  function WithCrc(body: seq<Byte>): seq<Byte> {
    body + LowFirst(Crc(body))
  }

  function Frame(slave: Byte, req: Request): seq<Byte>
    requires Encodable(req)
  {
    WithCrc(Body(slave, req))
  }

  /** What a slave takes out of the bytes of one frame. */
  function Decode(slave: Byte, frame: seq<Byte>): Option<Request> {
    if |frame| < 4 || Crc(frame) != 0 then None
    else DecodeBody(slave, frame[..|frame| - 2])
  }

  function DecodeBody(slave: Byte, body: seq<Byte>): Option<Request> {
    if |body| < 6 || body[0] != slave then None
    else
      var addr, arg := WordAt(body, 2), WordAt(body, 4);
      if body[1] == 0x03 && |body| == 6 && 1 <= arg <= 125 then Some(Read(addr, arg))
      else if body[1] == 0x06 && |body| == 6 then Some(WriteOne(addr, arg))
      else if body[1] == 0x10 && 1 <= arg <= 123 && |body| == 7 + 2 * arg && body[6] == 2 * arg then
        Some(WriteMany(addr, arg, WordsIn(body[7..])))
      else None
  }

  // ---------------------------------------------------------------- encode and decode

  lemma {:induction false} WordsRoundTrip(values: seq<Word>)
    ensures WordsIn(WordsOut(values)) == values
  {
    if values != [] {
      var rest := WordsOut(values[1..]);
      assert (HighFirst(values[0]) + rest)[2..] == rest;
      WordsRoundTrip(values[1..]);
    }
  }

  lemma {:induction false} BytesRoundTrip(data: seq<Byte>)
    requires |data| % 2 == 0
    ensures WordsOut(WordsIn(data)) == data
  {
    if data != [] {
      var w := WordAt(data, 0);
      assert ([w] + WordsIn(data[2..]))[1..] == WordsIn(data[2..]);
      BytesRoundTrip(data[2..]);
      assert data == [data[0], data[1]] + data[2..];
    }
  }

  // The last two bytes of a frame with residue zero are determined by the rest.
  lemma ResidueFixesCrc(body: seq<Byte>, a: Byte, b: Byte)
    ensures Crc(body + [a, b]) == 0 <==> [a, b] == LowFirst(Crc(body))
  {
    FrameResidueIsZero(body);
    var crc := LowFirst(Crc(body));
    if [a, b] != crc {
      TwoAdjacentBytesAreDetected(body, a, b, crc[0], crc[1], []);
      assert body + [a, b] + [] == body + [a, b];
      assert body + [crc[0], crc[1]] + [] == body + crc;
    }
  }

  /** A slave decodes a built frame to exactly the request it was built from, and refuses it
      when the request breaks the protocol's limits. */
  lemma FrameDecodes(slave: Byte, req: Request)
    requires Encodable(req)
    ensures Decode(slave, Frame(slave, req)) == if Conforms(req) then Some(req) else None
  {
    hide Crc, DecodeBody, Body;
    var body := Body(slave, req);
    var frame := Frame(slave, req);
    FrameResidueIsZero(body);
    assert frame[..|frame| - 2] == body;
    BodyDecodes(slave, req);
  }

  lemma BodyDecodes(slave: Byte, req: Request)
    requires Encodable(req)
    ensures |Body(slave, req)| >= 6
    ensures DecodeBody(slave, Body(slave, req)) == if Conforms(req) then Some(req) else None
  {
    if req.WriteMany? {
      assert Body(slave, req)[7..] == WordsOut(req.values);
      WordsRoundTrip(req.values);
    }
  }

  /** Nothing else decodes to a request: an accepted frame is the built frame, byte for byte. */
  lemma DecodedIsBuilt(slave: Byte, frame: seq<Byte>)
    requires Decode(slave, frame).Some?
    ensures var req := Decode(slave, frame).value; Conforms(req) && Encodable(req) && frame == Frame(slave, req)
  {
    hide Crc, LowFirst;
    var n := |frame|;
    var body := frame[..n - 2];
    assert frame == body + [frame[n - 2], frame[n - 1]];
    ResidueFixesCrc(body, frame[n - 2], frame[n - 1]);
    DecodedBodyIsBuilt(slave, body);
  }

  lemma DecodedBodyIsBuilt(slave: Byte, body: seq<Byte>)
    requires DecodeBody(slave, body).Some?
    ensures var req := DecodeBody(slave, body).value; Conforms(req) && Encodable(req) && body == Body(slave, req)
  {
    var req := DecodeBody(slave, body).value;
    if req.WriteMany? {
      BytesRoundTrip(body[7..]);
      assert body == body[..7] + body[7..];
      assert body[..7] == [slave, 0x10, body[2], body[3], body[4], body[5], body[6]];
    }
  }

  /** A built frame with two adjacent bytes damaged, CRC bytes included, is refused by every slave. */
  lemma DamagedFrameIsRefused(slave: Byte, req: Request, other: Byte, pre: seq<Byte>,
                              a: Byte, b: Byte, a': Byte, b': Byte, post: seq<Byte>)
    requires Encodable(req) && Frame(slave, req) == pre + [a, b] + post
    requires a != a' || b != b'
    ensures Decode(other, pre + [a', b'] + post) == None
  {
    FrameResidueIsZero(Body(slave, req));
    TwoAdjacentBytesAreDetected(pre, a, b, a', b', post);
  }

  /** A frame on the wire, as the protocol's tables have it: slave, function code, two words high
      byte first, for a multiple write its byte count and its words, and the CRC low byte first. */
  lemma FrameLayout(slave: Byte, req: Request)
    requires Encodable(req)
    ensures var f := Frame(slave, req); var n := |f|;
            && n == (if req.WriteMany? then 9 + 2 * |req.values| else 8)
            && f[0] == slave
            && f[1] == (if req.Read? then 3 else if req.WriteOne? then 6 else 16)
            && 256 * (f[2] as int) + f[3] == req.addr
            && 256 * (f[4] as int) + f[5] == (if req.WriteOne? then req.value else req.count)
            && (req.WriteMany? ==>
                  && f[6] == 2 * |req.values|
                  && forall k :: 0 <= k < |req.values| ==>
                       256 * (f[7 + 2 * k] as int) + f[8 + 2 * k] == req.values[k])
            && f[n - 2] + 256 * (f[n - 1] as int) == Crc(f[..n - 2])
  {
    hide Body, WithCrc, Crc, WordsOut;
    var body, f := Body(slave, req), Frame(slave, req);
    BodyHead(slave, req);
    CrcBehind(body);
    if req.WriteMany? {
      forall k | 0 <= k < |req.values|
        ensures 256 * (f[7 + 2 * k] as int) + f[8 + 2 * k] == req.values[k]
      {
        BodyWord(slave, req, k);
        assert f[7 + 2 * k] == body[7 + 2 * k] && f[8 + 2 * k] == body[8 + 2 * k];
      }
    }
  }

  lemma CrcBehind(body: seq<Byte>)
    ensures var f := WithCrc(body); var n := |body|;
            && |f| == n + 2 && f[..n] == body && (forall i :: 0 <= i < n ==> f[i] == body[i])
            && f[n] + 256 * (f[n + 1] as int) == Crc(body)
  {
    CrcIsWord(body);
    hide Crc;
  }

  lemma BodyHead(slave: Byte, req: Request)
    requires Encodable(req)
    ensures var f := Body(slave, req);
            && |f| == (if req.WriteMany? then 7 + 2 * |req.values| else 6)
            && f[0] == slave
            && f[1] == (if req.Read? then 3 else if req.WriteOne? then 6 else 16)
            && 256 * (f[2] as int) + f[3] == req.addr
            && 256 * (f[4] as int) + f[5] == (if req.WriteOne? then req.value else req.count)
            && (req.WriteMany? ==> f[6] == 2 * |req.values|)
  {
  }

  lemma BodyWord(slave: Byte, req: Request, k: nat)
    requires Encodable(req) && req.WriteMany? && k < |req.values|
    ensures var f := Body(slave, req);
            |f| == 7 + 2 * |req.values| && 256 * (f[7 + 2 * k] as int) + f[8 + 2 * k] == req.values[k]
  {
    var f, words := Body(slave, req), WordsOut(req.values);
    WordOutAt(req.values, k);
    assert f[7 + 2 * k] == words[2 * k] && f[8 + 2 * k] == words[2 * k + 1];
  }

  lemma {:induction false} WordOutAt(values: seq<Word>, k: nat)
    requires k < |values|
    ensures 256 * (WordsOut(values)[2 * k] as int) + WordsOut(values)[2 * k + 1] == values[k]
  {
    if k > 0 {
      var rest := WordsOut(values[1..]);
      WordOutAt(values[1..], k - 1);
      assert WordsOut(values)[2 * k] == rest[2 * (k - 1)] && WordsOut(values)[2 * k + 1] == rest[2 * (k - 1) + 1];
    }
  }

  // ---------------------------------------------------------------- the builders

  predicate IsByte(v: int) { 0 <= v < 256 }

  predicate IsWord(v: int) { 0 <= v < 65536 }

  predicate AreWords(values: seq<int>) { forall k :: 0 <= k < |values| ==> IsWord(values[k]) }

  lemma WordsOutAppends(values: seq<Word>, w: Word)
    ensures WordsOut(values + [w]) == WordsOut(values) + HighFirst(w)
  {
    if values == [] {
      assert values + [w] == [w];
    } else {
      assert (values + [w])[1..] == values[1..] + [w];
      WordsOutAppends(values[1..], w);
    }
  }

  /** ModbusRTU.fc06: struct.pack and bytes() raise outside their ranges. */
  method NodeFc06(slave: int, start: int, value: int) returns (r: Option<seq<Byte>>)
    ensures r == if IsByte(slave) && IsWord(start) && IsWord(value)
                 then Some(Frame(slave, WriteOne(start, value))) else None
  {
    if !IsByte(slave) || !IsWord(start) || !IsWord(value) { return None; }
    var body: seq<Byte> := [slave, 0x06] + (HighFirst(start) + HighFirst(value));
    var crc := NodeCrc16(body);
    assert body == Body(slave, WriteOne(start, value));
    r := Some(body + crc);
  }

  /** ModbusRTU.fc03. */
  method NodeFc03(slave: int, start: int, count: int) returns (r: Option<seq<Byte>>)
    ensures r == if IsByte(slave) && IsWord(start) && IsWord(count)
                 then Some(Frame(slave, Read(start, count))) else None
  {
    if !IsByte(slave) || !IsWord(start) || !IsWord(count) { return None; }
    var body: seq<Byte> := [slave, 0x03] + (HighFirst(start) + HighFirst(count));
    var crc := NodeCrc16(body);
    assert body == Body(slave, Read(start, count));
    r := Some(body + crc);
  }

  /** ModbusRTU.fc16: the register count is the caller's, the byte count is the list's. */
  method NodeFc16(slave: int, start: int, numRegs: int, values: seq<int>) returns (r: Option<seq<Byte>>)
    ensures r.Some? <==> IsByte(slave) && IsWord(start) && IsWord(numRegs) && |values| <= 127 && AreWords(values)
    ensures r.Some? ==> r.value == Frame(slave, WriteMany(start, numRegs, values))
  {
    hide Crc, LowFirst, WordsOut;
    if !IsByte(slave) || !IsWord(start) || !IsWord(numRegs) || !IsByte(2 * |values|) { return None; }
    var head: seq<Byte> := [slave, 0x10] + (HighFirst(start) + HighFirst(numRegs) + [2 * |values|]);
    var body := head;
    for k := 0 to |values|
      invariant AreWords(values[..k])
      invariant body == head + WordsOut(values[..k])
    {
      if !IsWord(values[k]) { return None; }
      WordsOutAppends(values[..k], values[k]);
      assert values[..k + 1] == values[..k] + [values[k]];
      body := body + HighFirst(values[k]);
    }
    assert values[..|values|] == values;
    var crc := NodeCrc16(body);
    assert body == Body(slave, WriteMany(start, numRegs, values));
    r := Some(body + crc);
  }

  /** _fc16 of the HAL driver: both counts come from the list, so it is the node's builder
      called with the list's own length. */
  method HalFc16(slave: int, addr: int, values: seq<int>) returns (r: Option<seq<Byte>>)
    ensures r.Some? <==> IsByte(slave) && IsWord(addr) && |values| <= 127 && AreWords(values)
    ensures r.Some? ==> r.value == Frame(slave, WriteMany(addr, |values|, values))
    ensures r.Some? && 1 <= |values| <= 123 ==> Decode(slave, r.value) == Some(WriteMany(addr, |values|, values))
  {
    hide Crc, LowFirst, WordsOut;
    var n := |values|;
    if !IsByte(slave) || !IsWord(addr) || !IsWord(n) || !IsByte(n * 2) { return None; }
    var head: seq<Byte> := [slave, 0x10] + (HighFirst(addr) + HighFirst(n) + [n * 2]);
    var body := head;
    for k := 0 to n
      invariant AreWords(values[..k])
      invariant body == head + WordsOut(values[..k])
    {
      if !IsWord(values[k]) { return None; }
      WordsOutAppends(values[..k], values[k]);
      assert values[..k + 1] == values[..k] + [values[k]];
      body := body + HighFirst(values[k]);
    }
    assert values[..n] == values;
    var crc := HalCrc16(body);
    assert body == Body(slave, WriteMany(addr, n, values));
    r := Some(body + crc);
    FrameDecodes(slave, WriteMany(addr, n, values));
  }

  /** _fc03 and _fc06 of the injected server mask their arguments instead of raising. */
  method DrlFrame(slave: Byte, code: Byte, addr: int, arg: int) returns (pkt: seq<Byte>)
    requires code == 0x03 || code == 0x06
    ensures pkt == Frame(slave, if code == 0x03 then Read(addr % 65536, arg % 65536)
                                                else WriteOne(addr % 65536, arg % 65536))
  {
    var body: seq<Byte> := [slave, code, (addr / 256) % 256, addr % 256, (arg / 256) % 256, arg % 256];
    var c := DrlCrc16(body);
    MaskedBytes(addr);
    MaskedBytes(arg);
    pkt := body + [c % 256, (c / 256) % 256];
  }

  lemma MaskedBytes(v: int)
    ensures (v % 65536) / 256 == (v / 256) % 256 && (v % 65536) % 256 == v % 256
  {
    var q, r := v / 65536, v % 65536;
    assert v == 256 * (256 * q + r / 256) + r % 256;
    assert v / 256 == 256 * q + r / 256;
  }
}
