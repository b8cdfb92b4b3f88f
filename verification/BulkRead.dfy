/** The server's register reads: present current and present position, one by one or in one
    request that spans both. */
module BulkRead {
  import opened Wrappers
  import opened BitArithmetic
  import opened ModbusCrc
  import opened ModbusFrames

  const FAILED := -99999
  const MAX_SPAN := 16

  // The constants substituted into the server's code.
  datatype Config = Config(slave: Byte, curReg: int, posReg: int, posRegs: int)

  type RegisterFile = nat -> Word

  function RegistersFrom(regs: RegisterFile, start: nat, count: nat): (r: seq<Word>)
    ensures |r| == count && forall i :: 0 <= i < count ==> r[i] == regs(start + i)
  {
    seq(count, i requires 0 <= i < count => regs(start + i))
  }

  /** The gripper's answer on the serial line: nothing, unless it decodes a read request
      inside the register space. */
  function Answer(slave: Byte, regs: RegisterFile, frame: seq<Byte>): seq<Byte> {
    match Decode(slave, frame)
    case Some(Read(addr, count)) =>
      if addr + count <= 65536 then WithCrc([slave, 0x03, 2 * count] + WordsOut(RegistersFrom(regs, addr, count)))
      else []
    case _ => []
  }

  // The answer to _fc03(addr, count).
  function AnswerTo(c: Config, regs: RegisterFile, addr: int, count: int): seq<Byte> {
    Answer(c.slave, regs, Frame(c.slave, Read(addr % 65536, count % 65536)))
  }

  function Signed16(v: Word): int {
    if v > 32767 then v - 65536 else v
  }

  function Signed32(low: Word, high: Word): int {
    var v: int := low + 65536 * (high as int);
    if v >= 2147483648 then v - 4294967296 else v
  }

  /** Two's complement: the one value of the signed range with these bits. */
  lemma SignedIsTwosComplement(low: Word, high: Word)
    ensures -32768 <= Signed16(low) < 32768 && (Signed16(low) - low) % 65536 == 0
    ensures -0x8000_0000 <= Signed32(low, high) < 0x8000_0000
    ensures (Signed32(low, high) - (low + 65536 * (high as int))) % 0x1_0000_0000 == 0
  {
  }

  // What _read_cur makes of one answer.
  function CurrentIn(reply: seq<Byte>): Option<int> {
    if |reply| >= 7 && reply[1] == 3 && reply[2] == 2 then Some(Signed16(WordAt(reply, 3))) else None
  }

  // What _read_pos makes of one answer.
  function PositionIn(c: Config, reply: seq<Byte>): Option<int> {
    if c.posRegs == 1 then
      if |reply| >= 7 && reply[1] == 3 && reply[2] == 2 then Some(WordAt(reply, 3)) else None
    else
      if |reply| >= 9 && reply[1] == 3 && reply[2] == 4
      then Some(Signed32(WordAt(reply, 3), WordAt(reply, 5))) else None
  }

  function OrFailed(v: Option<int>): int {
    if v.Some? then v.value else FAILED
  }

  function SeparateCurrent(c: Config, regs: RegisterFile): int {
    OrFailed(CurrentIn(AnswerTo(c, regs, c.curReg, 1)))
  }

  function SeparatePosition(c: Config, regs: RegisterFile): int {
    OrFailed(PositionIn(c, AnswerTo(c, regs, c.posReg, c.posRegs)))
  }

  // Which tries of an operation get their answer back.
  type Heard = nat -> bool

  predicate InThree(heard: Heard) {
    heard(0) || heard(1) || heard(2)
  }

  datatype Tries = Tries(span: Heard, cur: Heard, pos: Heard)

  function TriedCurrent(c: Config, regs: RegisterFile, heard: Heard): int {
    if InThree(heard) then SeparateCurrent(c, regs) else FAILED
  }

  function TriedPosition(c: Config, regs: RegisterFile, heard: Heard): int {
    if InThree(heard) then SeparatePosition(c, regs) else FAILED
  }

  /** _read_cur: up to three tries. */
  method ReadCurrent(c: Config, regs: RegisterFile, heard: Heard) returns (v: int)
    ensures v == TriedCurrent(c, regs, heard)
  {
    for i := 0 to 3
      invariant forall k: nat :: k < i && heard(k) ==> CurrentIn(AnswerTo(c, regs, c.curReg, 1)) == None
    {
      var frame := DrlFrame(c.slave, 0x03, c.curReg, 1);
      var val := if heard(i) then Answer(c.slave, regs, frame) else [];
      if |val| >= 7 && val[1] == 3 && val[2] == 2 {
        v := WordAt(val, 3);
        if v > 32767 {
          v := v - 65536;
        }
        return;
      }
    }
    return FAILED;
  }

  /** _read_pos */
  method ReadPosition(c: Config, regs: RegisterFile, heard: Heard) returns (v: int)
    ensures v == TriedPosition(c, regs, heard)
  {
    for i := 0 to 3
      invariant forall k: nat :: k < i && heard(k) ==>
                  PositionIn(c, AnswerTo(c, regs, c.posReg, c.posRegs)) == None
    {
      hide Answer, Frame;
      var frame := DrlFrame(c.slave, 0x03, c.posReg, c.posRegs);
      var val := if heard(i) then Answer(c.slave, regs, frame) else [];
      if c.posRegs == 1 {
        if |val| >= 7 && val[1] == 3 && val[2] == 2 {
          return WordAt(val, 3);
        }
      } else if |val| >= 9 && val[1] == 3 && val[2] == 4 {
        var low, high := WordAt(val, 3), WordAt(val, 5);
        v := low + 65536 * (high as int);
        if v >= 2147483648 {
          v := v - 4294967296;
        }
        return;
      }
    }
    return FAILED;
  }

  // ---------------------------------------------------------------- the spanning read

  function Width(c: Config): int {
    if c.posRegs < 1 then 1 else c.posRegs
  }

  function SpanStart(c: Config): int {
    if c.curReg < c.posReg then c.curReg else c.posReg
  }

  function SpanCount(c: Config): int {
    var last := c.posReg + Width(c) - 1;
    (if c.curReg > last then c.curReg else last) - SpanStart(c) + 1
  }

  // _reg_u16 of the spanning read.
  function RegisterIn(data: seq<Byte>, start: int, count: int, addr: int): Word
    requires |data| == 2 * count
  {
    var idx := addr - start;
    if idx < 0 || idx >= count then 0 else WordAt(data, 2 * idx)
  }

  // What the spanning read makes of one answer.
  function BulkIn(c: Config, reply: seq<Byte>): Option<(int, int)>
    requires 1 <= SpanCount(c)
  {
    var start, count := SpanStart(c), SpanCount(c);
    if |reply| < 5 + 2 * count || reply[1] != 3 then None
    else
      var data := reply[3..3 + 2 * count];
      var pos := if Width(c) == 1 then RegisterIn(data, start, count, c.posReg)
                 else Signed32(RegisterIn(data, start, count, c.posReg), RegisterIn(data, start, count, c.posReg + 1));
      Some((Signed16(RegisterIn(data, start, count, c.curReg)), pos))
  }

  function Separate(c: Config, regs: RegisterFile, tries: Tries): (int, int) {
    (TriedCurrent(c, regs, tries.cur), TriedPosition(c, regs, tries.pos))
  }

  function Bulk(c: Config, regs: RegisterFile, tries: Tries): (int, int) {
    var separate := Separate(c, regs, tries);
    if SpanCount(c) <= 0 || SpanCount(c) > MAX_SPAN || !InThree(tries.span) then separate
    else
      match BulkIn(c, AnswerTo(c, regs, SpanStart(c), SpanCount(c)))
      case Some(pair) => pair
      case None => separate
  }

  /** _read_cur_pos_bulk. No index of the method can leave its bounds, so its exception
      handler is never entered for lack of data. */
  method ReadBulk(c: Config, regs: RegisterFile, tries: Tries) returns (cur: int, pos: int)
    ensures (cur, pos) == Bulk(c, regs, tries)
  {
    hide Answer, Frame, SeparateCurrent, SeparatePosition;
    var start, count := SpanStart(c), SpanCount(c);
    if count <= 0 || count > 16 {
      cur := ReadCurrent(c, regs, tries.cur);
      pos := ReadPosition(c, regs, tries.pos);
      return;
    }
    for i := 0 to 3
      invariant forall k: nat :: k < i && tries.span(k) ==> BulkIn(c, AnswerTo(c, regs, start, count)) == None
    {
      var frame := DrlFrame(c.slave, 0x03, start, count);
      var val := if tries.span(i) then Answer(c.slave, regs, frame) else [];
      if |val| < 5 + 2 * count || val[1] != 3 {
        continue;
      }
      var data := val[3..3 + 2 * count];
      var curU: int := RegisterIn(data, start, count, c.curReg);
      cur := if curU > 32767 then curU - 65536 else curU;
      if Width(c) == 1 {
        pos := RegisterIn(data, start, count, c.posReg);
      } else {
        var low := RegisterIn(data, start, count, c.posReg);
        var high := RegisterIn(data, start, count, c.posReg + 1);
        pos := low + 65536 * (high as int);
        if pos >= 2147483648 {
          pos := pos - 4294967296;
        }
      }
      return;
    }
    cur := ReadCurrent(c, regs, tries.cur);
    pos := ReadPosition(c, regs, tries.pos);
  }

  // The registers lie in the sixteen-bit register space, and their count is a count.
  predicate InSpace(c: Config) {
    0 <= c.curReg < 65536 && 0 <= c.posReg && 0 <= c.posRegs && c.posReg + Width(c) <= 65536
  }

  // What the position registers hold.
  function PositionValue(c: Config, regs: RegisterFile): int
    requires InSpace(c)
  {
    if Width(c) == 1 then regs(c.posReg) else Signed32(regs(c.posReg), regs(c.posReg + 1))
  }

  lemma {:induction false} WordsOutAt(words: seq<Word>, k: nat)
    requires k < |words|
    ensures WordAt(WordsOut(words), 2 * k) == words[k]
  {
    var rest := WordsOut(words[1..]);
    assert WordsOut(words) == HighFirst(words[0]) + rest;
    if k > 0 {
      WordsOutAt(words[1..], k - 1);
      assert WordsOut(words)[2 * k] == rest[2 * (k - 1)] && WordsOut(words)[2 * k + 1] == rest[2 * (k - 1) + 1];
    }
  }

  // A read of up to 125 registers inside the space is answered with exactly those registers.
  lemma ReadAnswer(c: Config, regs: RegisterFile, addr: int, count: int)
    requires 0 <= addr && 1 <= count <= 125 && addr + count <= 65536
    ensures AnswerTo(c, regs, addr, count) ==
              WithCrc([c.slave, 0x03, 2 * count] + WordsOut(RegistersFrom(regs, addr, count)))
  {
    hide Decode, Frame, WithCrc, WordsOut;
    assert addr % 65536 == addr && count % 65536 == count;
    FrameDecodes(c.slave, Read(addr, count));
  }

  lemma SpanAnswer(c: Config, regs: RegisterFile)
    requires InSpace(c) && SpanCount(c) <= MAX_SPAN
    ensures AnswerTo(c, regs, SpanStart(c), SpanCount(c)) ==
            WithCrc([c.slave, 0x03, 2 * SpanCount(c)] + WordsOut(RegistersFrom(regs, SpanStart(c), SpanCount(c))))
  {
    ReadAnswer(c, regs, SpanStart(c), SpanCount(c));
  }

  lemma AnswerBytes(slave: Byte, n: Byte, data: seq<Byte>)
    ensures var reply := WithCrc([slave, 0x03, n] + data);
            && |reply| == 5 + |data| && reply[1] == 3 && reply[2] == n
            && forall i :: 0 <= i < |data| ==> reply[3 + i] == data[i]
  {
    hide Crc;
  }

  // The k-th word of an answer.
  lemma AnswerWord(slave: Byte, n: Byte, data: seq<Byte>, k: nat)
    requires 2 * k + 2 <= |data|
    ensures WordAt(WithCrc([slave, 0x03, n] + data), 3 + 2 * k) == WordAt(data, 2 * k)
  {
    AnswerBytes(slave, n, data);
    hide WithCrc;
    var reply, i := WithCrc([slave, 0x03, n] + data), 2 * k;
    assert reply[3 + i] == data[i] && reply[3 + (i + 1)] == data[i + 1];
  }

  lemma CurrentIsRegister(c: Config, regs: RegisterFile)
    requires InSpace(c)
    ensures SeparateCurrent(c, regs) == Signed16(regs(c.curReg))
  {
    hide AnswerTo, WithCrc, WordsOut, Signed16, WordAt;
    var words := RegistersFrom(regs, c.curReg, 1);
    ReadAnswer(c, regs, c.curReg, 1);
    AnswerBytes(c.slave, 2, WordsOut(words));
    AnswerWord(c.slave, 2, WordsOut(words), 0);
    WordsOutAt(words, 0);
  }

  /** For one or two position registers the separate read gives what they hold, so the
      spanning read returns the same pair wherever the registers lie. */
  lemma PositionIsRegisters(c: Config, regs: RegisterFile)
    requires InSpace(c) && (c.posRegs == 1 || c.posRegs == 2)
    ensures SeparatePosition(c, regs) == PositionValue(c, regs)
  {
    hide AnswerTo, WithCrc, WordsOut, Signed32, WordAt;
    var words := RegistersFrom(regs, c.posReg, c.posRegs);
    ReadAnswer(c, regs, c.posReg, c.posRegs);
    AnswerBytes(c.slave, 2 * c.posRegs, WordsOut(words));
    AnswerWord(c.slave, 2 * c.posRegs, WordsOut(words), 0);
    WordsOutAt(words, 0);
    if c.posRegs == 2 {
      AnswerWord(c.slave, 4, WordsOut(words), 1);
      WordsOutAt(words, 1);
    }
  }

  /** With any other register count the separate read always fails. */
  lemma OtherWidthsFail(c: Config, regs: RegisterFile)
    requires InSpace(c) && c.posRegs != 1 && c.posRegs != 2
    ensures SeparatePosition(c, regs) == FAILED
  {
    hide Frame, Decode, Crc, WordsOut;
    var count := c.posRegs % 65536;
    FrameDecodes(c.slave, Read(c.posReg, count));
    var reply := AnswerTo(c, regs, c.posReg, c.posRegs);
    assert count == c.posRegs || count == 0;
    assert c.posReg % 65536 == c.posReg;
    assert reply != [] ==> reply[2] == 2 * count;
  }

  lemma SpanReadsRegisters(c: Config, regs: RegisterFile, tries: Tries)
    requires InSpace(c) && SpanCount(c) <= MAX_SPAN && InThree(tries.span)
    ensures Bulk(c, regs, tries) == (Signed16(regs(c.curReg)), PositionValue(c, regs))
  {
    hide AnswerTo, WithCrc, WordsOut, RegisterIn, BulkIn, SeparateCurrent, SeparatePosition, Signed16, Signed32;
    SpanAnswer(c, regs);
    var start, count := SpanStart(c), SpanCount(c);
    BulkInOf(c, WordsOut(RegistersFrom(regs, start, count)));
    SpanHolds(regs, start, count, c.curReg);
    SpanHolds(regs, start, count, c.posReg);
    if Width(c) > 1 {
      SpanHolds(regs, start, count, c.posReg + 1);
    }
  }

  // What the spanning read takes out of an answer with these data bytes.
  lemma BulkInOf(c: Config, data: seq<Byte>)
    requires InSpace(c) && SpanCount(c) <= MAX_SPAN && |data| == 2 * SpanCount(c)
    ensures var start, count := SpanStart(c), SpanCount(c);
            BulkIn(c, WithCrc([c.slave, 0x03, 2 * count] + data)) ==
            Some((Signed16(RegisterIn(data, start, count, c.curReg)),
                  if Width(c) == 1 then RegisterIn(data, start, count, c.posReg)
                  else Signed32(RegisterIn(data, start, count, c.posReg),
                                RegisterIn(data, start, count, c.posReg + 1))))
  {
    hide Crc, RegisterIn, Signed16, Signed32;
    var count := SpanCount(c);
    var reply := WithCrc([c.slave, 0x03, 2 * count] + data);
    assert reply[3..3 + 2 * count] == data;
  }

  lemma SpanHolds(regs: RegisterFile, start: nat, count: nat, addr: nat)
    requires start <= addr < start + count
    ensures RegisterIn(WordsOut(RegistersFrom(regs, start, count)), start, count, addr) == regs(addr)
  {
    WordsOutAt(RegistersFrom(regs, start, count), addr - start);
    hide WordsOut;
  }

  /** For every register file, every placement of the registers and whatever answers are lost, with
      one or two position registers: as long as one of three tries is heard, of the spanning read
      or else of both separate ones, the spanning read returns the signed current and the
      two's-complement position, which are what the separate reads return when they are heard. */
  lemma BulkRefinesSeparate(c: Config, regs: RegisterFile, tries: Tries)
    requires InSpace(c) && (c.posRegs == 1 || c.posRegs == 2)
    ensures (InThree(tries.span) && SpanCount(c) <= MAX_SPAN) || (InThree(tries.cur) && InThree(tries.pos)) ==>
              Bulk(c, regs, tries) == (Signed16(regs(c.curReg)), PositionValue(c, regs))
    ensures InThree(tries.cur) && InThree(tries.pos) ==> Bulk(c, regs, tries) == Separate(c, regs, tries)
  {
    CurrentIsRegister(c, regs);
    PositionIsRegisters(c, regs);
    if SpanCount(c) <= MAX_SPAN && InThree(tries.span) {
      SpanReadsRegisters(c, regs, tries);
    }
  }

  /** Exactly when the two ways of reading agree: when the span is not read, for being too wide for
      one request or never heard; or else when each separate read succeeds, which takes an answer
      and for the position one or two registers, or the value is the failure marker itself. */
  lemma BulkAgreesIff(c: Config, regs: RegisterFile, tries: Tries)
    requires InSpace(c)
    ensures Bulk(c, regs, tries) == Separate(c, regs, tries)
       <==> || SpanCount(c) > MAX_SPAN || !InThree(tries.span)
            || (&& (InThree(tries.cur) || Signed16(regs(c.curReg)) == FAILED)
                && ((InThree(tries.pos) && (c.posRegs == 1 || c.posRegs == 2)) || PositionValue(c, regs) == FAILED))
  {
    CurrentIsRegister(c, regs);
    if c.posRegs == 1 || c.posRegs == 2 {
      PositionIsRegisters(c, regs);
    } else {
      OtherWidthsFail(c, regs);
    }
    if SpanCount(c) <= MAX_SPAN && InThree(tries.span) {
      SpanReadsRegisters(c, regs, tries);
    }
    hide SeparateCurrent, SeparatePosition, Signed16, PositionValue, BulkIn, AnswerTo;
  }
}
