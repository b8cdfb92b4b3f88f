/** The Modbus CRC-16: the byte loop of gripper_node.py, the one of the DRL server
    and the one of the HAL driver, and what the code detects. */
module ModbusCrc {
  import opened BitArithmetic

  const INITIAL: Word := 0xFFFF
  const POLYNOMIAL: Word := 0xA001

  function BitStep(c: nat): nat {
    if c % 2 == 1 then Xor(c / 2, POLYNOMIAL) else c / 2
  }

  function Steps(c: nat, n: nat): nat
    decreases n
  {
    if n == 0 then c else Steps(BitStep(c), n - 1)
  }

  function Feed(c: nat, b: Byte): nat {
    Steps(Xor(c, b), 8)
  }

  function FeedAll(c: nat, data: seq<Byte>): nat
    decreases |data|
  {
    if data == [] then c else FeedAll(Feed(c, data[0]), data[1..])
  }

  function Crc(data: seq<Byte>): nat {
    FeedAll(INITIAL, data)
  }

  // struct.pack("<H", crc): low byte first.
  function LowFirst(w: nat): (r: seq<Byte>)
    ensures |r| == 2
  {
    [w % 256, (w / 256) % 256]
  }

  function LittleEndian(data: seq<Byte>): nat {
    if data == [] then 0 else data[0] + 256 * LittleEndian(data[1..])
  }

  // ---------------------------------------------------------------- one register shift

  lemma BitStepLinear(c: nat, d: nat)
    ensures BitStep(Xor(c, d)) == Xor(BitStep(c), BitStep(d))
  {
    XorHalves(c, d);
    var x, y := c / 2, d / 2;
    if c % 2 == 1 && d % 2 == 1 {
      XorCancels(x, y, POLYNOMIAL);
    } else if c % 2 == 1 {
      XorAssociates(x, y, POLYNOMIAL);
      XorCommutes(y, POLYNOMIAL);
      XorAssociates(x, POLYNOMIAL, y);
    } else {
      XorAssociates(x, y, POLYNOMIAL);
    }
  }

  lemma {:induction false} StepsLinear(c: nat, d: nat, n: nat)
    ensures Steps(Xor(c, d), n) == Xor(Steps(c, n), Steps(d, n))
    decreases n
  {
    if n > 0 {
      BitStepLinear(c, d);
      StepsLinear(BitStep(c), BitStep(d), n - 1);
    }
  }

  lemma {:induction false} StepsAdd(c: nat, m: nat, n: nat)
    ensures Steps(c, m + n) == Steps(Steps(c, m), n)
    decreases m
  {
    if m > 0 { StepsAdd(BitStep(c), m - 1, n); }
  }

  lemma BitStepBound(c: Word)
    ensures BitStep(c) < 65536
  {
    ShlWord(1);
    XorBound(c / 2, POLYNOMIAL, 16);
  }

  lemma {:induction false} StepsBound(c: Word, n: nat)
    ensures Steps(c, n) < 65536
    decreases n
  {
    if n > 0 {
      BitStepBound(c);
      StepsBound(BitStep(c), n - 1);
    }
  }

  // Shifting out zeros divides: a number moved up by n bits comes back after n steps.
  lemma {:induction false} StepsShift(c: nat, n: nat)
    ensures Steps(Shl(c, n), n) == c
    decreases n
  {
    if n > 0 { StepsShift(c, n - 1); }
  }

  lemma {:induction false} StepsOfZero(n: nat)
    ensures Steps(0, n) == 0
  {
    if n > 0 { StepsOfZero(n - 1); }
  }

  // No nonzero register value dies out.
  lemma {:induction false} StepsKernel(c: Word, n: nat)
    requires c != 0
    ensures Steps(c, n) != 0
    decreases n
  {
    if n > 0 {
      BitStepBound(c);
      XorIsZeroIff(c / 2, POLYNOMIAL);
      StepsKernel(BitStep(c), n - 1);
    }
  }

  // ---------------------------------------------------------------- whole messages

  lemma {:induction false} LittleEndianBound(data: seq<Byte>)
    ensures LittleEndian(data) < Shl(1, 8 * |data|)
  {
    if data != [] {
      ShlByte(Shl(1, 8 * |data[1..]|));
      ShlAdds(1, 8, 8 * |data[1..]|);
      LittleEndianBound(data[1..]);
    }
  }

  lemma {:induction false} LittleEndianConcat(a: seq<Byte>, b: seq<Byte>)
    ensures LittleEndian(a + b) == LittleEndian(a) + Shl(LittleEndian(b), 8 * |a|)
    decreases |a|
  {
    if a == [] {
      assert a + b == b;
    } else {
      var rest, v := a[1..], LittleEndian(b);
      assert (a + b)[1..] == rest + b;
      LittleEndianConcat(rest, b);
      ShlByte(Shl(v, 8 * |rest|));
      ShlAdds(v, 8, 8 * |rest|);
    }
  }

  /** The byte loop is one long division: the register after a message is the message, read
      as one little-endian number and combined with the start value, shifted out bit by bit. */
  lemma {:induction false} FeedAllIsDivision(c: nat, data: seq<Byte>)
    ensures FeedAll(c, data) == Steps(Xor(c, LittleEndian(data)), 8 * |data|)
    decreases |data|
  {
    hide Xor, Feed;
    if data == [] {
      XorZero(c);
    } else {
      hide Steps;
      var b, rest := data[0], data[1..];
      FeedAllIsDivision(Feed(c, b), rest);
      FeedAhead(c, b, LittleEndian(rest));
      StepsAdd(Xor(c, LittleEndian(data)), 8, 8 * |rest|);
      assert 8 * |data| == 8 + 8 * |rest|;
    }
  }

  // Later bytes may be combined before the shifts instead of after them.
  lemma ShiftAhead(c: nat, b: nat, v: nat, n: nat)
    requires b < Shl(1, n)
    ensures Xor(Steps(Xor(c, b), n), v) == Steps(Xor(c, b + Shl(v, n)), n)
  {
    StepsShift(v, n);
    StepsLinear(Xor(c, b), Shl(v, n), n);
    XorAssociates(c, b, Shl(v, n));
    XorDisjoint(b, v, n);
  }

  lemma FeedAhead(c: nat, b: Byte, v: nat)
    ensures Xor(Feed(c, b), v) == Steps(Xor(c, b + 256 * v), 8)
  {
    hide Steps, Xor, Shl;
    ShlByte(v);
    ShlByte(1);
    ShiftAhead(c, b, v, 8);
  }

  lemma CrcIsWord(data: seq<Byte>)
    ensures Crc(data) < 65536
  {
    FeedAllBound(INITIAL, data);
  }

  lemma {:induction false} FeedAllBound(c: Word, data: seq<Byte>)
    ensures FeedAll(c, data) < 65536
    decreases |data|
  {
    if data != [] {
      ShlWord(1);
      XorBound(c, data[0], 16);
      StepsBound(Xor(c, data[0]), 8);
      FeedAllBound(Feed(c, data[0]), data[1..]);
    }
  }

  /** A frame is a body followed by its CRC, low byte first; its own CRC is zero. */
  lemma FrameResidueIsZero(body: seq<Byte>)
    ensures Crc(body + LowFirst(Crc(body))) == 0
  {
    var c := Crc(body);
    CrcIsWord(body);
    FeedAllConcat(INITIAL, body, LowFirst(c));
    FeedAllIsDivision(c, LowFirst(c));
    LowFirstValue(c);
    XorIsZeroIff(c, c);
    StepsOfZero(16);
  }

  lemma LowFirstValue(w: Word)
    ensures LittleEndian(LowFirst(w)) == w
  {
    PairValue(w % 256, w / 256);
  }

  lemma PairValue(a: Byte, b: Byte)
    ensures LittleEndian([a, b]) == a + 256 * b
  {
    assert [a, b][1..] == [b];
    assert LittleEndian([b]) == b;
  }

  lemma {:induction false} FeedAllConcat(c: nat, a: seq<Byte>, b: seq<Byte>)
    ensures FeedAll(c, a + b) == FeedAll(FeedAll(c, a), b)
    decreases |a|
  {
    if a == [] {
      assert a + b == b;
    } else {
      assert (a + b)[1..] == a[1..] + b;
      FeedAllConcat(Feed(c, a[0]), a[1..], b);
    }
  }

  // The CRCs of two messages of one length differ by the division of their difference.
  lemma CrcDifference(x: seq<Byte>, y: seq<Byte>)
    requires |x| == |y|
    ensures Xor(Crc(x), Crc(y)) == Steps(Xor(LittleEndian(x), LittleEndian(y)), 8 * |x|)
  {
    FeedAllIsDivision(INITIAL, x);
    FeedAllIsDivision(INITIAL, y);
    var a, b := Xor(INITIAL, LittleEndian(x)), Xor(INITIAL, LittleEndian(y));
    StepsLinear(a, b, 8 * |x|);
    XorCancels(LittleEndian(x), LittleEndian(y), INITIAL);
  }

  // ---------------------------------------------------------------- which check code it is

  // The carry-less product: shift and add, with exclusive or for addition.
  function Product(a: nat, b: nat): nat
    decreases b
  {
    if b == 0 then 0 else Xor(if b % 2 == 1 then a else 0, 2 * Product(a, b / 2))
  }

  // x^16 + x^15 + x^2 + 1, as the lowest bit of the first byte stands for the highest power.
  const GENERATOR: nat := 0x14003

  ghost predicate IsMultiple(d: nat, n: nat) {
    exists q: nat :: q < Shl(1, n) && d == Product(GENERATOR, q)
  }

  // One shift takes one bit off the factor.
  lemma ShiftsOut(d: nat, q: nat)
    ensures d == Product(GENERATOR, q) <==> q % 2 == d % 2 && BitStep(d) == Product(GENERATOR, q / 2)
  {
    var more := Product(GENERATOR, q / 2);
    var g: nat := if q % 2 == 1 then GENERATOR else 0;
    hide Product, Xor;
    ProductStep(GENERATOR, q);
    LowestBit(g, more);
    SameByHalves(d, Xor(g, 2 * more));
    XorZero(more);
    XorCommutes(POLYNOMIAL, more);
    XorUndone(d / 2, more, POLYNOMIAL);
  }

  lemma SameByHalves(a: nat, b: nat)
    ensures a == b <==> a % 2 == b % 2 && a / 2 == b / 2
  {
  }

  lemma ProductStep(a: nat, b: nat)
    ensures Product(a, b) == Xor(if b % 2 == 1 then a else 0, 2 * Product(a, b / 2))
  {
    if b == 0 { XorZero(0); }
    hide Xor;
  }

  lemma LowestBit(g: nat, more: nat)
    requires g == 0 || g == GENERATOR
    ensures Xor(g, 2 * more) % 2 == (if g == 0 then 0 else 1)
    ensures Xor(g, 2 * more) / 2 == Xor(if g == 0 then 0 else POLYNOMIAL, more)
  {
    XorHalves(g, 2 * more);
    assert 2 * more / 2 == more;
    hide Xor;
  }

  lemma XorUndone(a: nat, b: nat, c: nat)
    ensures a == Xor(b, c) <==> Xor(a, c) == b
  {
    XorAssociates(a, c, c);
    XorAssociates(b, c, c);
    XorIsZeroIff(c, c);
    XorZero(a);
    XorZero(b);
  }

  lemma {:induction false} DiesOutIff(d: nat, n: nat)
    ensures Steps(d, n) == 0 <==> IsMultiple(d, n)
    decreases n
  {
    hide BitStep, Product;
    if n == 0 {
      assert Product(GENERATOR, 0) == 0 by { NoFactor(); }
    } else {
      var next := BitStep(d);
      DiesOutIff(next, n - 1);
      if IsMultiple(next, n - 1) {
        var q: nat :| q < Shl(1, n - 1) && next == Product(GENERATOR, q);
        ShiftsOut(d, 2 * q + d % 2);
      }
      if IsMultiple(d, n) {
        var q: nat :| q < Shl(1, n) && d == Product(GENERATOR, q);
        ShiftsOut(d, q);
      }
    }
  }

  lemma NoFactor()
    ensures Product(GENERATOR, 0) == 0
  {
  }

  /** The code is CRC-16/MODBUS: a word is the CRC of a message exactly if the message, as one
      little-endian number with all ones added to its first sixteen bits and the word to the
      sixteen bits behind it, is a multiple of the generator. */
  lemma CrcIsRemainderIff(data: seq<Byte>, w: Word)
    ensures var n := 8 * |data|;
            Crc(data) == w <==> IsMultiple(Xor(Xor(0xFFFF, LittleEndian(data)), Shl(w, n)), n)
  {
    var n := 8 * |data|;
    var d := Xor(0xFFFF, LittleEndian(data));
    FeedAllIsDivision(INITIAL, data);
    StepsLinear(d, Shl(w, n), n);
    StepsShift(w, n);
    DiesOutIff(Xor(d, Shl(w, n)), n);
    XorIsZeroIff(Crc(data), w);
  }

  /** Exactly which errors go undetected: those that are multiples of the generator. */
  lemma UndetectedIff(x: seq<Byte>, y: seq<Byte>)
    requires |x| == |y|
    ensures Crc(x) == Crc(y) <==> IsMultiple(Xor(LittleEndian(x), LittleEndian(y)), 8 * |x|)
  {
    CrcDifference(x, y);
    DiesOutIff(Xor(LittleEndian(x), LittleEndian(y)), 8 * |x|);
    XorIsZeroIff(Crc(x), Crc(y));
  }

  // Messages that differ by the bit pattern `error`, starting `shift` bits into the stream.
  ghost predicate DiffersBy(x: seq<Byte>, y: seq<Byte>, error: nat, shift: nat) {
    && |x| == |y|
    && Xor(LittleEndian(x), LittleEndian(y)) == Shl(error, shift)
  }

  /** Any burst of at most sixteen bits, wherever it falls and however it straddles bytes,
      changes the CRC. */
  lemma BurstIsDetected(x: seq<Byte>, y: seq<Byte>, error: Word, shift: nat)
    requires DiffersBy(x, y, error, shift) && error != 0
    ensures Crc(x) != Crc(y)
  {
    LittleEndianBound(x);
    LittleEndianBound(y);
    XorBound(LittleEndian(x), LittleEndian(y), 8 * |x|);
    BurstFits(error, shift, 8 * |x|);
    CrcDifference(x, y);
    StepsAdd(Shl(error, shift), shift, 8 * |x| - shift);
    StepsShift(error, shift);
    StepsKernel(error, 8 * |x| - shift);
    XorIsZeroIff(Crc(x), Crc(y));
  }

  lemma BurstFits(error: nat, shift: nat, n: nat)
    requires error > 0 && Shl(error, shift) < Shl(1, n)
    ensures shift < n
  {
    if shift >= n { ShlGrows(error, n, shift); }
  }

  /** Corruption confined to two adjacent bytes changes the CRC; the bytes may be the
      frame's own CRC bytes, so no such corruption of a good frame leaves residue zero. */
  lemma TwoAdjacentBytesAreDetected(pre: seq<Byte>, a: Byte, b: Byte, a': Byte, b': Byte, post: seq<Byte>)
    requires a != a' || b != b'
    ensures Crc(pre + [a, b] + post) != Crc(pre + [a', b'] + post)
  {
    var x, y := pre + [a, b] + post, pre + [a', b'] + post;
    var n := 8 * |pre|;
    var w, w' := a + 256 * b, a' + 256 * b';
    var head, tail := LittleEndian(pre), LittleEndian(post);
    hide Xor, Shl, Crc, LittleEndian;
    WindowValue(pre, a, b, post);
    WindowValue(pre, a', b', post);
    LittleEndianBound(pre);
    XorSplits(head, w + Shl(tail, 16), head, w' + Shl(tail, 16), n);
    ShlWord(1);
    XorSplits(w, tail, w', tail, 16);
    XorIsZeroIff(head, head);
    XorIsZeroIff(tail, tail);
    ShlWord(0);
    XorBound(w, w', 16);
    XorIsZeroIff(w, w');
    BurstIsDetected(x, y, Xor(w, w'), n);
  }

  lemma WindowValue(pre: seq<Byte>, a: Byte, b: Byte, post: seq<Byte>)
    ensures LittleEndian(pre + [a, b] + post)
         == LittleEndian(pre) + Shl(a + 256 * b + Shl(LittleEndian(post), 16), 8 * |pre|)
  {
    hide Shl, LittleEndian;
    assert pre + [a, b] + post == pre + ([a, b] + post);
    LittleEndianConcat(pre, [a, b] + post);
    LittleEndianConcat([a, b], post);
    PairValue(a, b);
  }

  /** Any odd number of flipped bits, spread anywhere over the message, changes the CRC. */
  lemma OddErrorsAreDetected(x: seq<Byte>, y: seq<Byte>)
    requires |x| == |y| && OddWeight(Xor(LittleEndian(x), LittleEndian(y)))
    ensures Crc(x) != Crc(y)
  {
    CrcDifference(x, y);
    StepsKeepWeight(Xor(LittleEndian(x), LittleEndian(y)), 8 * |x|);
    XorIsZeroIff(Crc(x), Crc(y));
  }

  lemma {:induction false} StepsKeepWeight(c: nat, n: nat)
    ensures OddWeight(Steps(c, n)) <==> OddWeight(c)
    decreases n
  {
    if n > 0 {
      PolynomialWeight();
      OddWeightOfXor(c / 2, POLYNOMIAL);
      StepsKeepWeight(BitStep(c), n - 1);
    }
  }

  lemma PolynomialWeight()
    ensures OddWeight(POLYNOMIAL)
  {
    assert !OddWeight(5);
    assert OddWeight(10 / 2) == OddWeight(5);
    assert !OddWeight(10) && !OddWeight(20) && !OddWeight(40);
    assert !OddWeight(80) && !OddWeight(160) && !OddWeight(320);
    assert !OddWeight(640) && !OddWeight(1280) && !OddWeight(2560);
    assert !OddWeight(5120) && !OddWeight(10240) && !OddWeight(20480);
  }

  // ---------------------------------------------------------------- the three loops

  /** ModbusRTU.crc16 of the node. */
  method NodeCrc16(data: seq<Byte>) returns (r: seq<Byte>)
    ensures r == LowFirst(Crc(data))
  {
    var crc: nat := 0xFFFF;
    for k := 0 to |data|
      invariant FeedAll(crc, data[k..]) == Crc(data)
    {
      ghost var before := crc;
      crc := Xor(crc, data[k]);
      for i := 0 to 8
        invariant Steps(crc, 8 - i) == Feed(before, data[k])
      {
        crc := if crc % 2 == 1 then Xor(crc / 2, 0xA001) else crc / 2;
      }
      assert data[k..][1..] == data[k + 1..];
    }
    r := LowFirst(crc);
  }

  /** _crc16 of the HAL driver. */
  method HalCrc16(data: seq<Byte>) returns (packed: seq<Byte>)
    ensures packed == LowFirst(Crc(data))
  {
    var crc: nat := 0xFFFF;
    var rest := data;
    while rest != []
      invariant FeedAll(crc, rest) == Crc(data)
      decreases |rest|
    {
      ghost var before := crc;
      crc := Xor(crc, rest[0]);
      for i := 0 to 8
        invariant Steps(crc, 8 - i) == Feed(before, rest[0])
      {
        crc := if crc % 2 == 1 then Xor(crc / 2, 0xA001) else crc / 2;
      }
      rest := rest[1..];
    }
    packed := LowFirst(crc);
  }

  /** _crc16 of the injected DRL server: an integer, branches as statements. */
  method DrlCrc16(data: seq<Byte>) returns (crc: nat)
    ensures crc == Crc(data) && crc < 65536
  {
    crc := 0xFFFF;
    for k := 0 to |data|
      invariant FeedAll(crc, data[k..]) == Crc(data)
    {
      ghost var before := crc;
      crc := Xor(crc, data[k]);
      for i := 0 to 8
        invariant Steps(crc, 8 - i) == Feed(before, data[k])
      {
        if crc % 2 != 0 {
          crc := Xor(crc / 2, 0xA001);
        } else {
          crc := crc / 2;
        }
      }
      assert data[k..][1..] == data[k + 1..];
    }
    CrcIsWord(data);
  }
}
