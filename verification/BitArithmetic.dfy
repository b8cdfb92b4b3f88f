/** Exclusive or and shifts on the unbounded naturals, as the Python code uses them. */
module BitArithmetic {

  type Byte = b: int | 0 <= b < 256

  type Word = w: int | 0 <= w < 65536

  // struct.pack(">H", w)
  function HighFirst(w: Word): (r: seq<Byte>)
    ensures |r| == 2
  {
    [w / 256, w % 256]
  }

  // The big-endian word at position k.
  function WordAt(data: seq<Byte>, k: nat): Word
    requires k + 2 <= |data|
  {
    256 * (data[k] as int) + data[k + 1]
  }

  // a << n
  function Shl(a: nat, n: nat): nat
    decreases n
  {
    if n == 0 then a else 2 * Shl(a, n - 1)
  }

  lemma {:induction false} ShlAdds(a: nat, m: nat, n: nat)
    ensures Shl(a, m + n) == Shl(Shl(a, n), m)
    decreases m
  {
    if m > 0 { ShlAdds(a, m - 1, n); }
  }

  lemma ShlByte(a: nat)
    ensures Shl(a, 8) == 256 * a
  {
    ShlAdds(a, 4, 4);
    assert Shl(a, 4) == 16 * a by { ShlAdds(a, 2, 2); }
    ShlAdds(Shl(a, 4), 2, 2);
  }

  lemma ShlWord(a: nat)
    ensures Shl(a, 16) == 65536 * a
  {
    ShlAdds(a, 8, 8);
    ShlByte(a);
    ShlByte(256 * a);
  }

  lemma {:induction false} ShlGrows(a: nat, m: nat, n: nat)
    requires a > 0 && m <= n
    ensures Shl(1, m) <= Shl(a, n) && Shl(a, n) > 0
    decreases n
  {
    if m > 0 {
      ShlGrows(a, m - 1, n - 1);
    } else if n > 0 {
      ShlGrows(a, 0, n - 1);
    }
  }

  function Xor(a: nat, b: nat): nat
    decreases a + b
  {
    if a == 0 && b == 0 then 0 else 2 * Xor(a / 2, b / 2) + (if a % 2 == b % 2 then 0 else 1)
  }

  // The defining equations, usable without case distinction on zero.
  lemma XorHalves(a: nat, b: nat)
    ensures Xor(a, b) / 2 == Xor(a / 2, b / 2) && Xor(a, b) % 2 == (if a % 2 == b % 2 then 0 else 1)
  {
  }

  lemma {:induction false} XorZero(a: nat)
    ensures Xor(a, 0) == a && Xor(0, a) == a
  {
    if a > 0 { XorZero(a / 2); }
  }

  lemma {:induction false} XorCommutes(a: nat, b: nat)
    ensures Xor(a, b) == Xor(b, a)
    decreases a + b
  {
    if a + b > 0 { XorCommutes(a / 2, b / 2); }
  }

  lemma {:induction false} XorAssociates(a: nat, b: nat, c: nat)
    ensures Xor(Xor(a, b), c) == Xor(a, Xor(b, c))
    decreases a + b + c
  {
    if a + b + c > 0 {
      XorHalves(a, b);
      XorHalves(b, c);
      XorHalves(Xor(a, b), c);
      XorHalves(a, Xor(b, c));
      XorAssociates(a / 2, b / 2, c / 2);
    }
  }

  lemma {:induction false} XorIsZeroIff(a: nat, b: nat)
    ensures Xor(a, b) == 0 <==> a == b
    decreases a + b
  {
    if a + b > 0 { XorIsZeroIff(a / 2, b / 2); }
  }

  // Two sums with a common summand.
  lemma XorCancels(a: nat, b: nat, c: nat)
    ensures Xor(Xor(a, c), Xor(b, c)) == Xor(a, b)
    ensures Xor(Xor(c, a), Xor(c, b)) == Xor(a, b)
  {
    XorAssociates(a, c, Xor(b, c));
    XorCommutes(b, c);
    XorAssociates(c, c, b);
    XorIsZeroIff(c, c);
    XorZero(b);
    XorCommutes(c, a);
  }

  lemma XorExchanges(a: nat, b: nat, c: nat, d: nat)
    ensures Xor(Xor(a, b), Xor(c, d)) == Xor(Xor(a, c), Xor(b, d))
  {
    XorAssociates(a, b, Xor(c, d));
    XorAssociates(b, c, d);
    XorCommutes(b, c);
    XorAssociates(c, b, d);
    XorAssociates(a, c, Xor(b, d));
  }

  lemma {:induction false} XorBound(a: nat, b: nat, n: nat)
    requires a < Shl(1, n) && b < Shl(1, n)
    ensures Xor(a, b) < Shl(1, n)
    decreases n
  {
    if n > 0 {
      XorHalves(a, b);
      XorBound(a / 2, b / 2, n - 1);
    }
  }

  // Numbers whose bits do not overlap: exclusive or is addition.
  lemma {:induction false} XorDisjoint(a: nat, b: nat, n: nat)
    requires a < Shl(1, n)
    ensures Xor(a, Shl(b, n)) == a + Shl(b, n)
    decreases n
  {
    if n == 0 {
      XorZero(b);
    } else {
      XorHalves(a, Shl(b, n));
      XorDisjoint(a / 2, b, n - 1);
    }
  }

  lemma ShlHalves(a: nat, n: nat)
    requires n > 0
    ensures Shl(a, n) / 2 == Shl(a, n - 1) && Shl(a, n) % 2 == 0
  {
  }

  // Shifting both operands shifts the result.
  lemma {:induction false} XorScales(a: nat, b: nat, n: nat)
    ensures Xor(Shl(a, n), Shl(b, n)) == Shl(Xor(a, b), n)
    decreases n
  {
    if n > 0 {
      XorHalves(Shl(a, n), Shl(b, n));
      XorScales(a, b, n - 1);
      hide Xor;
      ShlHalves(a, n);
      ShlHalves(b, n);
      ShlHalves(Xor(a, b), n);
    }
  }

  // Low parts and high parts combine independently.
  lemma XorSplits(a: nat, b: nat, c: nat, d: nat, n: nat)
    requires a < Shl(1, n) && c < Shl(1, n)
    ensures Xor(a + Shl(b, n), c + Shl(d, n)) == Xor(a, c) + Shl(Xor(b, d), n)
  {
    hide Xor, Shl;
    XorDisjoint(a, b, n);
    XorDisjoint(c, d, n);
    XorExchanges(a, Shl(b, n), c, Shl(d, n));
    XorScales(b, d, n);
    XorBound(a, c, n);
    XorDisjoint(Xor(a, c), Xor(b, d), n);
  }

  // True when the number of one bits is odd.
  predicate OddWeight(a: nat) {
    if a == 0 then false else OddWeight(a / 2) != (a % 2 == 1)
  }

  lemma {:induction false} OddWeightOfXor(a: nat, b: nat)
    ensures OddWeight(Xor(a, b)) <==> (OddWeight(a) != OddWeight(b))
    decreases a + b
  {
    if a + b > 0 {
      XorHalves(a, b);
      OddWeightOfXor(a / 2, b / 2);
    }
  }
}
