/** Unsigned machine integers: bitwise operators on naturals, and big-endian byte strings.

The source works with `&`, `|`, `^` and shifts. They are defined here bit by bit, and the
lemmas tie them to the arithmetic that the wire formats are defined with. */
module Bits {

  type byte = b: int | 0 <= b < 256

  const U64_LIMIT: nat := 0x1_0000_0000_0000_0000

  function Pow2(k: nat): (r: nat)
    ensures r > 0
  {
    if k == 0 then 1 else 2 * Pow2(k - 1)
  }

  function And(a: nat, b: nat): (r: nat)
    ensures r <= a && r <= b
  {
    if a == 0 || b == 0 then 0
    else 2 * And(a / 2, b / 2) + if a % 2 == 1 && b % 2 == 1 then 1 else 0
  }

  function Or(a: nat, b: nat): nat {
    if a == 0 then b
    else if b == 0 then a
    else 2 * Or(a / 2, b / 2) + if a % 2 == 1 || b % 2 == 1 then 1 else 0
  }

  function Xor(a: nat, b: nat): nat {
    if a == 0 then b
    else if b == 0 then a
    else 2 * Xor(a / 2, b / 2) + if a % 2 != b % 2 then 1 else 0
  }

  function Shr(a: nat, k: nat): nat {
    if k == 0 then a else Shr(a / 2, k - 1)
  }

  lemma ShiftsRight(a: nat)
    ensures Shr(a, 4) == a / 16 && Shr(a, 6) == a / 64
  {
    ShiftRightTwice(a, 4);
    ShiftRightTwice(a / 4, 2);
    ShiftRightTwice(a, 6);
    ShiftRightTwice(a / 4, 4);
    ShiftRightTwice(a / 16, 2);
  }

  lemma ShiftRightTwice(a: nat, k: nat)
    requires k >= 2
    ensures Shr(a, k) == Shr(a / 4, k - 2)
  {
    assert Shr(a, k) == Shr(a / 2, k - 1);
  }

  /** A left shift of a 64-bit word drops the bits that leave the word. */
  function Shl64(a: nat, k: nat): nat {
    (a * Pow2(k)) % U64_LIMIT
  }

  lemma PowersOfTwo()
    ensures Pow2(1) == 2 && Pow2(2) == 4 && Pow2(3) == 8 && Pow2(4) == 16
    ensures Pow2(6) == 64 && Pow2(8) == 256 && Pow2(16) == 65536
  {
    assert Pow2(4) == 16;
    assert Pow2(8) == 16 * Pow2(4);
    assert Pow2(12) == 16 * Pow2(8);
  }

  // Several lemmas split a number as q * 2^k + r, with r its low k bits.

  lemma {:induction false} AndLowMask(q: nat, r: nat, k: nat)
    requires r < Pow2(k)
    ensures And(q * Pow2(k) + r, Pow2(k) - 1) == r
    decreases k
  {
    if k > 0 {
      var p := Pow2(k - 1);
      var t := q * p;
      HalfOfSplit(q, r, k);
      AndLowMask(q, r / 2, k - 1);
      assert (Pow2(k) - 1) / 2 == p - 1;
    }
  }

  lemma {:induction false} AndDouble(x: nat, y: nat)
    ensures And(x, 2 * y) == 2 * And(x / 2, y)
  {
  }

  lemma HalfOfSplit(q: nat, r: nat, k: nat)
    requires k > 0 && r < Pow2(k)
    ensures r / 2 < Pow2(k - 1)
    ensures q * Pow2(k) == 2 * (q * Pow2(k - 1))
    ensures (q * Pow2(k) + r) / 2 == q * Pow2(k - 1) + r / 2
    ensures (q * Pow2(k) + r) % 2 == r % 2
  {
  }

  /** The masks the packet code applies to a byte, as divisions and remainders. */
  lemma LowMasks(x: byte)
    ensures And(x, 0x03) == x % 4 && And(x, 0x0f) == x % 16 && And(x, 0x3f) == x % 64
  {
    PowersOfTwo();
    AndLowMask(x / 4, x % 4, 2);
    AndLowMask(x / 16, x % 16, 4);
    AndLowMask(x / 64, x % 64, 6);
  }

  lemma HighMasks(x: byte)
    ensures And(x, 0xc0) == x / 64 * 64
    ensures And(x, 0xf0) == x / 16 * 16
    ensures Shr(And(x, 0x30), 4) == x / 16 % 4
  {
    hide And, Pow2, Shr;
    PowersOfTwo();
    ShiftsRight(And(x, 0x30));
    AndTimes16(x, 0x0c);
    AndDouble(x / 16, 6);
    AndDouble(x / 32, 3);
    AndLowMask(0, x / 64, 2);
    AndTimes16(x, 0x0f);
    AndLowMask(0, x / 16, 4);
    AndTimes16(x, 0x03);
    AndLowMask(x / 64, x / 16 % 4, 2);
  }

  lemma AndTimes16(x: nat, m: nat)
    ensures And(x, 16 * m) == 16 * And(x / 16, m)
  {
    hide And;
    AndDouble(x, 8 * m);
    AndDouble(x / 2, 4 * m);
    AndDouble(x / 4, 2 * m);
    AndDouble(x / 8, m);
  }

  lemma {:induction false} OrDisjoint(a: nat, b: nat, k: nat)
    requires b < Pow2(k)
    ensures Or(a * Pow2(k), b) == a * Pow2(k) + b
    decreases k
  {
    hide Or;
    if k == 0 {
      OrZero(a);
    } else {
      var t := a * Pow2(k - 1);
      assert a * Pow2(k) == 2 * t;
      OrEven(t, b);
      OrDisjoint(a, b / 2, k - 1);
    }
  }

  lemma {:induction false} OrZero(a: nat)
    ensures Or(a, 0) == a
  {
  }

  lemma {:induction false} OrEven(t: nat, b: nat)
    ensures Or(2 * t, b) == 2 * Or(t, b / 2) + b % 2
  {
    if t > 0 && b > 0 {
      assert 2 * t / 2 == t && 2 * t % 2 == 0;
    } else if b == 0 {
      OrZero(t);
    }
  }

  /** Shifting a byte into a 64-bit accumulator is multiply-add as long as nothing is
  pushed out of the word. */
  lemma ShiftInByte(v: nat, b: byte)
    requires v < 0x100_0000_0000_0000
    ensures Or(Shl64(v, 8), b) == v * 256 + b
  {
    hide Or;
    PowersOfTwo();
    OrDisjoint(v, b, 8);
  }

  /** Each bit of an exclusive or is set if and only if the two bits it comes from differ. */
  lemma {:induction false} XorBit(a: nat, b: nat, k: nat)
    ensures Shr(Xor(a, b), k) % 2 == 1 <==> Shr(a, k) % 2 != Shr(b, k) % 2
    decreases k
  {
    XorHalves(a, b);
    hide Xor;
    if k > 0 {
      XorBit(a / 2, b / 2, k - 1);
    }
  }

  lemma XorHalves(a: nat, b: nat)
    ensures Xor(a, b) / 2 == Xor(a / 2, b / 2)
    ensures Xor(a, b) % 2 == 1 <==> a % 2 != b % 2
  {
  }

  lemma {:induction false} XorSelfInverse(a: nat, b: nat)
    ensures Xor(Xor(a, b), b) == a
  {
    if a == 0 {
      XorCancel(b);
    } else if b != 0 {
      XorSelfInverse(a / 2, b / 2);
      var x := Xor(a, b);
      assert x / 2 == Xor(a / 2, b / 2);
      if x == 0 {
        assert Xor(a / 2, b / 2) == 0;
      }
    }
  }

  lemma {:induction false} XorCancel(b: nat)
    ensures Xor(b, b) == 0
  {
    if b > 0 {
      XorCancel(b / 2);
    }
  }

  lemma {:induction false} XorCommutes(a: nat, b: nat)
    ensures Xor(a, b) == Xor(b, a)
  {
    if a > 0 && b > 0 {
      XorCommutes(a / 2, b / 2);
    }
  }

  lemma {:induction false} XorBound(a: nat, b: nat, k: nat)
    requires a < Pow2(k) && b < Pow2(k)
    ensures Xor(a, b) < Pow2(k)
    decreases k
  {
    if k > 0 {
      XorBound(a / 2, b / 2, k - 1);
    }
  }

  lemma {:induction false} XorShifted(a: nat, b: nat, k: nat)
    ensures Shr(Xor(a, b), k) == Xor(Shr(a, k), Shr(b, k))
    decreases k
  {
    if k > 0 {
      XorShifted(a / 2, b / 2, k - 1);
    }
  }

  /** Xor with a low nibble leaves the high one alone. */
  lemma XorNibble(x: byte, low: byte)
    requires low < 16
    ensures XorByte(x, low) / 16 == x / 16
  {
    XorZero(x / 16);
    hide Xor, Shr;
    XorShifted(x, low, 4);
    ShiftsRight(x);
    ShiftsRight(low);
    ShiftsRight(XorByte(x, low));
  }

  lemma XorZero(x: nat)
    ensures Xor(x, 0) == x
  {
  }

  function XorByte(a: byte, b: byte): (r: byte)
    ensures Xor(r, b) == a
  {
    PowersOfTwo();
    XorBound(a, b, 8);
    XorSelfInverse(a, b);
    Xor(a, b)
  }

  /** Bytewise xor of two equally long strings. */
  function XorBytes(a: seq<byte>, b: seq<byte>): (r: seq<byte>)
    requires |a| <= |b|
    ensures |r| == |a|
    ensures forall i :: 0 <= i < |a| ==> r[i] == XorByte(a[i], b[i])
  {
    seq(|a|, i requires 0 <= i < |a| => XorByte(a[i], b[i]))
  }

  lemma XorBytesSelfInverse(a: seq<byte>, b: seq<byte>)
    requires |a| <= |b|
    ensures XorBytes(XorBytes(a, b), b) == a
  {
    forall i | 0 <= i < |a| ensures XorBytes(XorBytes(a, b), b)[i] == a[i] {
      XorSelfInverse(a[i], b[i]);
    }
  }

  // ----- big-endian numbers

  function Pow256(k: nat): (r: nat)
    ensures r > 0
  {
    if k == 0 then 1 else 256 * Pow256(k - 1)
  }

  /** The number a big-endian byte string stands for. */
  function Be(bs: seq<byte>): nat {
    if bs == [] then 0 else Be(bs[..|bs| - 1]) * 256 + bs[|bs| - 1]
  }

  /** The big-endian string of n in w bytes. */
  function BeBytes(n: nat, w: nat): (bs: seq<byte>)
    ensures |bs| == w
  {
    if w == 0 then [] else BeBytes(n / 256, w - 1) + [n % 256]
  }

  lemma {:induction false} BeBound(bs: seq<byte>)
    ensures Be(bs) < Pow256(|bs|)
  {
    if bs != [] {
      BeBound(bs[..|bs| - 1]);
    }
  }

  lemma {:induction false} BeInverts(n: nat, w: nat)
    requires n < Pow256(w)
    ensures Be(BeBytes(n, w)) == n
  {
    if w > 0 {
      BeInverts(n / 256, w - 1);
      assert BeBytes(n, w)[..w - 1] == BeBytes(n / 256, w - 1);
    }
  }

  lemma {:induction false} BeBytesInverts(bs: seq<byte>)
    ensures BeBytes(Be(bs), |bs|) == bs
  {
    if bs != [] {
      var front, x := bs[..|bs| - 1], bs[|bs| - 1];
      BeBytesInverts(front);
      assert Be(bs) == Be(front) * 256 + x;
      hide Be;
      LowByte(Be(front), x);
      assert bs == front + [x];
    }
  }

  lemma LowByte(q: nat, x: byte)
    ensures (q * 256 + x) / 256 == q && (q * 256 + x) % 256 == x
  {
  }

  lemma {:induction false} BeHead(x: byte, rest: seq<byte>)
    ensures Be([x] + rest) == x * Pow256(|rest|) + Be(rest)
  {
    if rest == [] {
      assert [x] + rest == [x];
    } else {
      var front := rest[..|rest| - 1];
      BeHead(x, front);
      assert ([x] + rest)[..|rest|] == [x] + front;
      assert x * Pow256(|rest|) == x * Pow256(|front|) * 256;
    }
  }

  lemma BeSnoc(bs: seq<byte>, x: byte)
    ensures Be(bs + [x]) == Be(bs) * 256 + x
  {
    assert (bs + [x])[..|bs|] == bs;
  }

  lemma BeOne(x: byte)
    ensures Be([x]) == x
  {
    assert [x][..0] == [];
  }

  lemma Pow256Small()
    ensures Pow256(1) == 0x100 && Pow256(2) == 0x1_0000 && Pow256(3) == 0x100_0000
    ensures Pow256(4) == 0x1_0000_0000 && Pow256(7) == 0x100_0000_0000_0000
    ensures Pow256(8) == 0x1_0000_0000_0000_0000
  {
    assert Pow256(4) == 0x1_0000_0000;
    assert Pow256(8) == 0x1_0000_0000 * Pow256(4);
  }

  /** Padding a number on the left with zero bytes does not change its low bytes. */
  lemma {:induction false} BeBytesPadded(n: nat, w: nat, extra: nat)
    requires n < Pow256(w)
    ensures BeBytes(n, extra + w) == seq(extra, _ => 0) + BeBytes(n, w)
    decreases w
  {
    if w > 0 {
      BeBytesPadded(n / 256, w - 1, extra);
    } else {
      BeBytesZero(extra);
    }
  }

  lemma {:induction false} BeBytesZero(w: nat)
    ensures BeBytes(0, w) == seq(w, _ => 0)
  {
    if w > 0 {
      BeBytesZero(w - 1);
    }
  }
}
