/**
 * Exclusive or on unsigned words, as the packet-id keys and slot hashes use it.
 */
module Bits {

  /** Bitwise exclusive or. */
  function Xor(a: nat, b: nat): nat
    decreases a + b
  {
    if a == 0 then b
    else if b == 0 then a
    else 2 * Xor(a / 2, b / 2) + (if a % 2 == b % 2 then 0 else 1)
  }

  lemma Halves(x: nat, bit: nat)
    requires bit < 2
    ensures (2 * x + bit) % 2 == bit && (2 * x + bit) / 2 == x
  {
  }

  /** Bit by bit, whatever the operands. */
  lemma XorBits(a: nat, b: nat)
    ensures Xor(a, b) % 2 == (if a % 2 == b % 2 then 0 else 1)
    ensures Xor(a, b) / 2 == Xor(a / 2, b / 2)
  {
    if a == 0 {
      assert Xor(a, b) == b && Xor(0, b / 2) == b / 2;
    } else if b == 0 {
      assert Xor(a, b) == a && Xor(a / 2, 0) == a / 2;
    } else {
      var x, bit := Xor(a / 2, b / 2), if a % 2 == b % 2 then 0 else 1;
      assert Xor(a, b) == 2 * x + bit;
      Halves(x, bit);
    }
  }

  /** For one sender the key determines the packet id. */
  lemma {:induction false} XorInjective(p: nat, q: nat, src: nat)
    requires Xor(p, src) == Xor(q, src)
    ensures p == q
    decreases p + q + src
  {
    if p + q + src != 0 {
      XorBits(p, src);
      XorBits(q, src);
      XorInjective(p / 2, q / 2, src / 2);
    }
  }

  lemma {:induction false} XorAssociates(a: nat, b: nat, c: nat)
    ensures Xor(Xor(a, b), c) == Xor(a, Xor(b, c))
    decreases a + b + c
  {
    if a + b + c != 0 {
      XorBits(a, b);
      XorBits(b, c);
      XorBits(Xor(a, b), c);
      XorBits(a, Xor(b, c));
      XorAssociates(a / 2, b / 2, c / 2);
    }
  }

  lemma {:induction false} XorSelf(a: nat)
    ensures Xor(a, a) == 0
  {
    if a != 0 { XorSelf(a / 2); }
  }

  /** Applied twice, an operand undoes itself. */
  lemma XorBack(a: nat, b: nat)
    ensures Xor(Xor(a, b), b) == a
  {
    XorAssociates(a, b, b);
    XorSelf(b);
    assert Xor(a, 0) == a;
  }

  function Pow2(n: nat): (r: nat)
    ensures r > 0
  {
    if n == 0 then 1 else 2 * Pow2(n - 1)
  }

  /** Flipping one bit adds or takes away its value. */
  lemma {:induction false} XorFlips(a: nat, n: nat)
    ensures Xor(a, Pow2(n)) == a + Pow2(n) || Xor(a, Pow2(n)) == a - Pow2(n)
    decreases n
  {
    XorBits(a, Pow2(n));
    if n == 0 {
      assert Xor(a / 2, 0) == a / 2;
    } else {
      XorFlips(a / 2, n - 1);
    }
  }

  lemma Pow2Values()
    ensures Pow2(28) == 0x1000_0000 && Pow2(29) == 0x2000_0000
  {
    Pow2Plus8(0);
    Pow2Plus8(8);
    Pow2Plus8(16);
    Pow2Plus4(24);
  }

  lemma Pow2Plus4(n: nat)
    ensures Pow2(n + 4) == 16 * Pow2(n)
  {
    assert Pow2(n + 2) == 4 * Pow2(n);
  }

  lemma Pow2Plus8(n: nat)
    ensures Pow2(n + 8) == 256 * Pow2(n)
  {
    Pow2Plus4(n);
    Pow2Plus4(n + 4);
  }

  /** The low n bits. */
  function LowBits(x: nat, n: nat): nat {
    if n == 0 then 0 else x % 2 + 2 * LowBits(x / 2, n - 1)
  }

  /** A second operand whose low n bits are clear leaves the low n bits alone. */
  lemma {:induction false} XorKeepsLow(a: nat, b: nat, n: nat)
    requires LowBits(b, n) == 0
    ensures LowBits(Xor(a, b), n) == LowBits(a, n)
    decreases n
  {
    if n > 0 {
      XorBits(a, b);
      XorKeepsLow(a / 2, b / 2, n - 1);
    }
  }

  /** Operands that agree in their low n bits give results that do. */
  lemma {:induction false} XorLowBits(a: nat, b: nat, c: nat, n: nat)
    requires LowBits(b, n) == LowBits(c, n)
    ensures LowBits(Xor(a, b), n) == LowBits(Xor(a, c), n)
    decreases n
  {
    if n > 0 {
      XorBits(a, b);
      XorBits(a, c);
      XorLowBits(a / 2, b / 2, c / 2, n - 1);
    }
  }

  /** The low two to five bits are the remainder by 4, 8, 16 and 32. */
  lemma Low4(x: nat)
    ensures LowBits(x, 2) == x % 4
  {
    var y := x / 2;
    assert LowBits(x, 2) == x % 2 + 2 * LowBits(y, 1);
    assert LowBits(y, 1) == y % 2 + 2 * LowBits(y / 2, 0);
    hide LowBits;
    assert x == 4 * (y / 2) + (2 * (y % 2) + x % 2);
  }

  lemma Low8(x: nat)
    ensures LowBits(x, 3) == x % 8
  {
    var y := x / 2;
    Low4(y);
    assert LowBits(x, 3) == x % 2 + 2 * LowBits(y, 2);
    hide LowBits;
    assert x == 8 * (y / 4) + (2 * (y % 4) + x % 2);
  }

  lemma Low16(x: nat)
    ensures LowBits(x, 4) == x % 16
  {
    var y := x / 2;
    Low8(y);
    assert LowBits(x, 4) == x % 2 + 2 * LowBits(y, 3);
    hide LowBits;
    Joined(x, y / 8, y % 8);
  }

  lemma Low32(x: nat)
    ensures LowBits(x, 5) == x % 32
  {
    var y := x / 2;
    Low16(y);
    assert LowBits(x, 5) == x % 2 + 2 * LowBits(y, 4);
    hide LowBits;
    Joined32(x, y / 16, y % 16);
  }

  lemma Joined(x: nat, q: nat, r: nat)
    requires x / 2 == 8 * q + r && r < 8
    ensures x % 16 == 2 * r + x % 2
  {
    assert x == 16 * q + (2 * r + x % 2);
  }

  lemma Joined32(x: nat, q: nat, r: nat)
    requires x / 2 == 16 * q + r && r < 16
    ensures x % 32 == 2 * r + x % 2
  {
    assert x == 32 * q + (2 * r + x % 2);
  }
}
