/** `archive_padlen` (src/cpio/src/lib.rs): how many zeros bring an offset to an
    alignment. It masks bits, so it is exact for powers of two only; for any
    multiple of four it is still exact modulo four. */
module Padding {

  /** Bitwise `&` of two unsigned integers. */
  function And(x: nat, y: nat): nat
    decreases x
  {
    if x == 0 then 0 else 2 * And(x / 2, y / 2) + (if x % 2 == 1 && y % 2 == 1 then 1 else 0)
  }

  /** The mask never exceeds `alignment - 1`, so the subtraction cannot underflow. */
  function PadLen(off: nat, alignment: nat): (r: nat)
    requires alignment > 0
    ensures r < alignment
  {
    AndAtMost(off, alignment - 1);
    (alignment - And(off, alignment - 1)) % alignment
  }

  function Pow2(k: nat): (r: nat)
    ensures r >= 1
  {
    if k == 0 then 1 else 2 * Pow2(k - 1)
  }

  lemma {:induction false} AndAtMost(x: nat, y: nat)
    ensures And(x, y) <= y
    decreases x
  {
    if x != 0 { AndAtMost(x / 2, y / 2); }
  }

  /** Masking with all ones is the remainder. */
  lemma {:induction false} AndOnes(x: nat, k: nat)
    ensures And(x, Pow2(k) - 1) == x % Pow2(k)
    decreases k
  {
    if k == 0 {
      AndZero(x);
    } else if x != 0 {
      var m := Pow2(k - 1);
      calc {
        And(x, 2 * m - 1);
        { AndHalf(x, m); }
        2 * And(x / 2, m - 1) + x % 2;
        { AndOnes(x / 2, k - 1); }
        2 * ((x / 2) % m) + x % 2;
        { HalfMod(x, m); }
        x % (2 * m);
      }
    }
  }

  lemma {:induction false} AndHalf(x: nat, m: nat)
    requires x > 0 && m > 0
    ensures And(x, 2 * m - 1) == 2 * And(x / 2, m - 1) + x % 2
  {
    assert (2 * m - 1) / 2 == m - 1;
  }

  lemma {:induction false} AndZero(x: nat)
    ensures And(x, 0) == 0
    decreases x
  {
    if x != 0 { AndZero(x / 2); }
  }

  lemma {:induction false} HalfMod(x: nat, m: nat)
    requires m > 0
    ensures x % (2 * m) == 2 * ((x / 2) % m) + x % 2
  {
    var q, r := (x / 2) / m, (x / 2) % m;
    assert x / 2 == m * q + r;
    assert x == 2 * (m * q + r) + x % 2;
    assert 2 * (m * q + r) == (2 * m) * q + 2 * r;
    ModUnique(x, 2 * m, q, 2 * r + x % 2);
  }

  lemma {:induction false} ModUnique(x: int, m: int, q: int, r: int)
    requires m > 0 && 0 <= r < m && x == m * q + r
    ensures x % m == r
  {
    var q1, r1 := x / m, x % m;
    assert x == m * q1 + r1;
    assert m * (q - q1) == r1 - r;
    SmallMultiple(m, q - q1);
  }

  lemma SmallMultiple(m: int, d: int)
    requires m > 0 && -m < m * d < m
    ensures d == 0
  {
  }

  lemma {:induction false} AndOdd(x: nat, y: nat)
    requires y % 2 == 1
    ensures And(x, y) == 2 * And(x / 2, y / 2) + x % 2
  {
  }

  lemma TwoBits(a: nat, c: nat, x: nat)
    requires a == 2 * (2 * c + x / 2 % 2) + x % 2
    ensures a % 4 == x % 4
  {
    var half, low := x / 2, 2 * (x / 2 % 2) + x % 2;
    assert half == 2 * (half / 2) + half % 2;
    ModUnique(x, 4, half / 2, low);
    ModUnique(a, 4, c, low);
  }

  /** Masking with `...11` keeps the last two bits. */
  lemma {:induction false} AndLowBits(x: nat, y: nat)
    requires y % 4 == 3
    ensures And(x, y) % 4 == x % 4
  {
    hide And;
    var a, b := And(x, y), And(x / 2, y / 2);
    var c := And(x / 2 / 2, y / 2 / 2);
    assert a == 2 * b + x % 2 by { AndOdd(x, y); }
    assert b == 2 * c + x / 2 % 2 by { AndOdd(x / 2, y / 2); }
    TwoBits(a, c, x);
  }

  /** The final remainder only turns a whole alignment into nothing. */
  lemma {:induction false} PadCases(off: nat, alignment: nat)
    requires alignment > 0
    ensures var m := And(off, alignment - 1);
            m < alignment && PadLen(off, alignment) == if m == 0 then 0 else alignment - m
  {
    AndAtMost(off, alignment - 1);
    var m := And(off, alignment - 1);
    if m == 0 { ModUnique(alignment, alignment, 1, 0); } else { ModUnique(alignment - m, alignment, 0, alignment - m); }
  }

  lemma {:induction false} NextMultiple(off: nat, a: nat)
    requires a > 0
    ensures (off + if off % a == 0 then 0 else a - off % a) % a == 0
  {
    var q, r := off / a, off % a;
    assert off == a * q + r;
    if r != 0 {
      assert off + (a - r) == a * (q + 1);
      ModUnique(off + (a - r), a, q + 1, 0);
    }
  }

  /** Power-of-two alignment is met exactly. */
  lemma {:induction false} PadToPow2(off: nat, k: nat)
    ensures (off + PadLen(off, Pow2(k))) % Pow2(k) == 0
  {
    AndOnes(off, k);
    PadCases(off, Pow2(k));
    NextMultiple(off, Pow2(k));
  }

  lemma {:induction false} AndAll(y: nat, k: nat)
    requires y < Pow2(k)
    ensures And(Pow2(k) - 1, y) == y
    decreases k
  {
    if k > 0 {
      var m := Pow2(k - 1);
      assert (2 * m - 1) / 2 == m - 1;
      AndAll(y / 2, k - 1);
    }
  }

  /** A mask below a power of two only sees the remainder. */
  lemma {:induction false} AndLow(x: nat, y: nat, k: nat)
    requires y < Pow2(k)
    ensures And(x, y) == And(x % Pow2(k), y)
    decreases k
  {
    hide And;
    if k == 0 {
      AndZero(x);
      AndZero(x % Pow2(k));
    } else {
      var m := Pow2(k - 1);
      var r := x % (2 * m);
      HalfMod(x, m);
      assert r / 2 == (x / 2) % m && r % 2 == x % 2;
      AndStep(x, y);
      AndStep(r, y);
      AndLow(x / 2, y / 2, k - 1);
    }
  }

  lemma AndStep(x: nat, y: nat)
    ensures And(x, y) == 2 * And(x / 2, y / 2) + (if x % 2 == 1 && y % 2 == 1 then 1 else 0)
  {
  }

  /** One byte before a multiple of a power of two, every alignment up to that power
      takes one zero. */
  lemma {:induction false} PadOneShort(x: nat, k: nat, alignment: nat)
    requires 1 < alignment <= Pow2(k) && x % Pow2(k) == Pow2(k) - 1
    ensures PadLen(x, alignment) == 1
  {
    hide And;
    AndLow(x, alignment - 1, k);
    AndAll(alignment - 1, k);
    PadCases(x, alignment);
  }

  /** The next power of two that is a multiple of four. */
  lemma {:induction false} PowerAbove(d: nat) returns (k: nat)
    requires d > 1
    ensures k >= 2 && d <= Pow2(k) < 4 * d
  {
    k := 2;
    assert Pow2(1) == 2;
    while Pow2(k) < d
      invariant k >= 2 && Pow2(k) < 4 * d
      decreases 2 * d - Pow2(k)
    {
      k := k + 1;
    }
  }

  /** Any multiple of four still aligns to four. */
  lemma {:induction false} PadToFour(off: nat, alignment: nat)
    requires alignment > 0 && alignment % 4 == 0
    ensures (off + PadLen(off, alignment)) % 4 == 0
  {
    hide And;
    AndLowBits(off, alignment - 1);
    PadCases(off, alignment);
    FourStep(off, And(off, alignment - 1), alignment);
  }

  lemma FourStep(off: nat, m: nat, alignment: nat)
    requires alignment % 4 == 0 && m < alignment && m % 4 == off % 4
    ensures (off + if m == 0 then 0 else alignment - m) % 4 == 0
  {
  }

  /** The alignment of the format itself, without bit masks. */
  function Pad4(off: nat): (r: nat)
    ensures r < 4 && (off + r) % 4 == 0
  {
    (4 - off % 4) % 4
  }

  lemma {:induction false} PadFour(off: nat)
    ensures PadLen(off, 4) == Pad4(off)
  {
    assert Pow2(2) == 4;
    AndOnes(off, 2);
  }

  // ---- permission bits ----------------------------------------------------

  /** Bitwise `|` of two unsigned integers. */
  function Or(x: nat, y: nat): nat
    decreases x
  {
    if x == 0 then y
    else 2 * Or(x / 2, y / 2) + (if x % 2 == 1 || y % 2 == 1 then 1 else 0)
  }

  /** Bits `b` besides `a` make a difference exactly unless they are all there. */
  lemma {:induction false} OrBesides(x: nat, a: nat, b: nat)
    requires And(a, b) == 0
    ensures Or(x, a + b) == Or(x, a) <==> And(b, x) == b
    decreases x
  {
    if x == 0 {
      AndZero(b);
    } else {
      AndStep(a, b);
      AndStep(b, x);
      NoCarry(a, b);
      OrBesides(x / 2, a / 2, b / 2);
    }
  }

  lemma OrStep(x: nat, y: nat)
    requires x > 0
    ensures Or(x, y) == 2 * Or(x / 2, y / 2) + (if x % 2 == 1 || y % 2 == 1 then 1 else 0)
  {
  }

  lemma OrZero(y: nat)
    ensures Or(0, y) == y
  {
  }

  lemma AndNone(y: nat)
    ensures And(0, y) == 0
  {
  }

  lemma NoCarry(a: nat, b: nat)
    requires And(a, b) == 0
    ensures !(a % 2 == 1 && b % 2 == 1) && And(a / 2, b / 2) == 0
    ensures (a + b) / 2 == a / 2 + b / 2 && (a + b) % 2 == a % 2 + b % 2
  {
    AndStep(a, b);
  }

  /** Both operands are contained in the result. */
  lemma {:induction false} OrKeeps(x: nat, y: nat)
    ensures And(x, Or(x, y)) == x && And(y, Or(x, y)) == y
    decreases x
  {
    if x == 0 { AndSelf(y); } else { OrKeeps(x / 2, y / 2); OrHalf(x, y); }
  }

  lemma OrHalf(x: nat, y: nat)
    requires x > 0
    ensures Or(x, y) / 2 == Or(x / 2, y / 2)
    ensures Or(x, y) % 2 == 1 <==> x % 2 == 1 || y % 2 == 1
  {
  }

  lemma {:induction false} AndSelf(y: nat)
    ensures And(y, y) == y
    decreases y
  {
    if y != 0 { AndSelf(y / 2); }
  }

  lemma {:induction false} OrBelow(x: nat, y: nat)
    requires x < 4096 && y < 4096
    ensures Or(x, y) < 4096
  {
    assert Pow2(12) == 4096 by {
      assert Pow2(4) == 16;
      assert Pow2(8) == 256;
    }
    Pow2Below(x, y, 12);
  }

  lemma {:induction false} Pow2Below(x: nat, y: nat, k: nat)
    requires x < Pow2(k) && y < Pow2(k)
    ensures Or(x, y) < Pow2(k)
    decreases k
  {
    if k > 0 && x > 0 { Pow2Below(x / 2, y / 2, k - 1); }
  }

  lemma {:induction false} AndTrans(a: nat, b: nat, c: nat)
    requires And(a, b) == a && And(b, c) == b
    ensures And(a, c) == a
    decreases a
  {
    if a != 0 {
      if b == 0 { AndZero(a); }
      AndTrans(a / 2, b / 2, c / 2);
    }
  }
}
