/** 32-bit words, their bit operations, and JavaScript's number operators on integers. */
module Words {


  type word = x: int | 0 <= x < 0x1_0000_0000
  type byte = x: int | 0 <= x < 256

  function Pow2(n: nat): (r: nat)
    ensures r > 0
  {
    if n == 0 then 1 else 2 * Pow2(n - 1)
  }

  lemma {:induction false} Pow2Add(a: nat, b: nat)
    ensures Pow2(a + b) == Pow2(a) * Pow2(b)
  {
    if a > 0 {
      Pow2Add(a - 1, b);
      assert Pow2(a) * Pow2(b) == 2 * (Pow2(a - 1) * Pow2(b));
    }
  }

  lemma Pow2Is32()
    ensures Pow2(32) == 0x1_0000_0000
  {
    Pow2Add(16, 16);
    Pow2Add(8, 8);
    assert Pow2(8) == 256;
  }

  // Bit by bit, least significant first.

  function And(x: nat, y: nat): nat {
    if x == 0 || y == 0 then 0 else 2 * And(x / 2, y / 2) + (if x % 2 == 1 && y % 2 == 1 then 1 else 0)
  }

  function Or(x: nat, y: nat): nat
    decreases x + y
  {
    if x == 0 && y == 0 then 0 else 2 * Or(x / 2, y / 2) + (if x % 2 == 1 || y % 2 == 1 then 1 else 0)
  }

  function Xor(x: nat, y: nat): nat
    decreases x + y
  {
    if x == 0 && y == 0 then 0 else 2 * Xor(x / 2, y / 2) + (x + y) % 2
  }

  lemma {:induction false} BitsBounded(x: nat, y: nat, n: nat)
    requires x < Pow2(n) && y < Pow2(n)
    ensures And(x, y) < Pow2(n) && Or(x, y) < Pow2(n) && Xor(x, y) < Pow2(n)
  {
    if n > 0 {
      BitsBounded(x / 2, y / 2, n - 1);
    }
  }

  /** Bits that do not overlap are put together by addition. */
  lemma {:induction false} OrIsSum(low: nat, high: nat, n: nat)
    requires low < Pow2(n)
    ensures Or(low, high * Pow2(n)) == low + high * Pow2(n)
    decreases n
  {
    if n == 0 {
      OrZero(high);
    } else if low != 0 || high != 0 {
      var x := high * Pow2(n);
      assert x == 2 * (high * Pow2(n - 1));
      OrIsSum(low / 2, high, n - 1);
      assert x != 0 || low != 0;
    }
  }

  lemma {:induction false} OrZero(x: nat)
    ensures Or(0, x) == x
  {
    if x > 0 {
      OrZero(x / 2);
    }
  }

  function AndW(x: word, y: word): word { Pow2Is32(); BitsBounded(x, y, 32); And(x, y) }
  function OrW(x: word, y: word): word { Pow2Is32(); BitsBounded(x, y, 32); Or(x, y) }
  function XorW(x: word, y: word): word { Pow2Is32(); BitsBounded(x, y, 32); Xor(x, y) }
  function NotW(x: word): word { 0x1_0000_0000 - 1 - x }

  function AddW(x: int, y: int): word { (x + y) % 0x1_0000_0000 }

  // ---------------------------------------------------------------- JavaScript

  /** A number whose arithmetic is exact. */
  type number = x: int | -0x20_0000_0000_0000 <= x <= 0x20_0000_0000_0000

  /** What a bit operator returns. */
  type int32 = x: int | -0x8000_0000 <= x < 0x8000_0000

  function ToUint32(x: int): word { x % 0x1_0000_0000 }

  function ToInt32(x: int): int32 {
    if ToUint32(x) < 0x8000_0000 then ToUint32(x) else ToUint32(x) - 0x1_0000_0000
  }

  function JsAnd(x: number, y: number): int32 { ToInt32(AndW(ToUint32(x), ToUint32(y))) }
  function JsOr(x: number, y: number): int32 { ToInt32(OrW(ToUint32(x), ToUint32(y))) }
  function JsXor(x: number, y: number): int32 { ToInt32(XorW(ToUint32(x), ToUint32(y))) }
  function JsNot(x: number): int32 { ToInt32(NotW(ToUint32(x))) }

  function ShiftRight(x: number, n: nat): word {
    QuotientSmaller(ToUint32(x), Pow2(n));
    ToUint32(x) / Pow2(n)
  }

  function ShiftLeft(x: number, n: nat): int32 { ToInt32(ToUint32(x) * Pow2(n)) }

  lemma WordIsItself(x: word)
    ensures ToUint32(x) == x
  {
  }

  lemma SignedIsSame(x: int)
    ensures ToUint32(ToInt32(x)) == ToUint32(x)
  {
  }

  /** The signed results of the bit operators have the bits of the unsigned ones. */
  lemma BitOperators(x: number, y: number)
    ensures ToUint32(JsAnd(x, y)) == AndW(ToUint32(x), ToUint32(y))
    ensures ToUint32(JsOr(x, y)) == OrW(ToUint32(x), ToUint32(y))
    ensures ToUint32(JsXor(x, y)) == XorW(ToUint32(x), ToUint32(y))
    ensures ToUint32(JsNot(x)) == NotW(ToUint32(x))
  {
    hide And, Or, Xor, ToUint32, ToInt32;
    var a, b := ToUint32(x), ToUint32(y);
    SignedIsSame(AndW(a, b));
    SignedIsSame(OrW(a, b));
    SignedIsSame(XorW(a, b));
    SignedIsSame(NotW(a));
    WordIsItself(AndW(a, b));
    WordIsItself(OrW(a, b));
    WordIsItself(XorW(a, b));
    WordIsItself(NotW(a));
  }

  lemma QuotientSmaller(x: nat, d: nat)
    requires d > 0
    ensures 0 <= x / d <= x
  {
    DivMod(x, d);
    MulGrows(x / d, d);
  }

  lemma DivMod(x: nat, d: nat)
    requires d > 0
    ensures x == x / d * d + x % d
  {
  }

  lemma MulGrows(q: nat, d: nat)
    requires d > 0
    ensures q * d >= q
  {
  }

  /** Truncating late is truncating at every step. */
  lemma TruncateLate(x: int, y: int)
    ensures ToUint32(x + y) == AddW(ToUint32(x), ToUint32(y)) == AddW(ToUint32(x), y)
  {
    var q, r := x / 0x1_0000_0000 + y / 0x1_0000_0000, x % 0x1_0000_0000 + y % 0x1_0000_0000;
    assert x + y == q * 0x1_0000_0000 + r;
    var q', r' := x / 0x1_0000_0000, x % 0x1_0000_0000 + y;
    assert x + y == q' * 0x1_0000_0000 + r';
    ModShift(r, q);
    ModShift(r', q');
  }

  lemma ModShift(x: int, q: int)
    ensures (q * 0x1_0000_0000 + x) % 0x1_0000_0000 == x % 0x1_0000_0000
  {
  }
}
