/** The fallback SHA-256 of the browser (ui/src/sha256.ts), in JavaScript's arithmetic on doubles and
    typed arrays, refining FIPS 180-4. */
module Sha256Js {
  import opened Words
  import opened Fips180

  /** Addition of doubles, exact while the sum is an integer of at most 53 bits. */
  function Plus(x: number, y: number): number
    requires -0x20_0000_0000_0000 <= x + y <= 0x20_0000_0000_0000
  {
    x + y
  }

  function RotrJs(x: word, n: nat): int32
    requires 0 < n < 32
  {
    JsOr(ShiftRight(x, n), ShiftLeft(x, 32 - n))
  }

  /** The low bits shifted up are the remainder; they do not overlap the high bits shifted down. */
  lemma RotrIsRotation(x: word, n: nat)
    requires 0 < n < 32
    ensures ToUint32(RotrJs(x, n)) == Rotr(n, x)
  {
    hide And, Or, Xor, ToUint32, ToInt32, Pow2;
    var d, m := Pow2(n), Pow2(32 - n);
    WordIsItself(x);
    RotrIsWord(n, x);
    ShiftedParts(x, n);
    BitOperators(ShiftRight(x, n), ShiftLeft(x, 32 - n));
    WordIsItself(x / d);
    OrIsSum(x / d, x % d, 32 - n);
  }

  lemma ShiftedParts(x: word, n: nat)
    requires 0 < n < 32
    ensures ShiftRight(x, n) == x / Pow2(n) && ToUint32(ShiftLeft(x, 32 - n)) == x % Pow2(n) * Pow2(32 - n)
  {
    hide And, Or, Xor, ToUint32, ToInt32, Pow2;
    var d, m := Pow2(n), Pow2(32 - n);
    WordIsItself(x);
    Pow2Is32();
    Pow2Add(n, 32 - n);
    SplitBound(x, d, m);
    ShiftedUp(x, d, m);
    SignedIsSame(x * m);
  }

  lemma ShiftedUp(x: nat, d: nat, m: nat)
    requires d > 0 && m > 0 && d * m == 0x1_0000_0000 && x % d * m < 0x1_0000_0000 && x % d * m >= 0
    ensures ToUint32(x * m) == x % d * m
  {
    DivMod(x, d);
    Distribute(x / d, d, x % d, m);
    assert x * m == x / d * 0x1_0000_0000 + x % d * m;
    ModShift(x % d * m, x / d);
  }

  lemma Distribute(q: nat, d: nat, r: nat, m: nat)
    ensures (q * d + r) * m == q * (d * m) + r * m
  {
  }

  function Xor3(x: number, y: number, z: number): int32 { JsXor(JsXor(x, y), z) }

  lemma Xor3Ok(x: number, y: number, z: number)
    ensures ToUint32(Xor3(x, y, z)) == XorW(XorW(ToUint32(x), ToUint32(y)), ToUint32(z))
  {
    hide And, Or, Xor, ToUint32, ToInt32, JsXor, XorW;
    BitOperators(x, y);
    BitOperators(JsXor(x, y), z);
  }

  function Sigma0Js(x: word): int32 { Xor3(RotrJs(x, 7), RotrJs(x, 18), ShiftRight(x, 3)) }
  function Sigma1Js(x: word): int32 { Xor3(RotrJs(x, 17), RotrJs(x, 19), ShiftRight(x, 10)) }

  lemma SmallSigmas(x: word)
    ensures ToUint32(Sigma0Js(x)) == SmallSigma0(x) && ToUint32(Sigma1Js(x)) == SmallSigma1(x)
  {
    hide And, Or, Xor, ToUint32, ToInt32, JsXor, XorW, RotrJs, Rotr, Xor3;
    RotrIsRotation(x, 7);
    RotrIsRotation(x, 18);
    RotrIsRotation(x, 17);
    RotrIsRotation(x, 19);
    WordIsItself(x);
    WordIsItself(ShiftRight(x, 3));
    WordIsItself(ShiftRight(x, 10));
    Xor3Ok(RotrJs(x, 7), RotrJs(x, 18), ShiftRight(x, 3));
    Xor3Ok(RotrJs(x, 17), RotrJs(x, 19), ShiftRight(x, 10));
  }

  function BigSigmaJs(x: word, i: nat, j: nat, k: nat): int32
    requires 0 < i < 32 && 0 < j < 32 && 0 < k < 32
  {
    Xor3(RotrJs(x, i), RotrJs(x, j), RotrJs(x, k))
  }

  lemma BigSigmas(x: word, i: nat, j: nat, k: nat)
    requires 0 < i < 32 && 0 < j < 32 && 0 < k < 32
    ensures ToUint32(BigSigmaJs(x, i, j, k)) == XorW(XorW(Rotr(i, x), Rotr(j, x)), Rotr(k, x))
  {
    hide And, Or, Xor, ToUint32, ToInt32, JsXor, XorW, RotrJs, Rotr, Xor3;
    RotrIsRotation(x, i);
    RotrIsRotation(x, j);
    RotrIsRotation(x, k);
    Xor3Ok(RotrJs(x, i), RotrJs(x, j), RotrJs(x, k));
  }

  function ChJs(e: word, f: word, g: word): int32 { JsXor(JsAnd(e, f), JsAnd(JsNot(e), g)) }
  function MajJs(a: word, b: word, c: word): int32 { Xor3(JsAnd(a, b), JsAnd(a, c), JsAnd(b, c)) }

  lemma ChAndMaj(x: word, y: word, z: word)
    ensures ToUint32(ChJs(x, y, z)) == Ch(x, y, z) && ToUint32(MajJs(x, y, z)) == Maj(x, y, z)
  {
    hide And, Or, Xor, ToUint32, ToInt32, JsXor, XorW, JsAnd, AndW, JsNot, NotW, Xor3;
    WordIsItself(x);
    WordIsItself(y);
    WordIsItself(z);
    BitOperators(x, y);
    BitOperators(JsNot(x), z);
    BitOperators(JsAnd(x, y), JsAnd(JsNot(x), z));
    BitOperators(x, z);
    BitOperators(y, z);
    Xor3Ok(JsAnd(x, y), JsAnd(x, z), JsAnd(y, z));
  }

  /** A message schedule word: one late truncation, when the sum is stored in a Uint32Array. */
  function ScheduleJs(w16: word, w15: word, w7: word, w2: word): word {
    ToUint32(Plus(Plus(Plus(w16, Sigma0Js(w15)), w7), Sigma1Js(w2)))
  }

  lemma ScheduleTruncates(w16: word, w15: word, w7: word, w2: word)
    ensures ScheduleJs(w16, w15, w7, w2) == AddW(AddW(AddW(SmallSigma1(w2), w7), SmallSigma0(w15)), w16)
  {
    hide And, Or, Xor, ToUint32, AddW, Sigma0Js, Sigma1Js, SmallSigma0, SmallSigma1;
    SmallSigmas(w15);
    SmallSigmas(w2);
    var s0, s1 := Sigma0Js(w15), Sigma1Js(w2);
    assert w16 + s0 + w7 + s1 == s1 + w7 + s0 + w16;
    TruncateLate(s1 + w7 + s0, w16);
    TruncateLate(s1 + w7, s0);
    TruncateLate(s1, w7);
  }

  function T1Js(v: Vars, k: word, w: word): word {
    ToUint32(Plus(Plus(Plus(Plus(v.h, BigSigmaJs(v.e, 6, 11, 25)), ChJs(v.e, v.f, v.g)), k), w))
  }

  function T2Js(v: Vars): word {
    ToUint32(Plus(BigSigmaJs(v.a, 2, 13, 22), MajJs(v.a, v.b, v.c)))
  }

  lemma RoundTruncates(v: Vars, k: word, w: word)
    ensures T1Js(v, k, w) == AddW(AddW(AddW(AddW(v.h, BigSigma1(v.e)), Ch(v.e, v.f, v.g)), k), w)
    ensures T2Js(v) == AddW(BigSigma0(v.a), Maj(v.a, v.b, v.c))
  {
    hide And, Or, Xor, ToUint32, AddW, BigSigmaJs, Ch, Maj, ChJs, MajJs, XorW, Rotr;
    var s, c := BigSigmaJs(v.e, 6, 11, 25), ChJs(v.e, v.f, v.g);
    BigSigmas(v.e, 6, 11, 25);
    BigSigmas(v.a, 2, 13, 22);
    ChAndMaj(v.e, v.f, v.g);
    ChAndMaj(v.a, v.b, v.c);
    WordIsItself(v.h);
    TruncateLate(v.h + s + c + k, w);
    TruncateLate(v.h + s + c, k);
    TruncateLate(v.h + s, c);
    TruncateLate(v.h, s);
    TruncateLate(BigSigmaJs(v.a, 2, 13, 22), MajJs(v.a, v.b, v.c));
  }

  lemma LateSum(x: word, y: word)
    ensures ToUint32(x + y) == AddW(x, y)
  {
  }

  method FillSchedule(bytes: seq<byte>, off: nat, w: array<word>)
    requires off + 64 <= |bytes| && w.Length == 64
    modifies w
    ensures forall t | 0 <= t < 64 :: w[t] == Schedule(bytes, off, t)
  {
    hide And, Or, Xor, SmallSigma0, SmallSigma1, AddW, ScheduleJs, Word;
    for i := 0 to 16
      invariant forall t | 0 <= t < i :: w[t] == Schedule(bytes, off, t)
    {
      w[i] := Word(bytes, off + i * 4);
    }
    for i := 16 to 64
      invariant forall t | 0 <= t < i :: w[t] == Schedule(bytes, off, t)
    {
      ScheduleTruncates(w[i - 16], w[i - 15], w[i - 7], w[i - 2]);
      w[i] := ScheduleJs(w[i - 16], w[i - 15], w[i - 7], w[i - 2]);
    }
  }

  method RunRounds(h: Vars, bytes: seq<byte>, off: nat, w: array<word>) returns (r: Vars)
    requires off + 64 <= |bytes| && w.Length == 64 && forall t | 0 <= t < 64 :: w[t] == Schedule(bytes, off, t)
    ensures r == Rounds(h, bytes, off, 64)
  {
    hide And, Or, Xor, T1Js, T2Js, BigSigma0, BigSigma1, Ch, Maj, Schedule, ToUint32, AddW;
    var a, b, c, d, e, f, g, hh := h.a, h.b, h.c, h.d, h.e, h.f, h.g, h.h;
    for i := 0 to 64
      invariant Vars(a, b, c, d, e, f, g, hh) == Rounds(h, bytes, off, i)
    {
      ghost var v := Vars(a, b, c, d, e, f, g, hh);
      RoundTruncates(v, K(i), w[i]);
      var t1 := T1Js(Vars(a, b, c, d, e, f, g, hh), K(i), w[i]);
      var t2 := T2Js(Vars(a, b, c, d, e, f, g, hh));
      LateSum(d, t1);
      LateSum(t1, t2);
      hh := g;
      g := f;
      f := e;
      e := ToUint32(Plus(d, t1));
      d := c;
      c := b;
      b := a;
      a := ToUint32(Plus(t1, t2));
    }
    r := Vars(a, b, c, d, e, f, g, hh);
  }

  function State(h: seq<word>): Vars
    requires |h| == 8
  {
    Vars(h[0], h[1], h[2], h[3], h[4], h[5], h[6], h[7])
  }

  method AddState(h: array<word>, r: Vars)
    requires h.Length == 8
    modifies h
    ensures State(h[..]) == AddVars(old(State(h[..])), r)
  {
    hide AddW, ToUint32;
    forall x: word, y: word ensures ToUint32(x + y) == AddW(x, y) {
      LateSum(x, y);
    }
    h[0] := ToUint32(Plus(h[0], r.a));
    h[1] := ToUint32(Plus(h[1], r.b));
    h[2] := ToUint32(Plus(h[2], r.c));
    h[3] := ToUint32(Plus(h[3], r.d));
    h[4] := ToUint32(Plus(h[4], r.e));
    h[5] := ToUint32(Plus(h[5], r.f));
    h[6] := ToUint32(Plus(h[6], r.g));
    h[7] := ToUint32(Plus(h[7], r.h));
  }

  /** `DataView.setUint32`: four bytes, most significant first. */
  method SetUint32(a: array<byte>, at: nat, value: number)
    requires at + 4 <= a.Length && value >= 0
    modifies a
    ensures a[..] == old(a[..at]) + BigEndian(ToUint32(value), 4) + old(a[at + 4..])
  {
    var x := ToUint32(value);
    a[at], a[at + 1], a[at + 2], a[at + 3] := x / 0x100_0000, x / 0x1_0000 % 256, x / 0x100 % 256, x % 256;
    WordBytes(x);
  }

  /** A 64-bit length written as two 32-bit halves. */
  lemma BigEndianHalves(x: nat)
    ensures BigEndian(x, 8) == BigEndian(x / 0x1_0000_0000, 4) + BigEndian(x % 0x1_0000_0000, 4)
  {
    hide BigEndian;
    BigEndianSteps(x, 4);
    WordBytes(x % 0x1_0000_0000);
    LowBytes(x / 0x1_0000_0000, x % 0x1_0000_0000);
  }

  lemma LowBytes(q: nat, r: word)
    ensures (q * 0x1_0000_0000 + r) / 0x100_0000 % 256 == r / 0x100_0000
    ensures (q * 0x1_0000_0000 + r) / 0x1_0000 % 256 == r / 0x1_0000 % 256
    ensures (q * 0x1_0000_0000 + r) / 0x100 % 256 == r / 0x100 % 256
    ensures (q * 0x1_0000_0000 + r) % 256 == r % 256
  {
    LowByte(q, r / 0x100_0000);
    LowByte(q * 0x100, r / 0x1_0000);
    LowByte(q * 0x1_0000, r / 0x100);
    LowByte(q * 0x100_0000, r);
    assert (q * 0x1_0000_0000 + r) / 0x100_0000 == q * 0x100 + r / 0x100_0000;
    assert (q * 0x1_0000_0000 + r) / 0x1_0000 == q * 0x1_0000 + r / 0x1_0000;
    assert (q * 0x1_0000_0000 + r) / 0x100 == q * 0x100_0000 + r / 0x100;
  }

  lemma LowByte(q: nat, r: nat)
    ensures (q * 0x100 + r) % 256 == r % 256
  {
  }

  lemma BigEndianSteps(x: nat, n: nat)
    ensures BigEndian(x, n + 4)
         == BigEndian(x / 0x1_0000_0000, n) + [x / 0x100_0000 % 256, x / 0x1_0000 % 256, x / 0x100 % 256, x % 256]
  {
    hide BigEndian;
    var a := x / 256;
    var b := a / 256;
    var d := b / 256;
    BigEndianStep(x, n + 3);
    BigEndianStep(a, n + 2);
    BigEndianStep(b, n + 1);
    BigEndianStep(d, n);
    assert x / 0x1_0000 == b && x / 0x100_0000 == d && x / 0x1_0000_0000 == d / 256;
  }

  lemma BigEndianStep(x: nat, n: nat)
    ensures BigEndian(x, n + 1) == BigEndian(x / 256, n) + [x % 256]
  {
  }

  /** The last eight bytes become the length in bits, in two halves. */
  method WriteLength(a: array<byte>, bitLength: number)
    requires a.Length >= 8 && bitLength >= 0
    modifies a
    ensures a[..] == old(a[..a.Length - 8]) + BigEndian(bitLength, 8)
  {
    hide BigEndian;
    SetUint32(a, a.Length - 8, bitLength / 0x1_0000_0000);
    assert ToUint32(bitLength / 0x1_0000_0000) == bitLength / 0x1_0000_0000;
    assert a[..a.Length - 4] == old(a[..a.Length - 8]) + BigEndian(bitLength / 0x1_0000_0000, 4);
    SetUint32(a, a.Length - 4, ToUint32(bitLength));
    BigEndianHalves(bitLength);
  }

  /** The padded message: room for the data, the byte 0x80 and the length. */
  method Padded(data: seq<byte>) returns (padded: seq<byte>)
    requires |data| < Pow2(50)
    ensures padded == Pad(data)
  {
    hide And, Or, Xor, Pow2, BigEndian, Zeros;
    Pow2At50();
    var bitLength: number := |data| * 8;
    PadLength(data);
    var a := new byte[(|data| + 9 + 63) / 64 * 64](_ => 0);
    assert a.Length == |data| + 9 + ZeroBytes(|data|);
    forall i | 0 <= i < |data| {
      a[i] := data[i];
    }
    a[|data|] := 0x80;
    assert a[..a.Length - 8] == data + [0x80] + Zeros(ZeroBytes(|data|));
    WriteLength(a, bitLength);
    padded := a[..];
  }

  lemma Pow2At50()
    ensures Pow2(50) == 0x4_0000_0000_0000
  {
    Pow2Is32();
    Pow2Add(32, 18);
    Pow2Add(16, 2);
    Pow2Add(8, 8);
    assert Pow2(8) == 256;
  }

  method Sha256Sync(data: seq<byte>) returns (digest: seq<byte>)
    requires |data| < Pow2(50)
    ensures digest == Sha256(data)
  {
    hide And, Or, Xor, Pow2, BigEndian, Rounds, Schedule, Pad, Digest, AddVars, AddW;
    var padded := Padded(data);
    PadLength(data);
    var h := new word[8](i requires 0 <= i < 8 => H0[i]);
    var w := new word[64](_ => 0);
    var off := 0;
    ghost var n := 0;
    while off < |padded|
      invariant off == 64 * n <= |padded|
      invariant State(h[..]) == Hash(padded, n)
    {
      FillSchedule(padded, off, w);
      var r := RunRounds(State(h[..]), padded, off, w);
      AddState(h, r);
      off := off + 64;
      n := n + 1;
    }
    digest := Output(h);
  }

  method Output(h: array<word>) returns (digest: seq<byte>)
    requires h.Length == 8
    ensures digest == Digest(State(h[..]))
  {
    digest := [];
    var i := 0;
    while i < 8
      invariant 0 <= i <= 8
      invariant digest == FirstWords(h[..], i)
    {
      digest := digest + BigEndian(h[i], 4);
      i := i + 1;
    }
    DigestIsFirstWords(h[..]);
  }

  function FirstWords(h: seq<word>, n: nat): seq<byte>
    requires n <= |h|
  {
    if n == 0 then [] else FirstWords(h, n - 1) + BigEndian(h[n - 1], 4)
  }

  lemma DigestIsFirstWords(h: seq<word>)
    requires |h| == 8
    ensures FirstWords(h, 8) == Digest(State(h))
  {
    hide BigEndian;
    assert FirstWords(h, 1) == BigEndian(h[0], 4);
    assert FirstWords(h, 2) == BigEndian(h[0], 4) + BigEndian(h[1], 4);
    assert FirstWords(h, 4) == BigEndian(h[0], 4) + BigEndian(h[1], 4) + BigEndian(h[2], 4) + BigEndian(h[3], 4);
    assert FirstWords(h, 6) == FirstWords(h, 4) + BigEndian(h[4], 4) + BigEndian(h[5], 4);
  }
}
