/** SHA-256 as FIPS 180-4 defines it, on whole bytes. */
module Fips180 {
  import opened Words

  // Section 2.2.2 and 3.2

  /** Rotation by n: the low n bits move to the top. */
  function Rotr(n: nat, x: word): word
    requires n <= 32
  {
    RotrIsWord(n, x);
    x / Pow2(n) + x % Pow2(n) * Pow2(32 - n)
  }

  lemma RotrIsWord(n: nat, x: word)
    requires n <= 32
    ensures 0 <= x / Pow2(n) < Pow2(32 - n)
    ensures 0 <= x % Pow2(n) * Pow2(32 - n) <= 0x1_0000_0000 - Pow2(32 - n)
    ensures 0 <= x / Pow2(n) + x % Pow2(n) * Pow2(32 - n) < 0x1_0000_0000
  {
    Pow2Is32();
    Pow2Add(n, 32 - n);
    SplitBound(x, Pow2(n), Pow2(32 - n));
  }

  lemma SplitBound(x: nat, d: nat, m: nat)
    requires d > 0 && x < d * m
    ensures 0 <= x / d < m && 0 <= x % d * m <= d * m - m
  {
    QuotientBound(x, d, m);
    RemainderBound(x % d, d, m);
    MulNonNegative(x % d, m);
  }

  lemma MulNonNegative(a: nat, b: nat)
    ensures a * b >= 0
  {
  }

  lemma QuotientBound(x: nat, d: nat, m: nat)
    requires d > 0 && x < d * m
    ensures x / d < m
  {
    DivMod(x, d);
    if x / d >= m {
      MulMono(m, x / d, d);
    }
  }

  lemma RemainderBound(r: nat, d: nat, m: nat)
    requires r < d
    ensures r * m <= d * m - m
  {
    MulMono(r + 1, d, m);
  }

  lemma MulMono(a: nat, b: nat, c: nat)
    requires a <= b
    ensures a * c <= b * c
  {
  }

  function Shr(n: nat, x: word): word {
    QuotientSmaller(x, Pow2(n));
    x / Pow2(n)
  }

  // Section 4.1.2
  function Ch(x: word, y: word, z: word): word { XorW(AndW(x, y), AndW(NotW(x), z)) }
  function Maj(x: word, y: word, z: word): word { XorW(XorW(AndW(x, y), AndW(x, z)), AndW(y, z)) }
  function BigSigma0(x: word): word { XorW(XorW(Rotr(2, x), Rotr(13, x)), Rotr(22, x)) }
  function BigSigma1(x: word): word { XorW(XorW(Rotr(6, x), Rotr(11, x)), Rotr(25, x)) }
  function SmallSigma0(x: word): word { XorW(XorW(Rotr(7, x), Rotr(18, x)), Shr(3, x)) }
  function SmallSigma1(x: word): word { XorW(XorW(Rotr(17, x), Rotr(19, x)), Shr(10, x)) }

  // Section 4.2.2
  function KRow(row: nat): (r: seq<word>)
    requires row < 8
    ensures |r| == 8
  {
    match row
    case 0 => [0x428a2f98, 0x71374491, 0xb5c0fbcf, 0xe9b5dba5, 0x3956c25b, 0x59f111f1, 0x923f82a4, 0xab1c5ed5]
    case 1 => [0xd807aa98, 0x12835b01, 0x243185be, 0x550c7dc3, 0x72be5d74, 0x80deb1fe, 0x9bdc06a7, 0xc19bf174]
    case 2 => [0xe49b69c1, 0xefbe4786, 0x0fc19dc6, 0x240ca1cc, 0x2de92c6f, 0x4a7484aa, 0x5cb0a9dc, 0x76f988da]
    case 3 => [0x983e5152, 0xa831c66d, 0xb00327c8, 0xbf597fc7, 0xc6e00bf3, 0xd5a79147, 0x06ca6351, 0x14292967]
    case 4 => [0x27b70a85, 0x2e1b2138, 0x4d2c6dfc, 0x53380d13, 0x650a7354, 0x766a0abb, 0x81c2c92e, 0x92722c85]
    case 5 => [0xa2bfe8a1, 0xa81a664b, 0xc24b8b70, 0xc76c51a3, 0xd192e819, 0xd6990624, 0xf40e3585, 0x106aa070]
    case 6 => [0x19a4c116, 0x1e376c08, 0x2748774c, 0x34b0bcb5, 0x391c0cb3, 0x4ed8aa4a, 0x5b9cca4f, 0x682e6ff3]
    case 7 => [0x748f82ee, 0x78a5636f, 0x84c87814, 0x8cc70208, 0x90befffa, 0xa4506ceb, 0xbef9a3f7, 0xc67178f2]
  }

  function K(t: nat): word
    requires t < 64
  {
    KRow(t / 8)[t % 8]
  }

  // Section 5.3.3
  const H0: seq<word> := [
    0x6a09e667, 0xbb67ae85, 0x3c6ef372, 0xa54ff53a, 0x510e527f, 0x9b05688c, 0x1f83d9ab, 0x5be0cd19]

  // Section 5.1.1

  /** Zero bytes after the byte 0x80: k = 8 * ZeroBytes + 7 zero bits after the bit 1. */
  function ZeroBytes(length: nat): nat { (55 - length) % 64 }

  /** The standard asks for the smallest k with l + 1 + k = 448 mod 512, l the length in bits. */
  lemma ZeroBytesIsSmallest(length: nat, k: nat)
    ensures (8 * length + 1 + (8 * ZeroBytes(length) + 7)) % 512 == 448
    ensures (8 * length + 1 + k) % 512 == 448 ==> 8 * ZeroBytes(length) + 7 <= k
  {
    var q := (55 - length) / 64;
    assert 55 - length == 64 * q + ZeroBytes(length);
    Congruent(448, -q);
    if (8 * length + 1 + k) % 512 == 448 {
      Congruent(448, (8 * length + 1 + k) / 512);
      NoSmaller(8 * ZeroBytes(length) + 7, k, -q, (8 * length + 1 + k) / 512);
    }
  }

  lemma Congruent(r: int, q: int)
    requires 0 <= r < 512
    ensures (r + 512 * q) % 512 == r
  {
  }

  lemma NoSmaller(k: nat, other: nat, q: int, p: int)
    requires k < 512 && k - other == 512 * (q - p)
    ensures k <= other
  {
  }

  function BigEndian(x: nat, bytes: nat): (r: seq<byte>)
    ensures |r| == bytes
  {
    if bytes == 0 then [] else BigEndian(x / 256, bytes - 1) + [x % 256]
  }

  lemma WordBytes(x: word)
    ensures BigEndian(x, 4) == [x / 0x100_0000, x / 0x1_0000 % 256, x / 0x100 % 256, x % 256]
  {
    assert BigEndian(x, 4) == BigEndian(x / 256, 3) + [x % 256];
    assert BigEndian(x / 256, 3) == BigEndian(x / 256 / 256, 2) + [x / 256 % 256];
    assert BigEndian(x / 256 / 256, 2) == BigEndian(x / 256 / 256 / 256, 1) + [x / 256 / 256 % 256];
    assert BigEndian(x / 256 / 256 / 256, 1) == [] + [x / 256 / 256 / 256 % 256];
  }

  function Zeros(n: nat): (r: seq<byte>)
    ensures |r| == n && forall i | 0 <= i < n :: r[i] == 0
  {
    seq(n, _ => 0)
  }

  function Pad(m: seq<byte>): seq<byte> {
    m + [0x80] + Zeros(ZeroBytes(|m|)) + BigEndian(8 * |m|, 8)
  }

  lemma PadLength(m: seq<byte>)
    ensures |Pad(m)| == |m| + 9 + ZeroBytes(|m|) && |Pad(m)| % 64 == 0
  {
    hide BigEndian;
    assert |m| + 9 + ZeroBytes(|m|) == 64 * (1 - (55 - |m|) / 64);
  }

  // Section 5.2.1 and 6.2.2

  function Word(bytes: seq<byte>, at: nat): word
    requires at + 4 <= |bytes|
  {
    var b0: int, b1: int, b2: int, b3: int := bytes[at], bytes[at + 1], bytes[at + 2], bytes[at + 3];
    b0 * 0x100_0000 + b1 * 0x1_0000 + b2 * 0x100 + b3
  }

  /** W_t of the block of 64 bytes at `off`. */
  function Schedule(bytes: seq<byte>, off: nat, t: nat): word
    requires off + 64 <= |bytes| && t < 64
  {
    if t < 16 then Word(bytes, off + 4 * t)
    else AddW(AddW(AddW(SmallSigma1(Schedule(bytes, off, t - 2)), Schedule(bytes, off, t - 7)),
                   SmallSigma0(Schedule(bytes, off, t - 15))), Schedule(bytes, off, t - 16))
  }

  datatype Vars = Vars(a: word, b: word, c: word, d: word, e: word, f: word, g: word, h: word)

  function Round(v: Vars, k: word, w: word): Vars {
    var t1 := AddW(AddW(AddW(AddW(v.h, BigSigma1(v.e)), Ch(v.e, v.f, v.g)), k), w);
    var t2 := AddW(BigSigma0(v.a), Maj(v.a, v.b, v.c));
    Vars(AddW(t1, t2), v.a, v.b, v.c, AddW(v.d, t1), v.e, v.f, v.g)
  }

  function Rounds(v: Vars, bytes: seq<byte>, off: nat, t: nat): Vars
    requires off + 64 <= |bytes| && t <= 64
  {
    if t == 0 then v else Round(Rounds(v, bytes, off, t - 1), K(t - 1), Schedule(bytes, off, t - 1))
  }

  function AddVars(v: Vars, r: Vars): Vars {
    Vars(AddW(v.a, r.a), AddW(v.b, r.b), AddW(v.c, r.c), AddW(v.d, r.d),
         AddW(v.e, r.e), AddW(v.f, r.f), AddW(v.g, r.g), AddW(v.h, r.h))
  }

  function Compress(v: Vars, bytes: seq<byte>, off: nat): Vars
    requires off + 64 <= |bytes|
  {
    AddVars(v, Rounds(v, bytes, off, 64))
  }

  /** The hash value after the first n blocks. */
  function Hash(bytes: seq<byte>, n: nat): Vars
    requires 64 * n <= |bytes|
  {
    if n == 0 then Vars(H0[0], H0[1], H0[2], H0[3], H0[4], H0[5], H0[6], H0[7])
    else Compress(Hash(bytes, n - 1), bytes, 64 * (n - 1))
  }

  function Digest(v: Vars): seq<byte> {
    BigEndian(v.a, 4) + BigEndian(v.b, 4) + BigEndian(v.c, 4) + BigEndian(v.d, 4)
    + BigEndian(v.e, 4) + BigEndian(v.f, 4) + BigEndian(v.g, 4) + BigEndian(v.h, 4)
  }

  function Sha256(m: seq<byte>): seq<byte> {
    Digest(Hash(Pad(m), |Pad(m)| / 64))
  }

  // ---------------------------------------------------------------- where the constants come from

  function PrimeRow(row: nat): (r: seq<nat>)
    requires row < 8
    ensures |r| == 8
  {
    match row
    case 0 => [2, 3, 5, 7, 11, 13, 17, 19]
    case 1 => [23, 29, 31, 37, 41, 43, 47, 53]
    case 2 => [59, 61, 67, 71, 73, 79, 83, 89]
    case 3 => [97, 101, 103, 107, 109, 113, 127, 131]
    case 4 => [137, 139, 149, 151, 157, 163, 167, 173]
    case 5 => [179, 181, 191, 193, 197, 199, 211, 223]
    case 6 => [227, 229, 233, 239, 241, 251, 257, 263]
    case 7 => [269, 271, 277, 281, 283, 293, 307, 311]
  }

  function Prime(i: nat): nat
    requires i < 64
  {
    PrimeRow(i / 8)[i % 8]
  }

  function CubeFloor(p: nat): nat {
    if p < 8 then 1 else if p < 27 then 2 else if p < 64 then 3 else if p < 125 then 4 else if p < 216 then 5 else 6
  }

  function SquareFloor(p: nat): nat {
    if p < 4 then 1 else if p < 9 then 2 else if p < 16 then 3 else 4
  }

  predicate CubeRootDigits(p: nat, k: word) {
    var r: int := CubeFloor(p) * 0x1_0000_0000 + k;
    r * r * r <= p * 0x1_0000_0000_0000_0000_0000_0000 < (r + 1) * (r + 1) * (r + 1)
  }

  predicate SquareRootDigits(p: nat, h: word) {
    var r: int := SquareFloor(p) * 0x1_0000_0000 + h;
    r * r <= p * 0x1_0000_0000_0000_0000 < (r + 1) * (r + 1)
  }

  /** The round constants are the first 32 bits of the fractional parts of the cube roots of the
      first 64 primes (section 4.2.2). */
  lemma RoundConstantsAreCubeRoots(i: nat)
    requires i < 64
    ensures CubeRootDigits(Prime(i), K(i))
  {
    hide CubeRootDigits, KRow, PrimeRow;
    match i / 8 {
      case 0 => CubeRoots0(i % 8);
      case 1 => CubeRoots1(i % 8);
      case 2 => CubeRoots2(i % 8);
      case 3 => CubeRoots3(i % 8);
      case 4 => CubeRoots4(i % 8);
      case 5 => CubeRoots5(i % 8);
      case 6 => CubeRoots6(i % 8);
      case _ => CubeRoots7(i % 8);
    }
  }

  lemma CubeRoots0(j: nat)
    requires j < 8
    ensures CubeRootDigits(PrimeRow(0)[j], KRow(0)[j])
  {
    match j { case 0 => case 1 => case 2 => case 3 => case 4 => case 5 => case 6 => case 7 => }
  }

  lemma CubeRoots1(j: nat)
    requires j < 8
    ensures CubeRootDigits(PrimeRow(1)[j], KRow(1)[j])
  {
    match j { case 0 => case 1 => case 2 => case 3 => case 4 => case 5 => case 6 => case 7 => }
  }

  lemma CubeRoots2(j: nat)
    requires j < 8
    ensures CubeRootDigits(PrimeRow(2)[j], KRow(2)[j])
  {
    match j { case 0 => case 1 => case 2 => case 3 => case 4 => case 5 => case 6 => case 7 => }
  }

  lemma CubeRoots3(j: nat)
    requires j < 8
    ensures CubeRootDigits(PrimeRow(3)[j], KRow(3)[j])
  {
    match j { case 0 => case 1 => case 2 => case 3 => case 4 => case 5 => case 6 => case 7 => }
  }

  lemma CubeRoots4(j: nat)
    requires j < 8
    ensures CubeRootDigits(PrimeRow(4)[j], KRow(4)[j])
  {
    match j { case 0 => case 1 => case 2 => case 3 => case 4 => case 5 => case 6 => case 7 => }
  }

  lemma CubeRoots5(j: nat)
    requires j < 8
    ensures CubeRootDigits(PrimeRow(5)[j], KRow(5)[j])
  {
    match j { case 0 => case 1 => case 2 => case 3 => case 4 => case 5 => case 6 => case 7 => }
  }

  lemma CubeRoots6(j: nat)
    requires j < 8
    ensures CubeRootDigits(PrimeRow(6)[j], KRow(6)[j])
  {
    match j { case 0 => case 1 => case 2 => case 3 => case 4 => case 5 => case 6 => case 7 => }
  }

  lemma CubeRoots7(j: nat)
    requires j < 8
    ensures CubeRootDigits(PrimeRow(7)[j], KRow(7)[j])
  {
    match j { case 0 => case 1 => case 2 => case 3 => case 4 => case 5 => case 6 => case 7 => }
  }

  /** The initial hash value holds those of the square roots of the first 8 primes (section 5.3.3). */
  lemma InitialHashIsSquareRoots(i: nat)
    requires i < 8
    ensures SquareRootDigits(Prime(i), H0[i])
  {
    match i
    case 0 => case 1 => case 2 => case 3 => case 4 => case 5 => case 6 => case 7 =>
  }

}
