/** The constants of SHA-256 from their definition in FIPS 180-4, and its rotation bit by bit. */
module Sha256Tables {
  import opened Arithmetic
  import opened Sha256

  // ---- the first sixty-four primes ----

  ghost predicate IsPrime(n: nat) {
    n > 1 && forall d :: 1 < d < n ==> n % d != 0
  }

  /** `q` is the first prime after the prime `p`. */
  ghost predicate Consecutive(p: nat, q: nat) {
    p < q && IsPrime(p) && IsPrime(q) && forall n :: p < n < q ==> !IsPrime(n)
  }

  function Prime(t: nat): nat
    requires t < 64
  {
    var row: seq<nat> :=
      if t < 8 then [2, 3, 5, 7, 11, 13, 17, 19]
      else if t < 16 then [23, 29, 31, 37, 41, 43, 47, 53]
      else if t < 24 then [59, 61, 67, 71, 73, 79, 83, 89]
      else if t < 32 then [97, 101, 103, 107, 109, 113, 127, 131]
      else if t < 40 then [137, 139, 149, 151, 157, 163, 167, 173]
      else if t < 48 then [179, 181, 191, 193, 197, 199, 211, 223]
      else if t < 56 then [227, 229, 233, 239, 241, 251, 257, 263]
      else [269, 271, 277, 281, 283, 293, 307, 311];
    row[t % 8]
  }

  /** A prime below eighteen divides the number and is less. */
  predicate Composite(n: nat) {
    || (n > 2 && n % 2 == 0) || (n > 3 && n % 3 == 0) || (n > 5 && n % 5 == 0) || (n > 7 && n % 7 == 0)
    || (n > 11 && n % 11 == 0) || (n > 13 && n % 13 == 0) || (n > 17 && n % 17 == 0)
  }

  lemma CompositeIff(n: nat)
    requires 1 < n < 324
    ensures IsPrime(n) <==> !Composite(n)
  {
    hide Composite;
    if Composite(n) {
      NotPrime(n);
    } else {
      forall d | 1 < d < n ensures n % d != 0 {
        if n % d == 0 { SmallFactor(n, d); }
      }
    }
  }

  lemma NotPrime(n: nat)
    requires Composite(n)
    ensures !IsPrime(n)
  {
    var d :| d in {2, 3, 5, 7, 11, 13, 17} && n > d && n % d == 0;
  }

  /** Of two factors of a number below 324 one is below eighteen. */
  lemma SmallFactor(n: nat, d: nat)
    requires n < 324 && 1 < d < n && n % d == 0
    ensures Composite(n)
  {
    hide Composite;
    var k := n / d;
    assert n == d * k && k > 1;
    if d < 18 {
      FactorBelow(n, d, k);
    } else {
      assert k < 18 by { TooLarge(d, k); }
      FactorBelow(n, k, d);
    }
  }

  lemma TooLarge(d: nat, k: nat)
    requires d >= 18
    ensures k >= 18 ==> d * k >= 324
  {
  }

  /** A number with a factor below eighteen has a prime one. */
  lemma FactorBelow(n: nat, d: nat, k: nat)
    requires n == d * k && 1 < d < 18 && k > 1
    ensures Composite(n)
  {
    hide Composite;
    if d % 2 == 0 {
      Times(n, 2, d / 2 * k);
    } else if d % 3 == 0 {
      Times(n, 3, d / 3 * k);
    } else {
      Times(n, d, k);
    }
  }

  lemma Times(n: nat, d: nat, m: nat)
    requires d in {2, 3, 5, 7, 11, 13, 17} && n == d * m && m > 1
    ensures Composite(n)
  {
    hide Composite;
    DivMod(m, 0, d);
    Scale(2, m, d);
    HasFactor(n, d);
  }

  lemma HasFactor(n: nat, d: nat)
    requires d in {2, 3, 5, 7, 11, 13, 17} && n % d == 0 && n > d
    ensures Composite(n)
  {
  }

  /** Nothing between the two, which are at most fourteen apart, is prime. */
  predicate Gap(p: nat, q: nat) {
    && p < q <= p + 14
    && (q <= p + 1 || Composite(p + 1)) && (q <= p + 2 || Composite(p + 2)) && (q <= p + 3 || Composite(p + 3))
    && (q <= p + 4 || Composite(p + 4)) && (q <= p + 5 || Composite(p + 5)) && (q <= p + 6 || Composite(p + 6))
    && (q <= p + 7 || Composite(p + 7)) && (q <= p + 8 || Composite(p + 8)) && (q <= p + 9 || Composite(p + 9))
    && (q <= p + 10 || Composite(p + 10)) && (q <= p + 11 || Composite(p + 11)) && (q <= p + 12 || Composite(p + 12))
    && (q <= p + 13 || Composite(p + 13))
  }

  lemma Next(t: nat, p: nat, q: nat)
    requires t < 63 && Prime(t) == p && Prime(t + 1) == q
    requires 1 < p && q < 324 && !Composite(p) && !Composite(q) && Gap(p, q)
    ensures Consecutive(Prime(t), Prime(t + 1))
  {
    hide Composite, Prime, IsPrime;
    CompositeIff(p);
    CompositeIff(q);
    forall n | p < n < q ensures !IsPrime(n) { CompositeIff(n); }
  }

  lemma Primes0(t: nat)
    requires t < 8
    ensures Consecutive(Prime(t), Prime(t + 1))
  {
    hide Consecutive;
    if t == 0 { Next(0, 2, 3); }
    else if t == 1 { Next(1, 3, 5); }
    else if t == 2 { Next(2, 5, 7); }
    else if t == 3 { Next(3, 7, 11); }
    else if t == 4 { Next(4, 11, 13); }
    else if t == 5 { Next(5, 13, 17); }
    else if t == 6 { Next(6, 17, 19); }
    else { Next(7, 19, 23); }
  }

  lemma Primes1(t: nat)
    requires 8 <= t < 16
    ensures Consecutive(Prime(t), Prime(t + 1))
  {
    hide Consecutive;
    if t == 8 { Next(8, 23, 29); }
    else if t == 9 { Next(9, 29, 31); }
    else if t == 10 { Next(10, 31, 37); }
    else if t == 11 { Next(11, 37, 41); }
    else if t == 12 { Next(12, 41, 43); }
    else if t == 13 { Next(13, 43, 47); }
    else if t == 14 { Next(14, 47, 53); }
    else { Next(15, 53, 59); }
  }

  lemma Primes2(t: nat)
    requires 16 <= t < 24
    ensures Consecutive(Prime(t), Prime(t + 1))
  {
    hide Consecutive;
    if t == 16 { Next(16, 59, 61); }
    else if t == 17 { Next(17, 61, 67); }
    else if t == 18 { Next(18, 67, 71); }
    else if t == 19 { Next(19, 71, 73); }
    else if t == 20 { Next(20, 73, 79); }
    else if t == 21 { Next(21, 79, 83); }
    else if t == 22 { Next(22, 83, 89); }
    else { Next(23, 89, 97); }
  }

  lemma Primes3(t: nat)
    requires 24 <= t < 32
    ensures Consecutive(Prime(t), Prime(t + 1))
  {
    hide Consecutive;
    if t == 24 { Next(24, 97, 101); }
    else if t == 25 { Next(25, 101, 103); }
    else if t == 26 { Next(26, 103, 107); }
    else if t == 27 { Next(27, 107, 109); }
    else if t == 28 { Next(28, 109, 113); }
    else if t == 29 { Next(29, 113, 127); }
    else if t == 30 { Next(30, 127, 131); }
    else { Next(31, 131, 137); }
  }

  lemma Primes4(t: nat)
    requires 32 <= t < 40
    ensures Consecutive(Prime(t), Prime(t + 1))
  {
    hide Consecutive;
    if t == 32 { Next(32, 137, 139); }
    else if t == 33 { Next(33, 139, 149); }
    else if t == 34 { Next(34, 149, 151); }
    else if t == 35 { Next(35, 151, 157); }
    else if t == 36 { Next(36, 157, 163); }
    else if t == 37 { Next(37, 163, 167); }
    else if t == 38 { Next(38, 167, 173); }
    else { Next(39, 173, 179); }
  }

  lemma Primes5(t: nat)
    requires 40 <= t < 48
    ensures Consecutive(Prime(t), Prime(t + 1))
  {
    hide Consecutive;
    if t == 40 { Next(40, 179, 181); }
    else if t == 41 { Next(41, 181, 191); }
    else if t == 42 { Next(42, 191, 193); }
    else if t == 43 { Next(43, 193, 197); }
    else if t == 44 { Next(44, 197, 199); }
    else if t == 45 { Next(45, 199, 211); }
    else if t == 46 { Next(46, 211, 223); }
    else { Next(47, 223, 227); }
  }

  lemma Primes6(t: nat)
    requires 48 <= t < 56
    ensures Consecutive(Prime(t), Prime(t + 1))
  {
    hide Consecutive;
    if t == 48 { Next(48, 227, 229); }
    else if t == 49 { Next(49, 229, 233); }
    else if t == 50 { Next(50, 233, 239); }
    else if t == 51 { Next(51, 239, 241); }
    else if t == 52 { Next(52, 241, 251); }
    else if t == 53 { Next(53, 251, 257); }
    else if t == 54 { Next(54, 257, 263); }
    else { Next(55, 263, 269); }
  }

  lemma Primes7(t: nat)
    requires 56 <= t < 63
    ensures Consecutive(Prime(t), Prime(t + 1))
  {
    hide Consecutive;
    if t == 56 { Next(56, 269, 271); }
    else if t == 57 { Next(57, 271, 277); }
    else if t == 58 { Next(58, 277, 281); }
    else if t == 59 { Next(59, 281, 283); }
    else if t == 60 { Next(60, 283, 293); }
    else if t == 61 { Next(61, 293, 307); }
    else { Next(62, 307, 311); }
  }

  // ---- roots ----

  /** `n` and the fraction `f` in 32 bits are the cube root of `p`, cut off after those bits. */
  predicate CubeRoot(n: nat, f: nat, p: nat) {
    var x := n * 0x1_0000_0000 + f;
    x * x * x <= p * 0x1_0000_0000 * 0x1_0000_0000 * 0x1_0000_0000 < (x + 1) * (x + 1) * (x + 1)
  }

  predicate SquareRoot(n: nat, f: nat, p: nat) {
    var x := n * 0x1_0000_0000 + f;
    x * x <= p * 0x1_0000_0000 * 0x1_0000_0000 < (x + 1) * (x + 1)
  }

  ghost predicate CubeFraction(f: nat, p: nat) {
    exists n: nat :: CubeRoot(n, f, p)
  }

  ghost predicate SquareFraction(f: nat, p: nat) {
    exists n: nat :: SquareRoot(n, f, p)
  }

  lemma Constant(t: nat, n: nat, p: nat, w: Word, f: nat)
    requires t < 64 && K(t) == w && w as nat == f && CubeRoot(n, f, p) && Prime(t) == p
    ensures CubeFraction(K(t) as nat, Prime(t))
  {
    hide K, CubeRoot, Prime;
    assert CubeRoot(n, K(t) as nat, p);
  }

  lemma Constants0(t: nat)
    requires t < 8
    ensures CubeFraction(K(t) as nat, Prime(t))
  {
    hide CubeFraction;
    if t == 0 { Constant(0, 1, 2, 0x428a2f98, 0x428a2f98); }
    else if t == 1 { Constant(1, 1, 3, 0x71374491, 0x71374491); }
    else if t == 2 { Constant(2, 1, 5, 0xb5c0fbcf, 0xb5c0fbcf); }
    else if t == 3 { Constant(3, 1, 7, 0xe9b5dba5, 0xe9b5dba5); }
    else if t == 4 { Constant(4, 2, 11, 0x3956c25b, 0x3956c25b); }
    else if t == 5 { Constant(5, 2, 13, 0x59f111f1, 0x59f111f1); }
    else if t == 6 { Constant(6, 2, 17, 0x923f82a4, 0x923f82a4); }
    else { Constant(7, 2, 19, 0xab1c5ed5, 0xab1c5ed5); }
  }

  lemma Constants1(t: nat)
    requires 8 <= t < 16
    ensures CubeFraction(K(t) as nat, Prime(t))
  {
    hide CubeFraction;
    if t == 8 { Constant(8, 2, 23, 0xd807aa98, 0xd807aa98); }
    else if t == 9 { Constant(9, 3, 29, 0x12835b01, 0x12835b01); }
    else if t == 10 { Constant(10, 3, 31, 0x243185be, 0x243185be); }
    else if t == 11 { Constant(11, 3, 37, 0x550c7dc3, 0x550c7dc3); }
    else if t == 12 { Constant(12, 3, 41, 0x72be5d74, 0x72be5d74); }
    else if t == 13 { Constant(13, 3, 43, 0x80deb1fe, 0x80deb1fe); }
    else if t == 14 { Constant(14, 3, 47, 0x9bdc06a7, 0x9bdc06a7); }
    else { Constant(15, 3, 53, 0xc19bf174, 0xc19bf174); }
  }

  lemma Constants2(t: nat)
    requires 16 <= t < 24
    ensures CubeFraction(K(t) as nat, Prime(t))
  {
    hide CubeFraction;
    if t == 16 { Constant(16, 3, 59, 0xe49b69c1, 0xe49b69c1); }
    else if t == 17 { Constant(17, 3, 61, 0xefbe4786, 0xefbe4786); }
    else if t == 18 { Constant(18, 4, 67, 0x0fc19dc6, 0x0fc19dc6); }
    else if t == 19 { Constant(19, 4, 71, 0x240ca1cc, 0x240ca1cc); }
    else if t == 20 { Constant(20, 4, 73, 0x2de92c6f, 0x2de92c6f); }
    else if t == 21 { Constant(21, 4, 79, 0x4a7484aa, 0x4a7484aa); }
    else if t == 22 { Constant(22, 4, 83, 0x5cb0a9dc, 0x5cb0a9dc); }
    else { Constant(23, 4, 89, 0x76f988da, 0x76f988da); }
  }

  lemma Constants3(t: nat)
    requires 24 <= t < 32
    ensures CubeFraction(K(t) as nat, Prime(t))
  {
    hide CubeFraction;
    if t == 24 { Constant(24, 4, 97, 0x983e5152, 0x983e5152); }
    else if t == 25 { Constant(25, 4, 101, 0xa831c66d, 0xa831c66d); }
    else if t == 26 { Constant(26, 4, 103, 0xb00327c8, 0xb00327c8); }
    else if t == 27 { Constant(27, 4, 107, 0xbf597fc7, 0xbf597fc7); }
    else if t == 28 { Constant(28, 4, 109, 0xc6e00bf3, 0xc6e00bf3); }
    else if t == 29 { Constant(29, 4, 113, 0xd5a79147, 0xd5a79147); }
    else if t == 30 { Constant(30, 5, 127, 0x06ca6351, 0x06ca6351); }
    else { Constant(31, 5, 131, 0x14292967, 0x14292967); }
  }

  lemma Constants4(t: nat)
    requires 32 <= t < 40
    ensures CubeFraction(K(t) as nat, Prime(t))
  {
    hide CubeFraction;
    if t == 32 { Constant(32, 5, 137, 0x27b70a85, 0x27b70a85); }
    else if t == 33 { Constant(33, 5, 139, 0x2e1b2138, 0x2e1b2138); }
    else if t == 34 { Constant(34, 5, 149, 0x4d2c6dfc, 0x4d2c6dfc); }
    else if t == 35 { Constant(35, 5, 151, 0x53380d13, 0x53380d13); }
    else if t == 36 { Constant(36, 5, 157, 0x650a7354, 0x650a7354); }
    else if t == 37 { Constant(37, 5, 163, 0x766a0abb, 0x766a0abb); }
    else if t == 38 { Constant(38, 5, 167, 0x81c2c92e, 0x81c2c92e); }
    else { Constant(39, 5, 173, 0x92722c85, 0x92722c85); }
  }

  lemma Constants5(t: nat)
    requires 40 <= t < 48
    ensures CubeFraction(K(t) as nat, Prime(t))
  {
    hide CubeFraction;
    if t == 40 { Constant(40, 5, 179, 0xa2bfe8a1, 0xa2bfe8a1); }
    else if t == 41 { Constant(41, 5, 181, 0xa81a664b, 0xa81a664b); }
    else if t == 42 { Constant(42, 5, 191, 0xc24b8b70, 0xc24b8b70); }
    else if t == 43 { Constant(43, 5, 193, 0xc76c51a3, 0xc76c51a3); }
    else if t == 44 { Constant(44, 5, 197, 0xd192e819, 0xd192e819); }
    else if t == 45 { Constant(45, 5, 199, 0xd6990624, 0xd6990624); }
    else if t == 46 { Constant(46, 5, 211, 0xf40e3585, 0xf40e3585); }
    else { Constant(47, 6, 223, 0x106aa070, 0x106aa070); }
  }

  lemma Constants6(t: nat)
    requires 48 <= t < 56
    ensures CubeFraction(K(t) as nat, Prime(t))
  {
    hide CubeFraction;
    if t == 48 { Constant(48, 6, 227, 0x19a4c116, 0x19a4c116); }
    else if t == 49 { Constant(49, 6, 229, 0x1e376c08, 0x1e376c08); }
    else if t == 50 { Constant(50, 6, 233, 0x2748774c, 0x2748774c); }
    else if t == 51 { Constant(51, 6, 239, 0x34b0bcb5, 0x34b0bcb5); }
    else if t == 52 { Constant(52, 6, 241, 0x391c0cb3, 0x391c0cb3); }
    else if t == 53 { Constant(53, 6, 251, 0x4ed8aa4a, 0x4ed8aa4a); }
    else if t == 54 { Constant(54, 6, 257, 0x5b9cca4f, 0x5b9cca4f); }
    else { Constant(55, 6, 263, 0x682e6ff3, 0x682e6ff3); }
  }

  lemma Constants7(t: nat)
    requires 56 <= t < 64
    ensures CubeFraction(K(t) as nat, Prime(t))
  {
    hide CubeFraction;
    if t == 56 { Constant(56, 6, 269, 0x748f82ee, 0x748f82ee); }
    else if t == 57 { Constant(57, 6, 271, 0x78a5636f, 0x78a5636f); }
    else if t == 58 { Constant(58, 6, 277, 0x84c87814, 0x84c87814); }
    else if t == 59 { Constant(59, 6, 281, 0x8cc70208, 0x8cc70208); }
    else if t == 60 { Constant(60, 6, 283, 0x90befffa, 0x90befffa); }
    else if t == 61 { Constant(61, 6, 293, 0xa4506ceb, 0xa4506ceb); }
    else if t == 62 { Constant(62, 6, 307, 0xbef9a3f7, 0xbef9a3f7); }
    else { Constant(63, 6, 311, 0xc67178f2, 0xc67178f2); }
  }

  /** The primes above are the first sixty-four. */
  lemma FirstPrimes(t: nat)
    requires t < 63
    ensures Prime(0) == 2 && Consecutive(Prime(t), Prime(t + 1))
  {
    hide Consecutive;
    if t < 8 { Primes0(t); }
    else if t < 16 { Primes1(t); }
    else if t < 24 { Primes2(t); }
    else if t < 32 { Primes3(t); }
    else if t < 40 { Primes4(t); }
    else if t < 48 { Primes5(t); }
    else if t < 56 { Primes6(t); }
    else { Primes7(t); }
  }

  /** Section 4.2.2: the round constants are the first 32 bits of the fractional parts of the cube roots of the first
      sixty-four primes. */
  lemma RoundConstants(t: nat)
    requires t < 64
    ensures CubeFraction(K(t) as nat, Prime(t))
  {
    hide CubeFraction, K, Prime;
    if t < 8 { Constants0(t); }
    else if t < 16 { Constants1(t); }
    else if t < 24 { Constants2(t); }
    else if t < 32 { Constants3(t); }
    else if t < 40 { Constants4(t); }
    else if t < 48 { Constants5(t); }
    else if t < 56 { Constants6(t); }
    else { Constants7(t); }
  }

  lemma Initial(n: nat, p: nat, w: Word, f: nat)
    requires w as nat == f && SquareRoot(n, f, p)
    ensures SquareFraction(w as nat, p)
  {
    hide SquareRoot;
    assert SquareRoot(n, w as nat, p);
  }

  /** Section 5.3.3: the initial hash value is the first 32 bits of the fractional parts of the square roots of the
      first eight. */
  lemma InitialHash()
    ensures SquareFraction(IV.a as nat, Prime(0)) && SquareFraction(IV.b as nat, Prime(1))
    ensures SquareFraction(IV.c as nat, Prime(2)) && SquareFraction(IV.d as nat, Prime(3))
    ensures SquareFraction(IV.e as nat, Prime(4)) && SquareFraction(IV.f as nat, Prime(5))
    ensures SquareFraction(IV.g as nat, Prime(6)) && SquareFraction(IV.h as nat, Prime(7))
  {
    hide SquareFraction;
    Initial(1, 2, 0x6a09e667, 0x6a09e667);
    Initial(1, 3, 0xbb67ae85, 0xbb67ae85);
    Initial(2, 5, 0x3c6ef372, 0x3c6ef372);
    Initial(2, 7, 0xa54ff53a, 0xa54ff53a);
    Initial(3, 11, 0x510e527f, 0x510e527f);
    Initial(3, 13, 0x9b05688c, 0x9b05688c);
    Initial(4, 17, 0x1f83d9ab, 0x1f83d9ab);
    Initial(4, 19, 0x5be0cd19, 0x5be0cd19);
  }

  // ---- rotation, bit by bit ----

  function Bit(x: Word, i: Word): Word
    requires i < 32
  {
    (x >> i) & 1
  }

  lemma RorDown(x: Word, n: Word, i: Word)
    requires i < 32 && n < 32 && i + n < 32
    ensures Bit(Ror(x, n), i) == Bit(x, i + n)
  {
  }

  lemma RorAround(x: Word, n: Word, i: Word)
    requires i < 32 && n < 32 && i + n >= 32
    ensures Bit(Ror(x, n), i) == Bit(x, i + n - 32)
  {
  }

  /** Rotating right brings every bit down by the amount, and the lowest around to the top. */
  lemma RorBit(x: Word, n: Word, i: Word)
    requires i < 32 && n < 32
    ensures Bit(Ror(x, n), i) == if i + n < 32 then Bit(x, i + n) else Bit(x, i + n - 32)
  {
    hide Bit, Ror;
    if i + n < 32 { RorDown(x, n, i); } else { RorAround(x, n, i); }
  }
}
