/**
  Where the constants of SHA-256 come from: sections 4.2.2 and 5.3.3 of FIPS 180-4 take the first 32 bits of the
  fractional parts of the cube roots of the first 64 primes, and of the square roots of the first eight.
 */
module Sha256Constants {
  import opened Sha256

  /** `k` is the first 32 bits of the fraction of the cube root of `p`. */
  predicate CubeRootBits(p: nat, whole: nat, k: nat) {
    var r := whole * 0x1_0000_0000 + k;
    k < 0x1_0000_0000 && r * r * r <= p * 0x1_0000_0000_0000_0000_0000_0000 < (r + 1) * (r + 1) * (r + 1)
  }

  predicate SquareRootBits(p: nat, whole: nat, k: nat) {
    var r := whole * 0x1_0000_0000 + k;
    k < 0x1_0000_0000 && r * r <= p * 0x1_0000_0000_0000_0000 < (r + 1) * (r + 1)
  }

  // ---------------------------------------------------------------- the first 64 primes

  const P0: seq<nat> := [2, 3, 5, 7, 11, 13, 17, 19, 23, 29, 31, 37, 41, 43, 47, 53]
  const P16: seq<nat> := [59, 61, 67, 71, 73, 79, 83, 89, 97, 101, 103, 107, 109, 113, 127, 131]
  const P32: seq<nat> := [137, 139, 149, 151, 157, 163, 167, 173, 179, 181, 191, 193, 197, 199, 211, 223]
  const P48: seq<nat> := [227, 229, 233, 239, 241, 251, 257, 263, 269, 271, 277, 281, 283, 293, 307, 311]

  const PRIMES: seq<nat> := P0 + P16 + P32 + P48

  ghost predicate Divides(d: nat, n: nat) { exists q: nat :: n == d * q }

  ghost predicate Prime(n: nat) { n > 1 && forall d :: 1 < d < n ==> !Divides(d, n) }

  /** No prime up to 17 divides `n`, unless it is `n`. */
  predicate Sieved(n: nat) {
    && n > 1
    && (n % 2 != 0 || n == 2) && (n % 3 != 0 || n == 3) && (n % 5 != 0 || n == 5) && (n % 7 != 0 || n == 7)
    && (n % 11 != 0 || n == 11) && (n % 13 != 0 || n == 13) && (n % 17 != 0 || n == 17)
  }

  lemma Regroup(a: nat, e: nat, q: nat)
    ensures a * e * q == a * (e * q)
  {
  }

  /** `n` is a proper multiple of one of the seven. */
  predicate OneOfSeven(n: nat, q: nat) {
    || (n > 2 && n == 2 * q) || (n > 3 && n == 3 * q) || (n > 5 && n == 5 * q) || (n > 7 && n == 7 * q)
    || (n > 11 && n == 11 * q) || (n > 13 && n == 13 * q) || (n > 17 && n == 17 * q)
  }

  lemma Remainders(n: nat, q: nat)
    ensures n == 2 * q ==> n % 2 == 0
    ensures n == 3 * q ==> n % 3 == 0
    ensures n == 5 * q ==> n % 5 == 0
    ensures n == 7 * q ==> n % 7 == 0
  {
  }

  lemma MoreRemainders(n: nat, q: nat)
    ensures n == 11 * q ==> n % 11 == 0
    ensures n == 13 * q ==> n % 13 == 0
    ensures n == 17 * q ==> n % 17 == 0
  {
  }

  lemma OneOfSevenIsOut(n: nat, q: nat)
    requires OneOfSeven(n, q)
    ensures !Sieved(n)
  {
    Remainders(n, q);
    MoreRemainders(n, q);
  }

  lemma EvenOrThreefold(n: nat, d: nat, q: nat)
    requires 1 < d < n && n == d * q && (d % 2 == 0 || d % 3 == 0)
    ensures !Sieved(n)
  {
    if d % 2 == 0 {
      Regroup(2, d / 2, q);
      OneOfSevenIsOut(n, d / 2 * q);
    } else {
      Regroup(3, d / 3, q);
      OneOfSevenIsOut(n, d / 3 * q);
    }
  }

  /** A small divisor has one of the seven primes as its own divisor. */
  lemma SmallDivisor(n: nat, d: nat, q: nat)
    requires 1 < d <= 17 && d < n && n == d * q
    ensures !Sieved(n)
  {
    if d % 2 == 0 || d % 3 == 0 {
      EvenOrThreefold(n, d, q);
    } else {
      assert d == 5 || d == 7 || d == 11 || d == 13 || d == 17;
      assert OneOfSeven(n, q);
      OneOfSevenIsOut(n, q);
    }
  }

  lemma SievedIsPrime(n: nat)
    requires n < 324 && Sieved(n)
    ensures Prime(n)
  {
    forall d | 1 < d < n ensures !Divides(d, n) {
      if Divides(d, n) {
        var q: nat :| n == d * q;
        if d <= 17 {
          SmallDivisor(n, d, q);
        } else {
          Cofactor(n, d, q);
          SmallDivisor(n, q, d);
        }
      }
    }
  }

  lemma Cofactor(n: nat, d: nat, q: nat)
    requires n == d * q && 17 < d < n < 324
    ensures 1 < q <= 17
  {
    if q > 17 {
      Times(18, 18, d, q);
    } else if q <= 1 {
      Times(q, d, 1, d);
    }
  }

  lemma PrimeIsSieved(n: nat)
    requires Prime(n)
    ensures Sieved(n)
  {
    if n % 2 == 0 { NotDivided(n, 2, n / 2); }
    if n % 3 == 0 { NotDivided(n, 3, n / 3); }
    if n % 5 == 0 { NotDivided(n, 5, n / 5); }
    if n % 7 == 0 { NotDivided(n, 7, n / 7); }
    if n % 11 == 0 { NotDivided(n, 11, n / 11); }
    if n % 13 == 0 { NotDivided(n, 13, n / 13); }
    if n % 17 == 0 { NotDivided(n, 17, n / 17); }
  }

  lemma NotDivided(n: nat, d: nat, q: nat)
    requires Prime(n) && d > 1 && n == d * q
    ensures n == d
  {
    assert Divides(d, n);
    if q > 0 {
      Times(d, 1, d, q);
    }
  }

  lemma Row0(n: nat)
    requires 2 <= n <= 27
    ensures Sieved(n) <==> n in P0
  {
  }

  lemma Row1(n: nat)
    requires 28 <= n <= 44
    ensures Sieved(n) <==> n in P0
  {
  }

  lemma Row2(n: nat)
    requires 45 <= n <= 58
    ensures Sieved(n) <==> n in P0
  {
  }

  lemma Row3(n: nat)
    requires 59 <= n <= 78
    ensures Sieved(n) <==> n in P16
  {
  }

  lemma Row4(n: nat)
    requires 79 <= n <= 97
    ensures Sieved(n) <==> n in P16
  {
  }

  lemma Row5(n: nat)
    requires 98 <= n <= 117
    ensures Sieved(n) <==> n in P16
  {
  }

  lemma Row6(n: nat)
    requires 118 <= n <= 136
    ensures Sieved(n) <==> n in P16
  {
  }

  lemma Row7(n: nat)
    requires 137 <= n <= 166
    ensures Sieved(n) <==> n in P32
  {
  }

  lemma Row8(n: nat)
    requires 167 <= n <= 181
    ensures Sieved(n) <==> n in P32
  {
  }

  lemma Row9(n: nat)
    requires 182 <= n <= 196
    ensures Sieved(n) <==> n in P32
  {
  }

  lemma Row10(n: nat)
    requires 197 <= n <= 226
    ensures Sieved(n) <==> n in P32
  {
  }

  lemma Row11(n: nat)
    requires 227 <= n <= 255
    ensures Sieved(n) <==> n in P48
  {
  }

  lemma Row12(n: nat)
    requires 256 <= n <= 270
    ensures Sieved(n) <==> n in P48
  {
  }

  lemma Row13(n: nat)
    requires 271 <= n <= 290
    ensures Sieved(n) <==> n in P48
  {
  }

  lemma Row14(n: nat)
    requires 291 <= n <= 301
    ensures Sieved(n) <==> n in P48
  {
  }

  lemma Row15(n: nat)
    requires 302 <= n <= 311
    ensures Sieved(n) <==> n in P48
  {
  }

  lemma RowBounds(n: nat)
    ensures n in P0 ==> 2 <= n <= 53
    ensures n in P16 ==> 59 <= n <= 131
    ensures n in P32 ==> 137 <= n <= 223
    ensures n in P48 ==> 227 <= n <= 311
  {
  }

  lemma SievedUpTo311(n: nat)
    requires 2 <= n <= 311
    ensures Sieved(n) <==> n in PRIMES
  {
    RowBounds(n);
    if n <= 27 {
      Row0(n);
    } else if n <= 44 {
      Row1(n);
    } else if n <= 58 {
      Row2(n);
    } else if n <= 78 {
      Row3(n);
    } else if n <= 97 {
      Row4(n);
    } else if n <= 117 {
      Row5(n);
    } else if n <= 136 {
      Row6(n);
    } else if n <= 166 {
      Row7(n);
    } else if n <= 181 {
      Row8(n);
    } else if n <= 196 {
      Row9(n);
    } else if n <= 226 {
      Row10(n);
    } else if n <= 255 {
      Row11(n);
    } else if n <= 270 {
      Row12(n);
    } else if n <= 290 {
      Row13(n);
    } else if n <= 301 {
      Row14(n);
    } else {
      Row15(n);
    }
  }

  /** PRIMES is the first 64 primes: all those up to its last element, in order. */
  lemma FirstPrimes()
    ensures |PRIMES| == 64 && PRIMES[63] == 311
    ensures forall i, j :: 0 <= i < j < 64 ==> PRIMES[i] < PRIMES[j]
    ensures forall n :: n <= 311 ==> (Prime(n) <==> n in PRIMES)
  {
    Ascending();
    forall n: nat | n <= 311 ensures Prime(n) <==> n in PRIMES {
      RowBounds(n);
      if n >= 2 {
        SievedUpTo311(n);
        if Sieved(n) { SievedIsPrime(n); }
        if Prime(n) { PrimeIsSieved(n); }
      }
    }
  }

  predicate Rises(s: seq<nat>) { forall i, j :: 0 <= i < j < |s| ==> s[i] < s[j] }

  lemma RowsRise()
    ensures Rises(P0) && Rises(P16) && Rises(P32) && Rises(P48)
  {
  }

  lemma JoinRises(s: seq<nat>, t: seq<nat>)
    requires Rises(s) && Rises(t) && s != [] && t != [] && s[|s| - 1] < t[0]
    ensures Rises(s + t)
  {
  }

  lemma Ascending()
    ensures Rises(PRIMES)
  {
    RowsRise();
    JoinRises(P0, P16);
    JoinRises(P0 + P16, P32);
    JoinRises(P0 + P16 + P32, P48);
  }

  // ---------------------------------------------------------------- the round constants

  const WHOLES: seq<nat> := W0 + W16 + W32 + W48

  const W0: seq<nat> := [1, 1, 1, 1, 2, 2, 2, 2, 2, 3, 3, 3, 3, 3, 3, 3]
  const W16: seq<nat> := [3, 3, 4, 4, 4, 4, 4, 4, 4, 4, 4, 4, 4, 4, 5, 5]
  const W32: seq<nat> := [5, 5, 5, 5, 5, 5, 5, 5, 5, 5, 5, 5, 5, 5, 5, 6]
  const W48: seq<nat> := [6, 6, 6, 6, 6, 6, 6, 6, 6, 6, 6, 6, 6, 6, 6, 6]

  /** Constant `t` of the rounds comes from prime `t`. */
  predicate FromPrime(t: nat)
    requires t < 64
  {
    CubeRootBits(PRIMES[t], WHOLES[t], K[t] as nat)
  }

  predicate AllFromPrimes(lo: nat, hi: nat)
    requires hi <= 64
  {
    forall t :: lo <= t < hi ==> FromPrime(t)
  }

  /** Four constants, one by one. */
  predicate Quarter(t: nat)
    requires t + 4 <= 64
  {
    FromPrime(t) && FromPrime(t + 1) && FromPrime(t + 2) && FromPrime(t + 3)
  }

  lemma AddQuarter(t: nat)
    requires t + 4 <= 64 && AllFromPrimes(0, t) && Quarter(t)
    ensures AllFromPrimes(0, t + 4)
  {
    forall u | 0 <= u < t + 4 ensures FromPrime(u) {
      assert u < t || u == t || u == t + 1 || u == t + 2 || u == t + 3;
    }
  }

  lemma Constants00()
    ensures Quarter(0)
  {
    assert K[0] as nat == 1116352408 && PRIMES[0] == 2 && WHOLES[0] == 1;
    assert K[1] as nat == 1899447441 && PRIMES[1] == 3 && WHOLES[1] == 1;
    assert K[2] as nat == 3049323471 && PRIMES[2] == 5 && WHOLES[2] == 1;
    assert K[3] as nat == 3921009573 && PRIMES[3] == 7 && WHOLES[3] == 1;
  }

  lemma Constants04()
    ensures Quarter(4)
  {
    assert K[4] as nat == 961987163 && PRIMES[4] == 11 && WHOLES[4] == 2;
    assert K[5] as nat == 1508970993 && PRIMES[5] == 13 && WHOLES[5] == 2;
    assert K[6] as nat == 2453635748 && PRIMES[6] == 17 && WHOLES[6] == 2;
    assert K[7] as nat == 2870763221 && PRIMES[7] == 19 && WHOLES[7] == 2;
  }

  lemma Constants08()
    ensures Quarter(8)
  {
    assert K[8] as nat == 3624381080 && PRIMES[8] == 23 && WHOLES[8] == 2;
    assert K[9] as nat == 310598401 && PRIMES[9] == 29 && WHOLES[9] == 3;
    assert K[10] as nat == 607225278 && PRIMES[10] == 31 && WHOLES[10] == 3;
    assert K[11] as nat == 1426881987 && PRIMES[11] == 37 && WHOLES[11] == 3;
  }

  lemma Constants12()
    ensures Quarter(12)
  {
    assert K[12] as nat == 1925078388 && PRIMES[12] == 41 && WHOLES[12] == 3;
    assert K[13] as nat == 2162078206 && PRIMES[13] == 43 && WHOLES[13] == 3;
    assert K[14] as nat == 2614888103 && PRIMES[14] == 47 && WHOLES[14] == 3;
    assert K[15] as nat == 3248222580 && PRIMES[15] == 53 && WHOLES[15] == 3;
  }

  lemma Constants16()
    ensures Quarter(16)
  {
    assert K[16] as nat == 3835390401 && PRIMES[16] == 59 && WHOLES[16] == 3;
    assert K[17] as nat == 4022224774 && PRIMES[17] == 61 && WHOLES[17] == 3;
    assert K[18] as nat == 264347078 && PRIMES[18] == 67 && WHOLES[18] == 4;
    assert K[19] as nat == 604807628 && PRIMES[19] == 71 && WHOLES[19] == 4;
  }

  lemma Constants20()
    ensures Quarter(20)
  {
    assert K[20] as nat == 770255983 && PRIMES[20] == 73 && WHOLES[20] == 4;
    assert K[21] as nat == 1249150122 && PRIMES[21] == 79 && WHOLES[21] == 4;
    assert K[22] as nat == 1555081692 && PRIMES[22] == 83 && WHOLES[22] == 4;
    assert K[23] as nat == 1996064986 && PRIMES[23] == 89 && WHOLES[23] == 4;
  }

  lemma Constants24()
    ensures Quarter(24)
  {
    assert K[24] as nat == 2554220882 && PRIMES[24] == 97 && WHOLES[24] == 4;
    assert K[25] as nat == 2821834349 && PRIMES[25] == 101 && WHOLES[25] == 4;
    assert K[26] as nat == 2952996808 && PRIMES[26] == 103 && WHOLES[26] == 4;
    assert K[27] as nat == 3210313671 && PRIMES[27] == 107 && WHOLES[27] == 4;
  }

  lemma Constants28()
    ensures Quarter(28)
  {
    assert K[28] as nat == 3336571891 && PRIMES[28] == 109 && WHOLES[28] == 4;
    assert K[29] as nat == 3584528711 && PRIMES[29] == 113 && WHOLES[29] == 4;
    assert K[30] as nat == 113926993 && PRIMES[30] == 127 && WHOLES[30] == 5;
    assert K[31] as nat == 338241895 && PRIMES[31] == 131 && WHOLES[31] == 5;
  }

  lemma Constants32()
    ensures Quarter(32)
  {
    assert K[32] as nat == 666307205 && PRIMES[32] == 137 && WHOLES[32] == 5;
    assert K[33] as nat == 773529912 && PRIMES[33] == 139 && WHOLES[33] == 5;
    assert K[34] as nat == 1294757372 && PRIMES[34] == 149 && WHOLES[34] == 5;
    assert K[35] as nat == 1396182291 && PRIMES[35] == 151 && WHOLES[35] == 5;
  }

  lemma Constants36()
    ensures Quarter(36)
  {
    assert K[36] as nat == 1695183700 && PRIMES[36] == 157 && WHOLES[36] == 5;
    assert K[37] as nat == 1986661051 && PRIMES[37] == 163 && WHOLES[37] == 5;
    assert K[38] as nat == 2177026350 && PRIMES[38] == 167 && WHOLES[38] == 5;
    assert K[39] as nat == 2456956037 && PRIMES[39] == 173 && WHOLES[39] == 5;
  }

  lemma Constants40()
    ensures Quarter(40)
  {
    assert K[40] as nat == 2730485921 && PRIMES[40] == 179 && WHOLES[40] == 5;
    assert K[41] as nat == 2820302411 && PRIMES[41] == 181 && WHOLES[41] == 5;
    assert K[42] as nat == 3259730800 && PRIMES[42] == 191 && WHOLES[42] == 5;
    assert K[43] as nat == 3345764771 && PRIMES[43] == 193 && WHOLES[43] == 5;
  }

  lemma Constants44()
    ensures Quarter(44)
  {
    assert K[44] as nat == 3516065817 && PRIMES[44] == 197 && WHOLES[44] == 5;
    assert K[45] as nat == 3600352804 && PRIMES[45] == 199 && WHOLES[45] == 5;
    assert K[46] as nat == 4094571909 && PRIMES[46] == 211 && WHOLES[46] == 5;
    assert K[47] as nat == 275423344 && PRIMES[47] == 223 && WHOLES[47] == 6;
  }

  lemma Constants48()
    ensures Quarter(48)
  {
    assert K[48] as nat == 430227734 && PRIMES[48] == 227 && WHOLES[48] == 6;
    assert K[49] as nat == 506948616 && PRIMES[49] == 229 && WHOLES[49] == 6;
    assert K[50] as nat == 659060556 && PRIMES[50] == 233 && WHOLES[50] == 6;
    assert K[51] as nat == 883997877 && PRIMES[51] == 239 && WHOLES[51] == 6;
  }

  lemma Constants52()
    ensures Quarter(52)
  {
    assert K[52] as nat == 958139571 && PRIMES[52] == 241 && WHOLES[52] == 6;
    assert K[53] as nat == 1322822218 && PRIMES[53] == 251 && WHOLES[53] == 6;
    assert K[54] as nat == 1537002063 && PRIMES[54] == 257 && WHOLES[54] == 6;
    assert K[55] as nat == 1747873779 && PRIMES[55] == 263 && WHOLES[55] == 6;
  }

  lemma Constants56()
    ensures Quarter(56)
  {
    assert K[56] as nat == 1955562222 && PRIMES[56] == 269 && WHOLES[56] == 6;
    assert K[57] as nat == 2024104815 && PRIMES[57] == 271 && WHOLES[57] == 6;
    assert K[58] as nat == 2227730452 && PRIMES[58] == 277 && WHOLES[58] == 6;
    assert K[59] as nat == 2361852424 && PRIMES[59] == 281 && WHOLES[59] == 6;
  }

  lemma Constants60()
    ensures Quarter(60)
  {
    assert K[60] as nat == 2428436474 && PRIMES[60] == 283 && WHOLES[60] == 6;
    assert K[61] as nat == 2756734187 && PRIMES[61] == 293 && WHOLES[61] == 6;
    assert K[62] as nat == 3204031479 && PRIMES[62] == 307 && WHOLES[62] == 6;
    assert K[63] as nat == 3329325298 && PRIMES[63] == 311 && WHOLES[63] == 6;
  }

  /** The 64 round constants are the first 32 bits of the fractional parts of the cube roots of the first 64 primes. */
  lemma RoundConstants()
    ensures AllFromPrimes(0, 64)
  {
    UpTo64();
  }

  lemma UpTo16()
    ensures AllFromPrimes(0, 16)
  {
    Constants00();
    AddQuarter(0);
    Constants04();
    AddQuarter(4);
    Constants08();
    AddQuarter(8);
    Constants12();
    AddQuarter(12);
  }

  lemma UpTo32()
    ensures AllFromPrimes(0, 32)
  {
    UpTo16();
    Constants16();
    AddQuarter(16);
    Constants20();
    AddQuarter(20);
    Constants24();
    AddQuarter(24);
    Constants28();
    AddQuarter(28);
  }

  lemma UpTo48()
    ensures AllFromPrimes(0, 48)
  {
    UpTo32();
    Constants32();
    AddQuarter(32);
    Constants36();
    AddQuarter(36);
    Constants40();
    AddQuarter(40);
    Constants44();
    AddQuarter(44);
  }

  lemma UpTo64()
    ensures AllFromPrimes(0, 64)
  {
    UpTo48();
    Constants48();
    AddQuarter(48);
    Constants52();
    AddQuarter(52);
    Constants56();
    AddQuarter(56);
    Constants60();
    AddQuarter(60);
  }

  /** The initial hash is the same of the square roots of the first eight. */
  lemma InitialHash()
    ensures SquareRootBits(PRIMES[0], 1, H0.a as nat)
    ensures SquareRootBits(PRIMES[1], 1, H0.b as nat)
    ensures SquareRootBits(PRIMES[2], 2, H0.c as nat)
    ensures SquareRootBits(PRIMES[3], 2, H0.d as nat)
    ensures SquareRootBits(PRIMES[4], 3, H0.e as nat)
    ensures SquareRootBits(PRIMES[5], 3, H0.f as nat)
    ensures SquareRootBits(PRIMES[6], 4, H0.g as nat)
    ensures SquareRootBits(PRIMES[7], 4, H0.h as nat)
  {
    assert H0.a as nat == 1779033703 && PRIMES[0] == 2;
    assert H0.b as nat == 3144134277 && PRIMES[1] == 3;
    assert H0.c as nat == 1013904242 && PRIMES[2] == 5;
    assert H0.d as nat == 2773480762 && PRIMES[3] == 7;
    assert H0.e as nat == 1359893119 && PRIMES[4] == 11;
    assert H0.f as nat == 2600822924 && PRIMES[5] == 13;
    assert H0.g as nat == 528734635 && PRIMES[6] == 17;
    assert H0.h as nat == 1541459225 && PRIMES[7] == 19;
  }

  /** A number leaves no choice of these bits. */
  lemma CubeRootUnique(p: nat, v: nat, x: nat, w: nat, y: nat)
    requires CubeRootBits(p, v, x) && CubeRootBits(p, w, y)
    ensures v == w && x == y
  {
    var r, s := v * 0x1_0000_0000 + x, w * 0x1_0000_0000 + y;
    CubeRootsMeet(p * 0x1_0000_0000_0000_0000_0000_0000, r, s);
    assert v == w && x == y;
  }

  lemma CubeRootsMeet(n: nat, r: nat, s: nat)
    requires r * r * r <= n < (r + 1) * (r + 1) * (r + 1)
    requires s * s * s <= n < (s + 1) * (s + 1) * (s + 1)
    ensures r == s
  {
    if r < s {
      Cubes(r + 1, s);
    } else if s < r {
      Cubes(s + 1, r);
    }
  }

  lemma Cubes(a: nat, b: nat)
    requires a <= b
    ensures a * a * a <= b * b * b
  {
    Times(a, a, b, b);
    Times(a * a, a, b * b, b);
  }

  lemma Times(a: nat, b: nat, c: nat, d: nat)
    requires a <= c && b <= d
    ensures a * b <= c * d
  {
    assert a * b <= c * b by { if a < c { assert (c - a) * b >= 0; } }
    assert c * b <= c * d by { if b < d { assert c * (d - b) >= 0; } }
  }
}
