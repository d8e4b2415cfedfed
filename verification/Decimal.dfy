/** Decimal numbers as the source prints them with %u and %llu and reads them digit by digit. */
module Decimal {
  import opened Bytes

  const DIGITS: Bytes := [0x30, 0x31, 0x32, 0x33, 0x34, 0x35, 0x36, 0x37, 0x38, 0x39]

  predicate IsDigit(b: byte) { 0x30 <= b <= 0x39 }

  predicate AllDigits(s: Bytes) { forall i :: 0 <= i < |s| ==> IsDigit(s[i]) }

  function DigitValue(b: byte): (d: nat)
    requires IsDigit(b)
    ensures d < 10 && DIGITS[d] == b
  {
    DigitInRange(b);
    b as nat - 0x30
  }

  lemma DigitInRange(b: byte)
    requires IsDigit(b)
    ensures 0x30 <= b as nat <= 0x39 && DIGITS[b as nat - 0x30] == b
  {
    if b == 0x30 || b == 0x31 || b == 0x32 || b == 0x33 || b == 0x34 {
    } else if b == 0x35 || b == 0x36 || b == 0x37 || b == 0x38 {
    } else {
      assert b == 0x39;
    }
  }

  lemma DigitOf(d: nat)
    requires d < 10
    ensures IsDigit(DIGITS[d]) && DigitValue(DIGITS[d]) == d
  {
    assert DIGITS[0] as nat == 0x30 && DIGITS[1] as nat == 0x31 && DIGITS[2] as nat == 0x32;
    assert DIGITS[3] as nat == 0x33 && DIGITS[4] as nat == 0x34 && DIGITS[5] as nat == 0x35;
    assert DIGITS[6] as nat == 0x36 && DIGITS[7] as nat == 0x37 && DIGITS[8] as nat == 0x38;
    assert DIGITS[9] as nat == 0x39;
  }

  /** The shortest decimal text of `n`. */
  function Print(n: nat): Bytes {
    if n < 10 then [DIGITS[n]] else Print(n / 10) + [DIGITS[n % 10]]
  }

  function Value(s: Bytes): nat
    requires AllDigits(s)
  {
    if s == [] then 0 else 10 * Value(s[..|s| - 1]) + DigitValue(s[|s| - 1])
  }

  /** Nonempty, all digits, and no zero in front of another digit. */
  predicate Canonical(s: Bytes) {
    s != [] && AllDigits(s) && (|s| > 1 ==> s[0] != 0x30)
  }

  /** Reading a printed number gives it back. */
  lemma {:induction false} PrintRoundTrip(n: nat)
    ensures Canonical(Print(n)) && Value(Print(n)) == n
    ensures n > 0 ==> Print(n)[0] != 0x30
  {
    if n < 10 {
      DigitOf(n);
      assert Print(n)[..0] == [];
    } else {
      PrintRoundTrip(n / 10);
      DigitOf(n % 10);
      var s := Print(n);
      assert s[..|s| - 1] == Print(n / 10);
    }
  }

  /** A canonical text is the printed form of its value, so there is exactly one for every number. */
  lemma {:induction false} CanonicalIsPrinted(s: Bytes)
    requires Canonical(s)
    ensures Print(Value(s)) == s
    ensures s[0] != 0x30 ==> Value(s) > 0
  {
    var init, last := s[..|s| - 1], s[|s| - 1];
    if init == [] {
      assert Value(s) == DigitValue(last);
    } else {
      CanonicalIsPrinted(init);
      assert Value(s) == 10 * Value(init) + DigitValue(last);
      assert Value(s) / 10 == Value(init) && Value(s) % 10 == DigitValue(last);
      assert s == init + [last];
    }
  }

  lemma PrintInjective(m: nat, n: nat)
    requires Print(m) == Print(n)
    ensures m == n
  {
    PrintRoundTrip(m);
    PrintRoundTrip(n);
  }

  /** Putting digits after others never makes the number smaller. */
  lemma {:induction false} ValuePrefix(s: Bytes, k: nat)
    requires AllDigits(s) && k <= |s|
    ensures Value(s[..k]) <= Value(s)
    decreases |s|
  {
    if k == |s| {
      assert s[..k] == s;
    } else {
      var init := s[..|s| - 1];
      assert s[..k] == init[..k];
      ValuePrefix(init, k);
    }
  }

  lemma {:induction false} PrintLength(n: nat, digits: nat)
    requires digits == 1 || digits == 2 || digits == 3 || digits == 4
    requires n < (match digits case 1 => 10 case 2 => 100 case 3 => 1000 case _ => 10000)
    ensures |Print(n)| <= digits
  {
    if n >= 10 {
      PrintLength(n / 10, digits - 1);
    }
  }
}
