/** Numbers as decimal digits, as `std::to_string` writes and `atoi` reads them. */
module DecimalText {

  predicate IsDigit(c: char) { '0' <= c <= '9' }

  function Digit(d: nat): (c: char)
    requires d < 10
    ensures IsDigit(c) && c as int - '0' as int == d
  {
    '0' + d as char
  }

  function Digits(n: nat): (s: string)
    ensures s != "" && forall i :: 0 <= i < |s| ==> IsDigit(s[i])
  {
    if n < 10 then [Digit(n)] else Digits(n / 10) + [Digit(n % 10)]
  }

  function Value(s: string): nat
    requires forall i :: 0 <= i < |s| ==> IsDigit(s[i])
  {
    if s == "" then 0
    else
      assert IsDigit(s[|s| - 1]);
      Value(s[..|s| - 1]) * 10 + (s[|s| - 1] as int - '0' as int)
  }

  lemma {:induction false} ValueOfDigits(n: nat)
    ensures Value(Digits(n)) == n
  {
    if n >= 10 {
      ValueOfDigits(n / 10);
      assert Digits(n)[..|Digits(n)| - 1] == Digits(n / 10);
    } else {
      assert [Digit(n)][..0] == "";
    }
  }

  function Pow10(k: nat): nat { if k == 0 then 1 else 10 * Pow10(k - 1) }

  lemma {:induction false} DigitsLength(n: nat, k: nat)
    requires k > 0 && n < Pow10(k)
    ensures |Digits(n)| <= k
    decreases k
  {
    if n >= 10 {
      assert Pow10(1) == 10 * Pow10(0);
      DigitsLength(n / 10, k - 1);
    }
  }

  /** Where the digits that begin at `i` end. */
  function DigitsEnd(s: string, i: nat): (e: nat)
    requires i <= |s|
    ensures i <= e <= |s| && (forall j :: i <= j < e ==> IsDigit(s[j])) && (e < |s| ==> !IsDigit(s[e]))
    decreases |s| - i
  {
    if i < |s| && IsDigit(s[i]) then DigitsEnd(s, i + 1) else i
  }

  predicate IsBlank(c: char) { c == ' ' || '\t' <= c <= '\r' }

  function SkipBlanks(s: string, i: nat): (e: nat)
    requires i <= |s|
    ensures i <= e <= |s|
    decreases |s| - i
  {
    if i < |s| && IsBlank(s[i]) then SkipBlanks(s, i + 1) else i
  }

  /** `atoi`: blanks, a sign, and as many digits as there are. */
  function Atoi(s: string): int {
    var b := SkipBlanks(s, 0);
    var signed := b < |s| && (s[b] == '+' || s[b] == '-');
    var d := if signed then b + 1 else b;
    var e := DigitsEnd(s, d);
    assert forall j :: 0 <= j < e - d ==> s[d..e][j] == s[d + j];
    var v: int := Value(s[d..e]);
    if signed && s[b] == '-' then -v else v
  }

  lemma AtoiOfDigits(n: nat)
    ensures Atoi(Digits(n)) == n
  {
    var s := Digits(n);
    ValueOfDigits(n);
    assert IsDigit(s[0]);
    AllDigits(s, 0);
    assert s[0..|s|] == s;
  }

  /** A line end before the digits is passed over. */
  lemma AtoiAfterLine(n: nat)
    ensures Atoi("\n" + Digits(n)) == n
  {
    var s := "\n" + Digits(n);
    ValueOfDigits(n);
    assert IsDigit(s[1]) && SkipBlanks(s, 0) == 1;
    assert forall j :: 1 <= j < |s| ==> s[j] == Digits(n)[j - 1];
    DigitsAfter(s, 1);
    assert s[1..|s|] == Digits(n);
  }

  lemma DigitsAfter(s: string, i: nat)
    requires 1 <= i <= |s| && forall j :: 1 <= j < |s| ==> IsDigit(s[j])
    ensures DigitsEnd(s, i) == |s|
    decreases |s| - i
  {
    if i < |s| { DigitsAfter(s, i + 1); }
  }

  lemma AllDigits(s: string, i: nat)
    requires i <= |s| && forall j :: 0 <= j < |s| ==> IsDigit(s[j])
    ensures DigitsEnd(s, i) == |s|
  {
  }

  /** The digits are the usual ones, the first being the most significant. */
  lemma Numerals()
    ensures Digits(0) == "0" && Digits(7) == "7" && Digits(1234567890) == "1234567890"
    ensures forall d :: 0 <= d < 10 ==> Digit(d) == "0123456789"[d]
  {
    assert Digits(12) == Digits(1) + [Digit(2)] == "12";
    assert Digits(123) == "123";
    assert Digits(1234) == "1234";
    assert Digits(12345) == "12345";
    assert Digits(123456) == "123456";
    assert Digits(1234567) == "1234567";
    assert Digits(12345678) == "12345678";
    assert Digits(123456789) == "123456789";
  }
}
