/** Numbers and fields as text, the way the FIX builder prints them and the parser reads
    them back. A byte is a char; a byte string is a string. */
module FixText {

  const SOH: char := '\U{0001}'
  const NUL: char := '\U{0000}'

  predicate IsDigit(c: char) {
    '0' <= c <= '9'
  }

  function DigitOf(n: int): (c: char)
    requires 0 <= n < 10
    ensures IsDigit(c)
  {
    (n + '0' as int) as char
  }

  function ValueOf(c: char): (n: int)
    requires IsDigit(c)
    ensures 0 <= n < 10
  {
    c as int - '0' as int
  }

  // ---- Printing ---------------------------------------------------------------

  /** A number in decimal without leading zeros. */
  function Digits(n: nat): (s: string)
    ensures s != ""
  {
    if n < 10 then [DigitOf(n)] else Digits(n / 10) + [DigitOf(n % 10)]
  }

  /** Three digits with leading zeros, as %03u prints numbers below a thousand. */
  function ThreeDigits(n: nat): string
    requires n < 1000
  {
    [DigitOf(n / 100), DigitOf(n / 10 % 10), DigitOf(n % 10)]
  }

  function IntText(n: int): string {
    if n < 0 then "-" + Digits(-n) else Digits(n)
  }

  // ---- Reading ------------------------------------------------------------------

  /** A tag number: the decimal value, or -1 if there is anything but digits. */
  function TagNumber(s: string): int
    decreases |s|
  {
    if s == "" then 0
    else
      var before := TagNumber(s[..|s| - 1]);
      if before < 0 || !IsDigit(s[|s| - 1]) then -1 else before * 10 + ValueOf(s[|s| - 1])
  }

  /** The value of the digits of a text, whatever stands between them. */
  function LooseNumber(s: string): (n: int)
    ensures n >= 0
    decreases |s|
  {
    if s == "" then 0
    else
      var before := LooseNumber(s[..|s| - 1]);
      if IsDigit(s[|s| - 1]) then before * 10 + ValueOf(s[|s| - 1]) else before
  }

  /** The value of the leading digits, continuing from `acc`. */
  function LeadingNumber(s: string, acc: int): int
    decreases |s|
  {
    if s == "" || !IsDigit(s[0]) then acc else LeadingNumber(s[1..], acc * 10 + ValueOf(s[0]))
  }

  /** A field value as an int: optional minus sign, then the leading digits. */
  function AsInt(value: string, fallback: int): int {
    if value == "" then fallback
    else if value[0] == '-' then -LeadingNumber(value[1..], 0)
    else LeadingNumber(value, 0)
  }

  ghost predicate AllDigits(s: string) {
    forall k :: 0 <= k < |s| ==> IsDigit(s[k])
  }

  lemma {:induction false} DigitsAreDigits(n: nat)
    ensures AllDigits(Digits(n))
  {
    if n >= 10 {
      DigitsAreDigits(n / 10);
    }
  }

  /** Reading a printed tag gives the tag back. */
  lemma {:induction false} TagNumberOfDigits(n: nat)
    ensures TagNumber(Digits(n)) == n
  {
    if n >= 10 {
      TagNumberOfDigits(n / 10);
      assert Digits(n)[..|Digits(n)| - 1] == Digits(n / 10);
    } else {
      assert Digits(n)[..0] == "";
    }
  }

  /** Anything but digits makes a tag number negative. */
  lemma {:induction false} NoTagNumber(s: string, k: nat)
    requires k < |s| && !IsDigit(s[k])
    ensures TagNumber(s) == -1
    decreases |s|
  {
    if k < |s| - 1 {
      NoTagNumber(s[..|s| - 1], k);
    }
  }

  lemma TagNumbersAreDigits(s: string)
    requires TagNumber(s) >= 0
    ensures AllDigits(s)
  {
    forall k | 0 <= k < |s| ensures IsDigit(s[k]) {
      if !IsDigit(s[k]) {
        NoTagNumber(s, k);
      }
    }
  }

  /** A tag number is the decimal value of digits and nothing else; no digits at all count as zero. */
  lemma TagNumberReads(s: string, c: char)
    ensures TagNumber("") == 0
    ensures TagNumber(s) >= 0 <==> forall k :: 0 <= k < |s| ==> '0' <= s[k] <= '9'
    ensures TagNumber(s) >= 0 && '0' <= c <= '9' ==> TagNumber(s + [c]) == 10 * TagNumber(s) + (c as int - '0' as int)
  {
    assert (s + [c])[..|s|] == s;
    if TagNumber(s) >= 0 {
      TagNumbersAreDigits(s);
    } else {
      DigitsHaveNumbers(s);
    }
  }

  lemma {:induction false} DigitsHaveNumbers(s: string)
    ensures AllDigits(s) ==> TagNumber(s) >= 0
    decreases |s|
  {
    if s != "" {
      DigitsHaveNumbers(s[..|s| - 1]);
    }
  }

  /** The digits of a text, without whatever stands between them. */
  function OnlyDigits(s: string): string
    decreases |s|
  {
    if s == "" then "" else OnlyDigits(s[..|s| - 1]) + if '0' <= s[|s| - 1] <= '9' then [s[|s| - 1]] else ""
  }

  /** A checksum is read as the number of its digits. */
  lemma {:induction false} LooseReadsDigits(s: string)
    ensures LooseNumber(s) == TagNumber(OnlyDigits(s)) && AllDigits(OnlyDigits(s))
    decreases |s|
  {
    if s != "" {
      LooseReadsDigits(s[..|s| - 1]);
      var before := OnlyDigits(s[..|s| - 1]);
      TagNumberReads(before, s[|s| - 1]);
      if !IsDigit(s[|s| - 1]) {
        assert before + "" == before;
      }
    }
  }

  lemma {:induction false} LeadingSnoc(s: string, c: char, acc: int)
    requires AllDigits(s) && IsDigit(c)
    ensures LeadingNumber(s + [c], acc) == LeadingNumber(s, acc) * 10 + ValueOf(c)
    decreases |s|
  {
    if s == "" {
      assert ("" + [c])[1..] == "";
    } else {
      assert (s + [c])[1..] == s[1..] + [c];
      LeadingSnoc(s[1..], c, acc * 10 + ValueOf(s[0]));
    }
  }

  lemma {:induction false} LeadingOfDigits(n: nat)
    ensures LeadingNumber(Digits(n), 0) == n
  {
    if n >= 10 {
      LeadingOfDigits(n / 10);
      DigitsAreDigits(n / 10);
      LeadingSnoc(Digits(n / 10), DigitOf(n % 10), 0);
    } else {
      assert Digits(n)[1..] == "";
    }
  }

  /** Reading a printed int gives the int back. */
  lemma AsIntOfText(n: int, fallback: int)
    ensures AsInt(IntText(n), fallback) == n
  {
    if n < 0 {
      LeadingOfDigits(-n);
      assert IntText(n)[1..] == Digits(-n);
    } else {
      LeadingOfDigits(n);
      DigitsAreDigits(n);
    }
  }

  lemma {:induction false} LeadingReads(digits: string, more: string, acc: int)
    requires AllDigits(digits) && (more != "" ==> !IsDigit(more[0]))
    ensures LeadingNumber(digits + more, acc) == LeadingNumber(digits, acc)
    decreases |digits|
  {
    if digits == "" {
      assert "" + more == more;
    } else {
      assert (digits + more)[1..] == digits[1..] + more;
      LeadingReads(digits[1..], more, acc * 10 + ValueOf(digits[0]));
    }
  }

  lemma {:induction false} LeadingIsTagNumber(digits: string)
    requires AllDigits(digits)
    ensures LeadingNumber(digits, 0) == TagNumber(digits)
    decreases |digits|
  {
    if digits != "" {
      var n := |digits| - 1;
      LeadingIsTagNumber(digits[..n]);
      LeadingSnoc(digits[..n], digits[n], 0);
      DigitsHaveNumbers(digits[..n]);
      assert digits == digits[..n] + [digits[n]];
    }
  }

  /** A number is read from the digits at the front, behind a minus sign if there is one, whatever
      comes after them; nothing at all gives the fallback. */
  lemma AsIntReads(digits: string, more: string, fallback: int)
    requires AllDigits(digits) && (more != "" ==> !IsDigit(more[0])) && (digits == "" && more != "" ==> more[0] != '-')
    ensures AsInt("", fallback) == fallback
    ensures digits + more != "" ==> AsInt(digits + more, fallback) == TagNumber(digits)
    ensures AsInt("-" + (digits + more), fallback) == -TagNumber(digits)
  {
    LeadingReads(digits, more, 0);
    LeadingIsTagNumber(digits);
    assert ("-" + (digits + more))[1..] == digits + more;
    if digits != "" {
      assert (digits + more)[0] == digits[0];
    } else {
      assert digits + more == more;
    }
  }

  /** Reading the three digits of a checksum gives the checksum back. */
  lemma LooseOfThree(n: nat)
    requires n < 1000
    ensures LooseNumber(ThreeDigits(n)) == n
  {
    var a, b, c := n / 100, n / 10 % 10, n % 10;
    LooseSnoc("", DigitOf(a));
    LooseSnoc([DigitOf(a)], DigitOf(b));
    LooseSnoc([DigitOf(a), DigitOf(b)], DigitOf(c));
    hide LooseNumber;
    assert "" + [DigitOf(a)] == [DigitOf(a)];
    assert [DigitOf(a)] + [DigitOf(b)] == [DigitOf(a), DigitOf(b)];
    assert [DigitOf(a), DigitOf(b)] + [DigitOf(c)] == ThreeDigits(n);
  }

  lemma LooseSnoc(s: string, c: char)
    ensures LooseNumber(s + [c]) == if IsDigit(c) then LooseNumber(s) * 10 + ValueOf(c) else LooseNumber(s)
    ensures LooseNumber("") == 0
  {
    assert (s + [c])[..|s|] == s;
  }

  // ---- Searching -------------------------------------------------------------------

  /** First position of a character, or the length. */
  function IndexOf(s: string, c: char): (k: nat)
    ensures k <= |s| && (k < |s| ==> s[k] == c)
    ensures forall j :: 0 <= j < k ==> s[j] != c
    decreases |s|
  {
    if s == "" then 0
    else if s[0] == c then 0
    else
      var k := IndexOf(s[1..], c);
      assert forall j :: 0 < j < k + 1 ==> s[j] == s[1..][j - 1];
      k + 1
  }

  lemma IndexOfFirst(a: string, c: char, b: string)
    requires c !in a
    ensures IndexOf(a + [c] + b, c) == |a|
  {
    var s := a + [c] + b;
    assert s[|a|] == c;
    assert forall j :: 0 <= j < |a| ==> s[j] == a[j];
  }

  /** What the C library prints of a string: everything before the first NUL. */
  function CText(s: string): string {
    s[..IndexOf(s, NUL)]
  }

  lemma CTextOfClean(s: string)
    ensures CText(s) == s <==> NUL !in s
  {
    if NUL in s {
      var k := IndexOf(s, NUL);
      assert k < |s|;
    } else {
      assert s[..|s|] == s;
    }
  }

  /** Nothing is lost by printing a second time. */
  lemma CTextIsPrinted(s: string)
    ensures CText(CText(s)) == CText(s) && NUL !in CText(s)
  {
    CTextOfClean(CText(s));
  }

  // ---- Sums --------------------------------------------------------------------------

  function ByteSum(s: string): (n: nat)
    decreases |s|
  {
    if s == "" then 0 else ByteSum(s[..|s| - 1]) + s[|s| - 1] as int
  }

  lemma {:induction false} ByteSumAdds(a: string, b: string)
    ensures ByteSum(a + b) == ByteSum(a) + ByteSum(b)
    decreases |b|
  {
    if b == "" {
      assert a + b == a;
    } else {
      var n := |b| - 1;
      assert (a + b)[..|a + b| - 1] == a + b[..n];
      ByteSumAdds(a, b[..n]);
    }
  }
}
