/** Small facts about strings used by several components. */
module Text {

  /** `m.endswith(t)` */
  predicate EndsWith(m: string, t: string) {
    |t| <= |m| && m[|m| - |t|..] == t
  }

  /** The last two characters of a string, last first. */
  function LastTwo(s: string): (char, char)
    requires |s| >= 2
  {
    (s[|s| - 1], s[|s| - 2])
  }

  lemma EndsWithLastTwo(m: string, t: string)
    requires |t| >= 2 && EndsWith(m, t)
    ensures LastTwo(m) == LastTwo(t)
  {
  }

  predicate IsDigit(c: char) {
    '0' <= c <= '9'
  }

  predicate AllDigits(s: string) {
    forall i :: 0 <= i < |s| ==> IsDigit(s[i])
  }

  /** The number a string of decimal digits denotes. */
  function DecimalValue(s: string): nat
    requires AllDigits(s)
  {
    if |s| == 0 then 0
    else DecimalValue(s[..|s| - 1]) * 10 + ((s[|s| - 1] as int) - ('0' as int))
  }

  function DigitChar(d: nat): (c: char)
    requires d < 10
    ensures IsDigit(c) && (c as int) - ('0' as int) == d
  {
    (('0' as int) + d) as char
  }

  /** Decimal digits of a natural number, most significant first: they
      read back as the number, and there is no leading zero (zero itself
      is the single digit `0`). */
  function Digits(n: nat): (r: string)
    ensures |r| >= 1 && AllDigits(r)
    ensures DecimalValue(r) == n
    ensures r[0] == '0' ==> r == "0"
    decreases n
  {
    if n < 10 then [DigitChar(n)]
    else
      var r := Digits(n / 10) + [DigitChar(n % 10)];
      assert r[..|r| - 1] == Digits(n / 10);
      r
  }

  /** Python's `str(n)` for an integer: a minus sign exactly for negative
      numbers, followed by the decimal digits of the magnitude. */
  function IntText(n: int): (r: string)
    ensures |r| >= 1
    ensures r[0] == '-' <==> n < 0
    ensures n >= 0 ==> AllDigits(r) && DecimalValue(r) == n
    ensures n < 0 ==> |r| >= 2 && AllDigits(r[1..]) && DecimalValue(r[1..]) == -n
    ensures n >= 0 ==> (r[0] == '0' ==> r == "0")
    ensures n < 0 ==> r[1] != '0'
  {
    if n < 0 then
      var r := "-" + Digits(-n);
      assert r[1..] == Digits(-n);
      r
    else Digits(n)
  }
}
