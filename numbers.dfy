/** Decimal integers as text: JavaScript's `String(n)` and `parseInt(s, 10)`,
    Python's `str(n)` on plain decimal digits. */
module Numbers {
  import opened Wrappers
  import opened Text

  function DigitValue(c: char): nat
    requires IsDigit(c)
  {
    (c as int - '0' as int) as nat
  }

  function DigitChar(d: nat): (c: char)
    requires d < 10
    ensures IsDigit(c) && DigitValue(c) == d
  {
    ('0' as int + d) as char
  }

  /** The value of a run of decimal digits, most significant first. */
  function DigitsValue(s: string): nat
    requires forall i :: 0 <= i < |s| ==> IsDigit(s[i])
  {
    if |s| == 0 then 0 else DigitsValue(s[..|s| - 1]) * 10 + DigitValue(s[|s| - 1])
  }

  /** The decimal digits of `n`, without leading zeros. */
  function ShowNat(n: nat): (s: string)
    ensures IsDigits(s)
  {
    if n < 10 then [DigitChar(n)] else ShowNat(n / 10) + [DigitChar(n % 10)]
  }

  /** `String(n)` / `str(n)` for an integer. */
  function ShowInt(n: int): string
  {
    if n < 0 then "-" + ShowNat(-n) else ShowNat(n)
  }

  lemma {:induction false} ShowNatValue(n: nat)
    ensures DigitsValue(ShowNat(n)) == n
  {
    if n >= 10 {
      ShowNatValue(n / 10);
      var s := ShowNat(n);
      assert s[..|s| - 1] == ShowNat(n / 10);
    }
  }

  /** What follows an optional leading sign. */
  function Unsigned(t: string): (b: string)
    ensures |b| <= |t| && b == t[|t| - |b|..]
  {
    if |t| > 0 && (t[0] == '-' || t[0] == '+') then t[1..] else t
  }

  /** The longest run of digits at the start of `b`. */
  function LeadingDigits(b: string): (d: string)
    ensures |d| <= |b| && d == b[..|d|] && forall i :: 0 <= i < |d| ==> IsDigit(d[i])
    ensures |d| < |b| ==> !IsDigit(b[|d|])
  {
    b[..RunEnd(b, 0, IsDigit)]
  }

  /** `parseInt(s, 10)`: leading whitespace is skipped, then an optional sign,
      then the longest run of digits; no digit there gives `NaN` (None). */
  function ParseIntJs(s: string): (r: Option<int>)
    ensures r.None? <==> var b := Unsigned(StripLeft(s)); |b| == 0 || !IsDigit(b[0])
  {
    var t := StripLeft(s);
    var d := LeadingDigits(Unsigned(t));
    var v: int := if |d| == 0 then 0 else DigitsValue(d);
    if |d| == 0 then None
    else if t[0] == '-' then Some(-v)
    else Some(v)
  }

  /** Reading back what `String(n)` wrote gives `n`. */
  lemma ParseShowInt(n: int)
    ensures ParseIntJs(ShowInt(n)) == Some(n)
  {
    var m := if n < 0 then -n else n;
    var d := ShowNat(m);
    ShowNatValue(m);
    var s := ShowInt(n);
    assert StripLeft(s) == s by {
      assert !IsSpace(s[0]);
    }
    assert Unsigned(s) == d;
    assert RunEnd(d, 0, IsDigit) == |d|;
    assert LeadingDigits(d) == d;
  }
}
