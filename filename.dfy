/**
 * The default name of a new, unsaved note: `notes_DDMMYYYY_HHMMSS.txt`.
 * The clock is read by the caller and passed in as date components.
 */
module Filename {
  import opened Wrappers

  predicate IsDigit(c: char) {
    '0' <= c <= '9'
  }

  predicate AllDigits(s: string) {
    forall i :: 0 <= i < |s| ==> IsDigit(s[i])
  }

  function DigitChar(d: nat): (c: char)
    requires d < 10
    ensures IsDigit(c)
  {
    ('0' as int + d) as char
  }

  function DigitValue(c: char): (d: nat)
    requires IsDigit(c)
    ensures d < 10 && DigitChar(d) == c
  {
    c as int - '0' as int
  }

  /** The decimal digits of a natural number, without leading zeros. */
  function DigitsOf(n: nat): (r: string)
    ensures 1 <= |r| && AllDigits(r)
    ensures |r| == 1 <==> n < 10
    ensures r[0] == '0' ==> n == 0
  {
    if n < 10 then [DigitChar(n)] else DigitsOf(n / 10) + [DigitChar(n % 10)]
  }

  /** Reads a string of decimal digits back as a number. */
  function DigitsValue(s: string): nat
    requires AllDigits(s)
  {
    if s == [] then 0 else DigitsValue(s[..|s| - 1]) * 10 + DigitValue(s[|s| - 1])
  }

  lemma {:induction false} DigitsRoundTrip(n: nat)
    ensures DigitsValue(DigitsOf(n)) == n
  {
    if n >= 10 {
      DigitsRoundTrip(n / 10);
      var r := DigitsOf(n);
      assert r[..|r| - 1] == DigitsOf(n / 10);
    }
  }

  /** Number of digits of numbers in the ranges the file name relies on. */
  lemma DigitsLength(n: nat)
    ensures 10 <= n < 100 ==> |DigitsOf(n)| == 2
    ensures 1000 <= n < 10000 ==> |DigitsOf(n)| == 4
  {
    if 1000 <= n < 10000 {
      assert |DigitsOf(n / 10)| == 3 by {
        assert |DigitsOf(n / 100)| == 2 by {
          assert |DigitsOf(n / 1000)| == 1;
        }
      }
    }
  }

  /** `Number.prototype.toString()` of an integer. */
  function DecimalString(n: int): (r: string)
    ensures 1 <= |r|
    ensures n >= 0 ==> AllDigits(r)
  {
    if n < 0 then "-" + DigitsOf(-n) else DigitsOf(n)
  }

  /** The printed form starts with a minus sign exactly for negative numbers. */
  lemma MinusSign(n: int)
    ensures DecimalString(n)[0] == '-' <==> n < 0
  {
    if n >= 0 {
      assert IsDigit(DigitsOf(n)[0]);
    }
  }

  /** Different integers print differently. */
  lemma DecimalStringInjective(a: int, b: int)
    ensures DecimalString(a) == DecimalString(b) <==> a == b
  {
    if DecimalString(a) == DecimalString(b) {
      MinusSign(a);
      MinusSign(b);
      var m, n := if a < 0 then -a else a, if b < 0 then -b else b;
      assert DigitsOf(m) == DigitsOf(n) by {
        if a < 0 {
          assert DigitsOf(m) == DecimalString(a)[1..];
          assert DigitsOf(n) == DecimalString(b)[1..];
        }
      }
      DigitsRoundTrip(m);
      DigitsRoundTrip(n);
      assert m == n;
    }
  }

  /** `String.prototype.padStart` with a one-character pad: never truncates. */
  function PadStart(s: string, targetLength: nat, fill: char): (r: string)
    ensures |s| >= targetLength ==> r == s
    ensures |s| < targetLength ==> |r| == targetLength
    ensures r[|r| - |s|..] == s
    ensures forall i :: 0 <= i < |r| - |s| ==> r[i] == fill
  {
    if |s| >= targetLength then s else seq(targetLength - |s|, _ => fill) + s
  }

  /** `padZero(num, length)`: the number's decimal form, padded with zeros to `length`. */
  function PadZero(n: int, length: nat): (r: string)
    ensures n >= 0 ==> AllDigits(r)
  {
    PadStart(DecimalString(n), length, '0')
  }

  /**
   * The padded form is the decimal form with zeros in front, exactly as long
   * as `length` or the decimal form, whichever is longer.
   */
  lemma PadZeroShape(n: int, length: nat)
    ensures var d := DecimalString(n);
      |PadZero(n, length)| == if |d| >= length then |d| else length
    ensures var r, d := PadZero(n, length), DecimalString(n);
      r[|r| - |d|..] == d && forall i :: 0 <= i < |r| - |d| ==> r[i] == '0'
  {
  }

  /** A two-digit field is read back as the number it was printed from. */
  lemma PadZeroRoundTrip(n: int)
    requires 0 <= n < 100
    ensures |PadZero(n, 2)| == 2 && AllDigits(PadZero(n, 2))
    ensures DigitsValue(PadZero(n, 2)) == n
  {
    DigitsLength(n);
    var r := PadZero(n, 2);
    if n >= 10 {
      DigitsRoundTrip(n);
    } else {
      assert r == ['0', DigitChar(n)];
      assert r[..1] == ['0'];
      assert DigitsValue(r[..1]) == 0 by { assert r[..1][..0] == []; }
    }
  }

  /** The instant a name is made for; `month` is zero-based, as `Date.getMonth` returns it. */
  datatype DateParts = DateParts(day: int, month: int, year: int, hours: int, minutes: int, seconds: int)

  /**
   * `generateDefaultFileName()` at the instant `now`: the day, month and
   * year, then the hours, minutes and seconds, between `notes_`, `_` and `.txt`.
   */
  function GenerateDefaultFileName(now: DateParts): string
  {
    "notes_" + DateDigits(now) + "_" + TimeDigits(now) + ".txt"
  }

  function DateDigits(now: DateParts): string {
    PadZero(now.day, 2) + PadZero(now.month + 1, 2) + DecimalString(now.year)
  }

  function TimeDigits(now: DateParts): string {
    PadZero(now.hours, 2) + PadZero(now.minutes, 2) + PadZero(now.seconds, 2)
  }

  /** Components that print with a fixed width: two digits each, and a four-digit year. */
  predicate FixedWidth(now: DateParts) {
    && 0 <= now.day < 100 && 0 <= now.month + 1 < 100 && 1000 <= now.year < 10000
    && 0 <= now.hours < 100 && 0 <= now.minutes < 100 && 0 <= now.seconds < 100
  }

  /** Every calendar instant of a four-digit year has fixed-width components. */
  lemma CalendarIsFixedWidth(now: DateParts)
    requires 1 <= now.day <= 31 && 0 <= now.month <= 11 && 1000 <= now.year <= 9999
    requires 0 <= now.hours <= 23 && 0 <= now.minutes <= 59 && 0 <= now.seconds <= 59
    ensures FixedWidth(now)
  {
  }

  /** Reads the date components back out of a default file name. */
  function ParseDefaultFileName(name: string): Option<DateParts>
  {
    if |name| == 25 && name[..6] == "notes_" && name[14] == '_' && name[21..] == ".txt"
       && AllDigits(name[6..14]) && AllDigits(name[15..21])
    then
      assert forall i :: 6 <= i < 14 ==> IsDigit(name[i]) by {
        forall i | 6 <= i < 14 ensures IsDigit(name[i]) { assert name[i] == name[6..14][i - 6]; }
      }
      assert forall i :: 15 <= i < 21 ==> IsDigit(name[i]) by {
        forall i | 15 <= i < 21 ensures IsDigit(name[i]) { assert name[i] == name[15..21][i - 15]; }
      }
      Some(DateParts(
        DigitsValue(name[6..8]), DigitsValue(name[8..10]) - 1, DigitsValue(name[10..14]),
        DigitsValue(name[15..17]), DigitsValue(name[17..19]), DigitsValue(name[19..21])))
    else None
  }

  lemma ConcatDigits(a: string, b: string, c: string)
    requires AllDigits(a) && AllDigits(b) && AllDigits(c)
    ensures AllDigits(a + b + c)
    ensures (a + b + c)[..|a|] == a && (a + b + c)[|a|..|a| + |b|] == b && (a + b + c)[|a| + |b|..] == c
  {
    forall i | 0 <= i < |a + b + c| ensures IsDigit((a + b + c)[i]) {
      if i < |a| { assert (a + b + c)[i] == a[i]; }
      else if i < |a| + |b| { assert (a + b + c)[i] == b[i - |a|]; }
      else { assert (a + b + c)[i] == c[i - |a| - |b|]; }
    }
  }

  /** How the parser reads a name laid out as `notes_` + 8 digits + `_` + 6 digits + `.txt`. */
  lemma ParseLayout(name: string, date: string, time: string)
    requires |date| == 8 && |time| == 6 && AllDigits(date) && AllDigits(time)
    requires name == "notes_" + date + "_" + time + ".txt"
    ensures |name| == 25 && name[..6] == "notes_" && name[21..] == ".txt"
    ensures ParseDefaultFileName(name) == Some(DateParts(
      DigitsValue(date[..2]), DigitsValue(date[2..4]) - 1, DigitsValue(date[4..]),
      DigitsValue(time[..2]), DigitsValue(time[2..4]), DigitsValue(time[4..])))
  {
    assert name[6..14] == date && name[15..21] == time;
    assert name[6..8] == date[..2] && name[8..10] == date[2..4] && name[10..14] == date[4..];
    assert name[15..17] == time[..2] && name[17..19] == time[2..4] && name[19..21] == time[4..];
  }

  /**
   * For fixed-width components the name is 25 characters, starts with `notes_`,
   * ends with `.txt`, and gives back every component, the month as `month + 1`.
   */
  lemma DefaultFileNameRoundTrip(now: DateParts)
    requires FixedWidth(now)
    ensures var name := GenerateDefaultFileName(now);
      && |name| == 25 && name[..6] == "notes_" && name[21..] == ".txt"
      && ParseDefaultFileName(name) == Some(now)
  {
    var dd, mm, yyyy := PadZero(now.day, 2), PadZero(now.month + 1, 2), DecimalString(now.year);
    var hh, mi, ss := PadZero(now.hours, 2), PadZero(now.minutes, 2), PadZero(now.seconds, 2);
    PadZeroRoundTrip(now.day);
    PadZeroRoundTrip(now.month + 1);
    PadZeroRoundTrip(now.hours);
    PadZeroRoundTrip(now.minutes);
    PadZeroRoundTrip(now.seconds);
    DigitsLength(now.year);
    DigitsRoundTrip(now.year);
    ConcatDigits(dd, mm, yyyy);
    ConcatDigits(hh, mi, ss);
    ParseLayout(GenerateDefaultFileName(now), DateDigits(now), TimeDigits(now));
  }

  /** Names of fixed-width instants are equal exactly when the instants are. */
  lemma DefaultFileNameInjective(a: DateParts, b: DateParts)
    requires FixedWidth(a) && FixedWidth(b)
    ensures GenerateDefaultFileName(a) == GenerateDefaultFileName(b) <==> a == b
  {
    DefaultFileNameRoundTrip(a);
    DefaultFileNameRoundTrip(b);
  }
}
