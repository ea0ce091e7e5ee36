/** Calendar dates as the importer reads them: the fixed format
    "%Y-%m-%d", with the range checks of a Python date (years 1 to 9999,
    days that exist in their month, leap years included). */
module Dates {
  import opened Json

  datatype Date = Date(year: nat, month: nat, day: nat)

  predicate IsLeapYear(y: int)
  {
    y % 4 == 0 && (y % 100 != 0 || y % 400 == 0)
  }

  function DaysInMonth(y: int, m: int): int
  {
    if m == 2 then (if IsLeapYear(y) then 29 else 28)
    else if m == 4 || m == 6 || m == 9 || m == 11 then 30
    else 31
  }

  /** A date a Python `date` can hold. */
  predicate ValidDate(d: Date)
  {
    1 <= d.year <= 9999 && 1 <= d.month <= 12 && 1 <= d.day <= DaysInMonth(d.year, d.month)
  }

  predicate IsDigit(c: char)
  {
    '0' <= c <= '9'
  }

  predicate AllDigits(s: string)
  {
    forall i :: 0 <= i < |s| ==> IsDigit(s[i])
  }

  function Pow10(n: nat): (r: nat)
    ensures r >= 1
  {
    if n == 0 then 1 else 10 * Pow10(n - 1)
  }

  /** The number a string of decimal digits spells. */
  function Number(s: string): (r: nat)
    requires AllDigits(s)
    ensures r < Pow10(|s|)
  {
    if s == [] then 0
    else Number(s[..|s| - 1]) * 10 + (s[|s| - 1] as int - '0' as int)
  }

  /** `n` written in exactly `width` decimal digits, with leading zeros. */
  function Digits(n: nat, width: nat): (r: string)
    ensures |r| == width && AllDigits(r)
  {
    if width == 0 then ""
    else Digits(n / 10, width - 1) + [('0' as int + n % 10) as char]
  }

  lemma {:induction false} NumberOfDigits(n: nat, width: nat)
    requires n < Pow10(width)
    ensures Number(Digits(n, width)) == n
  {
    if width > 0 {
      NumberOfDigits(n / 10, width - 1);
      var s := Digits(n, width);
      assert s[..|s| - 1] == Digits(n / 10, width - 1);
    }
  }

  lemma {:induction false} DigitsOfNumber(s: string)
    requires AllDigits(s)
    ensures Digits(Number(s), |s|) == s
  {
    if s != [] {
      var init := s[..|s| - 1];
      DigitsOfNumber(init);
      assert AllDigits(init);
      assert Number(s) / 10 == Number(init);
      assert s == init + [s[|s| - 1]];
    }
  }

  /** The text "%Y-%m-%d" gives for a date. */
  function FormatDate(d: Date): (r: string)
    ensures |r| == 10 && r[4] == '-' && r[7] == '-'
  {
    Digits(d.year, 4) + "-" + Digits(d.month, 2) + "-" + Digits(d.day, 2)
  }

  /** Text of the "%Y-%m-%d" shape whose fields spell a valid date is that
      date's text. */
  lemma FormatOfFields(s: string)
    requires |s| == 10 && s[4] == '-' && s[7] == '-'
    requires AllDigits(s[..4]) && AllDigits(s[5..7]) && AllDigits(s[8..])
    ensures FormatDate(Date(Number(s[..4]), Number(s[5..7]), Number(s[8..]))) == s
  {
    var year, month, day := s[..4], s[5..7], s[8..];
    DigitsOfNumber(year);
    DigitsOfNumber(month);
    DigitsOfNumber(day);
    assert s[4..5] == "-" && s[7..8] == "-";
    assert s[7..] == s[7..8] + day;
    assert s[5..] == month + s[7..];
    assert s[4..] == s[4..5] + s[5..];
    assert s == year + s[4..];
  }

  /** strptime(s, "%Y-%m-%d"), read strictly: four-digit year, two-digit
      month and day, and a date that exists. */
  function ParseDate(s: string): (r: Option<Date>)
    ensures r.Some? ==> ValidDate(r.value) && FormatDate(r.value) == s
  {
    if |s| == 10 && s[4] == '-' && s[7] == '-'
       && AllDigits(s[..4]) && AllDigits(s[5..7]) && AllDigits(s[8..])
    then
      var d := Date(Number(s[..4]), Number(s[5..7]), Number(s[8..]));
      if ValidDate(d) then
        FormatOfFields(s);
        Some(d)
      else None
    else None
  }

  /** Formatting a valid date and parsing the text gives the date back. */
  lemma FormatThenParse(d: Date)
    requires ValidDate(d)
    ensures ParseDate(FormatDate(d)) == Some(d)
  {
    var s := FormatDate(d);
    assert s[..4] == Digits(d.year, 4);
    assert s[5..7] == Digits(d.month, 2);
    assert s[8..] == Digits(d.day, 2);
    assert Pow10(4) == 10000 && Pow10(2) == 100;
    NumberOfDigits(d.year, 4);
    NumberOfDigits(d.month, 2);
    NumberOfDigits(d.day, 2);
  }

  /** One more digit at the end of the text of `n / 10`. */
  lemma DigitStep(n: nat, width: nat, text: string, c: char)
    requires width > 0 && Digits(n / 10, width - 1) == text && c == ('0' as int + n % 10) as char
    ensures Digits(n, width) == text + [c]
  {
  }

  /** The text of the birth date of the laureate record shown with the
      importer. */
  lemma ExampleBirthText()
    ensures FormatDate(Date(1896, 2, 28)) == "1896-02-28"
  {
    DigitStep(1, 1, "", '1');
    DigitStep(18, 2, "1", '8');
    DigitStep(189, 3, "18", '9');
    DigitStep(1896, 4, "189", '6');
    DigitStep(0, 1, "", '0');
    DigitStep(2, 2, "0", '2');
    DigitStep(2, 1, "", '2');
    DigitStep(28, 2, "2", '8');
  }

  /** The text of its death date. */
  lemma ExampleDeathText()
    ensures FormatDate(Date(1965, 3, 30)) == "1965-03-30"
  {
    DigitStep(1, 1, "", '1');
    DigitStep(19, 2, "1", '9');
    DigitStep(196, 3, "19", '6');
    DigitStep(1965, 4, "196", '5');
    DigitStep(0, 1, "", '0');
    DigitStep(3, 2, "0", '3');
    DigitStep(3, 1, "", '3');
    DigitStep(30, 2, "3", '0');
  }

  /** The birth date of that record parses to 28 February 1896. */
  lemma ExampleBirthDate()
    ensures ParseDate("1896-02-28") == Some(Date(1896, 2, 28))
  {
    ExampleBirthText();
    FormatThenParse(Date(1896, 2, 28));
  }
}
