/** `parseDate(dateStr, isEnd)` of src/lib/dateParse.ts: a `y-m-d` filter bound read as a local
    date-time, at 07:00 for a start bound and at hour 30 (06:59:59.999 of the next day) for an
    end bound. */
module DateParse {
  import opened Common
  import opened Calendar

  /** The time value of `parseDate(s, isEnd)`, or None for an Invalid Date. The string is split
      on "-", each of the first three parts goes through `Number`, and the month is 1-based. A
      missing part or a part that is not a number gives NaN and so an Invalid Date. */
  function ParseDate(s: string, isEnd: bool, tz: TzOffset): (r: Option<int>)
    ensures |Split(s, '-')| < 3 ==> r.None?
  {
    match DateFields(s)
    case None => None
    case Some((y, m, d)) =>
      if isEnd then NewDate(y, m - 1, d, 30, 59, 59, 999, tz)
      else NewDate(y, m - 1, d, 7, 0, 0, 0, tz)
  }

  /** `dateStr.split("-").map(Number)` destructured into its first three numbers. */
  function DateFields(s: string): (r: Option<(int, int, int)>)
    ensures |Split(s, '-')| < 3 ==> r.None?
    ensures r.Some? <==> |Split(s, '-')| >= 3 && JsNumber(Split(s, '-')[0]).Some?
                         && JsNumber(Split(s, '-')[1]).Some? && JsNumber(Split(s, '-')[2]).Some?
    ensures r.Some? ==> r.value == (JsNumber(Split(s, '-')[0]).value,
                                    JsNumber(Split(s, '-')[1]).value, JsNumber(Split(s, '-')[2]).value)
  {
    var parts := Split(s, '-');
    if |parts| < 3 then None
    else
      match (JsNumber(parts[0]), JsNumber(parts[1]), JsNumber(parts[2]))
      case (Some(y), Some(m), Some(d)) => Some((y, m, d))
      case _ => None
  }

  /** The text `y-m-d` with unpadded decimal numbers. */
  function DateText(y: nat, m: nat, d: nat): string {
    NatToString(y) + "-" + NatToString(m) + "-" + NatToString(d)
  }

  /** `Number` reads back a decimal numeral. */
  lemma JsNumberOfNat(n: nat)
    ensures JsNumber(NatToString(n)) == Some(n)
  {
    NumberOfDigits(NatToString(n));
  }

  /** `Number` of a run of decimal digits is their value. */
  lemma NumberOfDigits(s: string)
    requires s != [] && AllDigits(s)
    ensures JsNumber(s) == Some(DigitsValue(s))
  {
    TrimDigits(s);
    assert s[0] != '-' && s[0] != '+' by {
      assert IsDigit(s[0]);
    }
  }

  /** A numeral has no whitespace to trim. */
  lemma TrimDigits(s: string)
    requires s != [] && AllDigits(s)
    ensures Trim(s) == s
  {
    assert !IsJsSpace(s[0]) by {
      assert IsDigit(s[0]);
    }
    assert TrimStart(s) == s;
    assert !IsJsSpace(s[|s| - 1]) by {
      assert IsDigit(s[|s| - 1]);
    }
  }

  lemma NumeralHasNoDash(n: nat)
    ensures '-' !in NatToString(n)
  {
  }

  /** Splitting `y-m-d` on "-" gives back the three numerals. */
  lemma SplitDateText(y: nat, m: nat, d: nat)
    ensures Split(DateText(y, m, d), '-') == [NatToString(y), NatToString(m), NatToString(d)]
  {
    var parts := [NatToString(y), NatToString(m), NatToString(d)];
    NumeralHasNoDash(y);
    NumeralHasNoDash(m);
    NumeralHasNoDash(d);
    assert parts[1..][1..] == [NatToString(d)];
    assert Join(parts[1..], '-') == NatToString(m) + "-" + NatToString(d);
    assert Join(parts, '-') == NatToString(y) + "-" + (NatToString(m) + "-" + NatToString(d));
    assert Join(parts, '-') == DateText(y, m, d);
    assert forall i :: 0 <= i < |parts| ==> '-' !in parts[i];
    SplitJoin(parts, '-');
  }

  /** The start form is the date itself at 07:00:00.000 local time, the month being 1-based;
      years 0..99 are read as 1900..1999 by the Date constructor. */
  lemma ParseStart(y: nat, m: nat, d: nat, tz: TzOffset)
    requires 1 <= m <= 12
    ensures ParseDate(DateText(y, m, d), false, tz) == LocalInstant(Date(FullYear(y), m, d), 7, 0, 0, 0, tz)
  {
    DateFieldsOfText(y, m, d);
    NewDateInRange(y, m, d, 7, 0, 0, 0, tz);
  }

  /** The end form is 06:59:59.999 local time on the following calendar day, rolling over the
      end of a month and of a year. */
  lemma ParseEnd(y: nat, m: nat, d: nat, tz: TzOffset)
    requires IsValid(Date(FullYear(y), m, d))
    ensures ParseDate(DateText(y, m, d), true, tz)
         == LocalInstant(NextDay(Date(FullYear(y), m, d)), 6, 59, 59, 999, tz)
  {
    var day := Date(FullYear(y), m, d);
    DateFieldsOfText(y, m, d);
    assert ParseDate(DateText(y, m, d), true, tz) == NewDate(y, m - 1, d, 30, 59, 59, 999, tz);
    NewDateInRange(y, m, d, 30, 59, 59, 999, tz);
    assert NewDate(y, m - 1, d, 30, 59, 59, 999, tz) == LocalInstant(day, 30, 59, 59, 999, tz);
    HourThirtyIsNextDay(day, tz);
  }

  /** The three numbers come back from their text. */
  lemma DateFieldsOfText(y: nat, m: nat, d: nat)
    ensures DateFields(DateText(y, m, d)) == Some((y, m, d))
  {
    SplitDateText(y, m, d);
    JsNumberOfNat(y);
    JsNumberOfNat(m);
    JsNumberOfNat(d);
  }

  lemma HourThirtyIsNextDay(day: Date, tz: TzOffset)
    requires IsValid(day)
    ensures LocalInstant(day, 30, 59, 59, 999, tz) == LocalInstant(NextDay(day), 6, 59, 59, 999, tz)
  {
    NextDayNumber(day);
    assert MakeTime(30, 59, 59, 999) == DayMs + MakeTime(6, 59, 59, 999);
    assert DayNumber(NextDay(day)) * DayMs == DayNumber(day) * DayMs + DayMs;
  }

  /** For the same text, a valid end bound lies 23h 59m 59.999s after the start bound. */
  lemma EndMinusStart(s: string, tz: TzOffset)
    requires ParseDate(s, false, tz).Some? && ParseDate(s, true, tz).Some?
    ensures ParseDate(s, true, tz).value - ParseDate(s, false, tz).value == 86_399_999
  {
  }
}
