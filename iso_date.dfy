/** The calendar-date text the views exchange with date inputs and with the
    backend: `YYYY-MM-DD`, the extended format of section 5.2.1.1 of
    ISO 8601:2004, as produced by `toISOString().split('T')[0]` and read by
    `new Date(text)` (midnight UTC of that date). */
module IsoDate {
  import opened Common
  import opened Js
  import opened CivilDate

  function Pow10(w: nat): nat {
    if w == 0 then 1 else 10 * Pow10(w - 1)
  }

  /** The last `w` decimal digits of `n`, padded with leading zeros. */
  function FixedDigits(n: nat, w: nat): (s: string)
    ensures |s| == w && AllDigits(s)
  {
    if w == 0 then [] else FixedDigits(n / 10, w - 1) + [DigitChar(n % 10)]
  }

  /** The year as `toISOString` writes it: four digits for years 0 to 9999,
      otherwise a sign and six digits. */
  function YearText(y: int): string {
    if 0 <= y <= 9999 then FixedDigits(y, 4)
    else (if y < 0 then "-" else "+") + FixedDigits(if y < 0 then -y else y, 6)
  }

  /** The date part of `toISOString()` for a moment on the UTC day `d`. */
  function Format(d: Date): string
    requires IsValid(d)
  {
    YearText(d.year) + "-" + FixedDigits(d.month, 2) + "-" + FixedDigits(d.day, 2)
  }

  /** `new Date(s)` for the date-only form `YYYY-MM-DD`; `None` is an Invalid Date. */
  function Parse(s: string): Option<Date> {
    if |s| == 10 && s[4] == '-' && s[7] == '-'
       && AllDigits(s[..4]) && AllDigits(s[5..7]) && AllDigits(s[8..]) then
      var d := Date(DigitsValue(s[..4], 10), DigitsValue(s[5..7], 10), DigitsValue(s[8..], 10));
      if IsValid(d) then Some(d) else None
    else None
  }

  /** `new Date().toISOString().split('T')[0]` at `nowMs` milliseconds after
      the epoch: the UTC calendar date of that moment. */
  function TodayText(nowMs: int): string {
    FromDaysIsDayNumber(nowMs / MsPerDay);
    Format(FromDays(nowMs / MsPerDay))
  }

  // ---------------------------------------------------------------------
  // Lemmas

  lemma {:induction false} DigitsValueRange(ds: string)
    requires AllDigits(ds)
    ensures 0 <= DigitsValue(ds, 10) < Pow10(|ds|)
  {
    if ds != [] {
      DigitsValueRange(ds[..|ds| - 1]);
    }
  }

  lemma {:induction false} FixedDigitsValue(n: nat, w: nat)
    requires n < Pow10(w)
    ensures DigitsValue(FixedDigits(n, w), 10) == n
  {
    if w > 0 {
      var s := FixedDigits(n, w);
      assert s[..w - 1] == FixedDigits(n / 10, w - 1);
      FixedDigitsValue(n / 10, w - 1);
    }
  }

  lemma {:induction false} FixedDigitsOfValue(ds: string)
    requires AllDigits(ds)
    ensures DigitsValue(ds, 10) >= 0 && FixedDigits(DigitsValue(ds, 10), |ds|) == ds
  {
    DigitsValueRange(ds);
    if ds != [] {
      var init, c := ds[..|ds| - 1], ds[|ds| - 1];
      FixedDigitsOfValue(init);
      var v := DigitsValue(ds, 10);
      assert v / 10 == DigitsValue(init, 10) && v % 10 == DigitValue(c);
      assert DigitChar(DigitValue(c)) == c;
      assert ds == init + [c];
    }
  }

  /** Round trip: a date with a four-digit year reads back from its text. */
  lemma ParseOfFormat(d: Date)
    requires IsValid(d) && 0 <= d.year <= 9999
    ensures Parse(Format(d)) == Some(d)
  {
    var y, m, dd := FixedDigits(d.year, 4), FixedDigits(d.month, 2), FixedDigits(d.day, 2);
    assert Format(d) == y + "-" + m + "-" + dd;
    FixedDigitsValue(d.year, 4);
    FixedDigitsValue(d.month, 2);
    FixedDigitsValue(d.day, 2);
    ParseOfParts(y, m, dd);
  }

  /** `Parse` on text put together from a four-digit, a two-digit and a
      two-digit field. */
  lemma ParseOfParts(y: string, m: string, dd: string)
    requires |y| == 4 && |m| == 2 && |dd| == 2 && AllDigits(y) && AllDigits(m) && AllDigits(dd)
    ensures var d := Date(DigitsValue(y, 10), DigitsValue(m, 10), DigitsValue(dd, 10));
            Parse(y + "-" + m + "-" + dd) == if IsValid(d) then Some(d) else None
  {
    var s := y + "-" + m + "-" + dd;
    assert s[..4] == y && s[5..7] == m && s[8..] == dd;
    assert s[4] == '-' && s[7] == '-';
  }

  /** Round trip: text that reads as a date is exactly that date's text, so
      the text form of a date is unique. */
  lemma FormatOfParse(s: string)
    requires Parse(s).Some?
    ensures 0 <= Parse(s).value.year <= 9999 && Format(Parse(s).value) == s
  {
    var d := Parse(s).value;
    DigitsValueRange(s[..4]);
    FixedDigitsOfValue(s[..4]);
    FixedDigitsOfValue(s[5..7]);
    FixedDigitsOfValue(s[8..]);
    assert s == s[..4] + "-" + s[5..7] + "-" + s[8..];
  }

  /** Today's text names the UTC day of the moment: read back, it is the
      date whose day number is the whole days since the epoch. */
  lemma TodayTextIsToday(nowMs: int)
    ensures var d := FromDays(nowMs / MsPerDay);
            0 <= d.year <= 9999 ==> Parse(TodayText(nowMs)) == Some(d) && ToDays(d) == nowMs / MsPerDay
  {
    var d := FromDays(nowMs / MsPerDay);
    FromDaysIsDayNumber(nowMs / MsPerDay);
    if 0 <= d.year <= 9999 {
      ParseOfFormat(d);
    }
  }
}
