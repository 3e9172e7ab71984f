/**
  The two metadata formatters of the gallery generator: the capture date
  (`shotDate`) and the exposure time (`shutterSpeed`).
 */
module Formatters {
  import opened Wrappers
  import opened Numerals

  const MonthNames: seq<string> := [
    "January", "February", "March",
    "April", "May", "June",
    "July", "August", "September",
    "October", "November", "December"
  ]

  // ---------------------------------------------------------------------
  // Capture date
  // ---------------------------------------------------------------------

  /** The value of the digits `s[i..j]`. */
  function Field(s: string, i: nat, j: nat): nat
    requires i <= j <= |s| && AllDigits(s[i..j])
  {
    DigitsValue(s[i..j])
  }

  predicate IsLeapYear(y: nat) {
    y % 4 == 0 && (y % 100 != 0 || y % 400 == 0)
  }

  function DaysInMonth(y: nat, m: nat): nat
    requires 1 <= m <= 12
  {
    if m == 2 then (if IsLeapYear(y) then 29 else 28)
    else if m == 4 || m == 6 || m == 9 || m == 11 then 30
    else 31
  }

  /** A calendar date and a time of day that exist (months and days counted from 1). */
  predicate ValidDateTime(y: nat, mo: nat, d: nat, h: nat, mi: nat, sec: nat) {
    1 <= mo <= 12 && 1 <= d <= DaysInMonth(y, mo) && h < 24 && mi < 60 && sec < 60
  }

  /** Digits and separators of "YYYY<d>MM<d>DD<t>HH:MM:SS". */
  predicate StampShape(s: string, dateSep: char, timeSep: char) {
    && |s| == 19
    && AllDigits(s[0..4]) && s[4] == dateSep && AllDigits(s[5..7]) && s[7] == dateSep && AllDigits(s[8..10])
    && s[10] == timeSep
    && AllDigits(s[11..13]) && s[13] == ':' && AllDigits(s[14..16]) && s[16] == ':' && AllDigits(s[17..19])
  }

  predicate ValidStamp(s: string, dateSep: char, timeSep: char) {
    && StampShape(s, dateSep, timeSep)
    && ValidDateTime(Field(s, 0, 4), Field(s, 5, 7), Field(s, 8, 10), Field(s, 11, 13), Field(s, 14, 16), Field(s, 17, 19))
  }

  /** An EXIF `DateTimeOriginal` value "YYYY:MM:DD HH:MM:SS" naming a real moment. */
  predicate WellFormedExifDate(s: string) {
    ValidStamp(s, ':', ' ')
  }

  /** A date-time string "YYYY-MM-DDTHH:MM:SS" without offset, naming a real moment. */
  predicate WellFormedIsoDate(s: string) {
    ValidStamp(s, '-', 'T')
  }

  /** `s` with every `from` replaced by `to` (`split(from).join(to)`). */
  function ReplaceChar(s: string, from: char, to: char): (r: string)
    ensures |r| == |s|
    ensures forall i :: 0 <= i < |s| ==> r[i] == if s[i] == from then to else s[i]
  {
    if s == [] then [] else [if s[0] == from then to else s[0]] + ReplaceChar(s[1..], from, to)
  }

  /**
    The rewrite `shotDate` performs before parsing: the stamp split at its one
    space, the colons of the date part replaced by dashes, and the two parts
    joined again with a 'T'.
   */
  function IsoDateTime(exifDate: string): (iso: string)
    requires StampShape(exifDate, ':', ' ')
    ensures |iso| == |exifDate|
  {
    ReplaceChar(exifDate[..10], ':', '-') + "T" + exifDate[11..]
  }

  /** What the getters of a JavaScript Date report; the month counts from 0. */
  datatype LocalDate = LocalDate(fullYear: nat, month: nat, date: nat, hours: nat, minutes: nat, seconds: nat)

  /**
    `new Date(iso)` for a well-formed date-time without offset: it is read as
    local time, so the local getters give back the written fields.
   */
  function ParseIsoDate(iso: string): (d: LocalDate)
    requires WellFormedIsoDate(iso)
    ensures d.month < 12 && 1 <= d.date <= 31
  {
    LocalDate(Field(iso, 0, 4), Field(iso, 5, 7) - 1, Field(iso, 8, 10),
              Field(iso, 11, 13), Field(iso, 14, 16), Field(iso, 17, 19))
  }

  /** The rewrite keeps every digit where it was, so it keeps every field. */
  lemma IsoDateTimeKeepsFields(s: string)
    requires WellFormedExifDate(s)
    ensures var iso := IsoDateTime(s);
      && WellFormedIsoDate(iso)
      && iso[0..4] == s[0..4] && iso[5..7] == s[5..7] && iso[8..10] == s[8..10]
      && iso[11..13] == s[11..13] && iso[14..16] == s[14..16] && iso[17..19] == s[17..19]
  {
    var iso := IsoDateTime(s);
    var head := ReplaceChar(s[..10], ':', '-');
    assert iso == head + "T" + s[11..];
    forall i | 0 <= i < 10 && i != 4 && i != 7 ensures iso[i] == s[i] {
      assert s[..10][i] == s[i];
      if i < 4 {
        assert IsDigit(s[0..4][i]);
      } else if i < 7 {
        assert IsDigit(s[5..7][i - 5]);
      } else {
        assert IsDigit(s[8..10][i - 8]);
      }
    }
    forall i | 11 <= i < 19 ensures iso[i] == s[i] {
      assert iso[i] == s[11..][i - 11];
    }
    assert iso[0..4] == s[0..4];
    assert iso[5..7] == s[5..7];
    assert iso[8..10] == s[8..10];
    assert iso[11..13] == s[11..13];
    assert iso[14..16] == s[14..16];
    assert iso[17..19] == s[17..19];
    assert iso[4] == '-' && iso[7] == '-' && iso[10] == 'T' && iso[13] == ':' && iso[16] == ':';
  }

  /**
    `shotDate`: "<MonthName> <day>, <year>" from an EXIF stamp. The day and
    year are printed as numbers, so they carry no leading zeros; the month
    picks its name from the twelve-entry table.
   */
  function ShotDate(exifDate: string): (r: string)
    requires WellFormedExifDate(exifDate)
    ensures var month := Field(exifDate, 5, 7);
      && 1 <= month <= 12
      && r == MonthNames[month - 1] + " " + Decimal(Field(exifDate, 8, 10)) + ", " + Decimal(Field(exifDate, 0, 4))
  {
    IsoDateTimeKeepsFields(exifDate);
    var date := ParseIsoDate(IsoDateTime(exifDate));
    MonthNames[date.month] + " " + Decimal(date.date) + ", " + Decimal(date.fullYear)
  }

  /** The stamp a camera writes for a moment: every field zero-padded. */
  function ExifStamp(y: nat, mo: nat, d: nat, h: nat, mi: nat, sec: nat): (s: string)
    ensures |s| == 19
  {
    Padded(y, 4) + ":" + Padded(mo, 2) + ":" + Padded(d, 2) + " " +
    Padded(h, 2) + ":" + Padded(mi, 2) + ":" + Padded(sec, 2)
  }

  /**
    For any moment of a four-digit year, the stamp is well formed and
    `shotDate` shows the month's name, the unpadded day and the year.
   */
  lemma ShotDateOfMoment(y: nat, mo: nat, d: nat, h: nat, mi: nat, sec: nat)
    requires y < 10000 && ValidDateTime(y, mo, d, h, mi, sec)
    ensures WellFormedExifDate(ExifStamp(y, mo, d, h, mi, sec))
    ensures ShotDate(ExifStamp(y, mo, d, h, mi, sec)) == MonthNames[mo - 1] + " " + Decimal(d) + ", " + Decimal(y)
  {
    var s := ExifStamp(y, mo, d, h, mi, sec);
    assert s[0..4] == Padded(y, 4);
    assert s[5..7] == Padded(mo, 2);
    assert s[8..10] == Padded(d, 2);
    assert s[11..13] == Padded(h, 2);
    assert s[14..16] == Padded(mi, 2);
    assert s[17..19] == Padded(sec, 2);
    PaddedRoundTrip(y, 4);
    PaddedRoundTrip(mo, 2);
    PaddedRoundTrip(d, 2);
    PaddedRoundTrip(h, 2);
    PaddedRoundTrip(mi, 2);
    PaddedRoundTrip(sec, 2);
  }

  // ---------------------------------------------------------------------
  // Exposure time
  // ---------------------------------------------------------------------

  /** `Math.round`: the nearest integer, a half rounded up. */
  function Round(x: real): (k: int)
    ensures k as real - 0.5 <= x < k as real + 0.5
  {
    (x + 0.5).Floor
  }

  lemma RoundUnique(x: real, k: int)
    requires k as real - 0.5 <= x < k as real + 0.5
    ensures Round(x) == k
  {
  }

  /** How JavaScript prints `k / 10` for a whole number `k` of tenths: "3", "2.5". */
  function TenthsText(k: nat): (s: string)
    ensures |s| > 0 && IsDigit(s[0])
    ensures forall i :: 0 <= i < |s| ==> IsDigit(s[i]) || s[i] == '.'
    ensures '.' in s <==> k % 10 != 0
  {
    var whole := Decimal(k / 10);
    if k % 10 == 0 then whole else whole + "." + [DigitChar(k % 10)]
  }

  /** Reads a number of tenths back from "A" or "A.d". */
  function ReadTenths(s: string): Option<nat> {
    if |s| > 0 && AllDigits(s) then Some(DigitsValue(s) * 10)
    else if |s| >= 3 && s[|s| - 2] == '.' && AllDigits(s[..|s| - 2]) && IsDigit(s[|s| - 1])
    then Some(DigitsValue(s[..|s| - 2]) * 10 + DigitValue(s[|s| - 1]))
    else None
  }

  lemma TenthsRoundTrip(k: nat)
    ensures ReadTenths(TenthsText(k)) == Some(k)
  {
    var whole := Decimal(k / 10);
    DecimalRoundTrip(k / 10);
    var s := TenthsText(k);
    if k % 10 != 0 {
      assert s[|s| - 2] == '.';
      assert !AllDigits(s);
      assert s[..|s| - 2] == whole;
    }
  }

  predicate EndsWith(s: string, suffix: string) {
    |suffix| <= |s| && s[|s| - |suffix|..] == suffix
  }

  /**
    `shutterSpeed`: exactly one second reads "1 second"; a longer exposure
    its seconds rounded to a tenth, followed by " seconds"; a shorter one the
    fraction "1/<rounded reciprocal>". The three forms tell the three cases
    apart.
   */
  function ShutterSpeed(seconds: real): (r: string)
    requires seconds > 0.0
    ensures r == "1 second" <==> seconds == 1.0
    ensures EndsWith(r, " seconds") <==> seconds > 1.0
    ensures "1/" <= r <==> seconds < 1.0
  {
    if seconds == 1.0 then
      assert "1 second"[1] == ' ';
      "1 second"
    else if seconds >= 1.0 then
      var r := TenthsText(Round(seconds * 10.0)) + " seconds";
      assert r[1] != '/';
      assert r[|r| - 8..] == " seconds";
      r
    else
      var denominator := Round(1.0 / seconds);
      var r := "1/" + IntText(denominator);
      assert r[..2] == "1/";
      assert IsDigit(r[|r| - 1]) by { assert r[|r| - 1] == Decimal(denominator)[|Decimal(denominator)| - 1]; }
      r
  }

  /** A short exposure shows the whole number nearest to its reciprocal. */
  lemma ShutterSpeedOfFraction(seconds: real, d: nat)
    requires 0.0 < seconds < 1.0
    requires d as real - 0.5 <= 1.0 / seconds < d as real + 0.5
    ensures ShutterSpeed(seconds) == "1/" + Decimal(d)
  {
    RoundUnique(1.0 / seconds, d);
  }

  /** A long exposure shows its length rounded to the nearest tenth of a second. */
  lemma ShutterSpeedOfSeconds(seconds: real, tenths: nat)
    requires seconds > 1.0
    requires tenths as real - 0.5 <= seconds * 10.0 < tenths as real + 0.5
    ensures ShutterSpeed(seconds) == TenthsText(tenths) + " seconds"
    ensures ReadTenths(TenthsText(tenths)) == Some(tenths)
  {
    RoundUnique(seconds * 10.0, tenths);
    TenthsRoundTrip(tenths);
  }

  /** Whole seconds print without a fraction: 2 s reads "2 seconds". */
  lemma ShutterSpeedTwoSeconds()
    ensures ShutterSpeed(2.0) == "2 seconds"
  {
    ShutterSpeedOfSeconds(2.0, 20);
    assert Decimal(2) == "2";
  }

  /** A 1/250 s exposure reads "1/250". */
  lemma ShutterSpeedFraction250()
    ensures ShutterSpeed(0.004) == "1/250"
  {
    ShutterSpeedOfFraction(0.004, 250);
    assert Decimal(250) == "250";
  }

  /** A half second over two reads "2.5 seconds". */
  lemma ShutterSpeedTwoAndAHalf()
    ensures ShutterSpeed(2.5) == "2.5 seconds"
  {
    ShutterSpeedOfSeconds(2.5, 25);
    assert Decimal(2) == "2";
  }

  /**
    An exposure just over one second is rounded down to one tenth yet keeps
    the plural: 1.04 s reads "1 seconds".
   */
  lemma ShutterSpeedJustOverOneSecond()
    ensures ShutterSpeed(1.04) == "1 seconds"
  {
    ShutterSpeedOfSeconds(1.04, 10);
  }
}
