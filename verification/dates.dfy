/** Calendar dates as the controllers handle them: `YYYY-MM-DD` strings
    parsed by `new Date(s)` (UTC midnight) and printed back with
    `toISOString().split('T')[0]`. A date is modelled as its day number,
    the count of days since 1970-01-01 in the proleptic Gregorian calendar. */
module Dates {
  import opened Wrappers
  import opened Text

  datatype Civil = Civil(year: int, month: int, day: int)

  /** The day number of year `y`, month `m`, day-of-month `d`. Like
      ECMAScript's MakeDay, a day-of-month past the end of the month rolls
      over into the next month. */
  function DaysFromCivil(y: int, m: int, d: int): int
    requires 1 <= m <= 12
  {
    var y' := if m <= 2 then y - 1 else y;
    var era := y' / 400;
    var yoe := y' - era * 400;
    var mp := if m > 2 then m - 3 else m + 9;
    var doy := (153 * mp + 2) / 5 + d - 1;
    var doe := DaysBeforeYearOfEra(yoe) + doy;
    era * 146097 + doe - 719468
  }

  /** Days before year `yoe` of a 400-year era that starts on 1 March. */
  function DaysBeforeYearOfEra(yoe: int): int {
    yoe * 365 + yoe / 4 - yoe / 100
  }

  /** A day of an era as its year of the era and day of that year. Eras are
      split into centuries, four-year cycles and years; the leap day closes
      each cycle, and the last century of an era keeps its leap day. */
  function SplitEra(doe: int): (r: (int, int))
    requires 0 <= doe < 146097
    ensures 0 <= r.0 < 400 && 0 <= r.1 <= 365
    ensures DaysBeforeYearOfEra(r.0) + r.1 == doe
  {
    var century := if doe / 36524 < 3 then doe / 36524 else 3;
    var r1 := doe - 36524 * century;
    var cycle := r1 / 1461;
    var r2 := r1 - 1461 * cycle;
    var year := if r2 / 365 < 3 then r2 / 365 else 3;
    var yoe := 100 * century + 4 * cycle + year;
    assert yoe / 4 == 25 * century + cycle;
    assert yoe / 100 == century;
    (yoe, r2 - 365 * year)
  }

  lemma MonthOfYearBounds(doy: int, mp: int, d: int)
    requires 0 <= doy <= 365
    requires mp == (5 * doy + 2) / 153
    requires d == doy - (153 * mp + 2) / 5 + 1
    ensures 0 <= mp <= 11 && 1 <= d <= 31
  {
    assert 153 * mp <= 5 * doy + 2 < 153 * mp + 153;
  }

  /** A day of a March-based year as month index (0 = March) and day. */
  function SplitYear(doy: int): (r: (int, int))
    requires 0 <= doy <= 365
    ensures 0 <= r.0 <= 11 && 1 <= r.1 <= 31
    ensures (153 * r.0 + 2) / 5 + r.1 - 1 == doy
  {
    var mp := (5 * doy + 2) / 153;
    MonthOfYearBounds(doy, mp, doy - (153 * mp + 2) / 5 + 1);
    (mp, doy - (153 * mp + 2) / 5 + 1)
  }

  /** The calendar date of a day number. */
  function CivilFromDays(z: int): (c: Civil)
    ensures 1 <= c.month <= 12 && 1 <= c.day <= 31
  {
    var era := (z + 719468) / 146097;
    var doe := z + 719468 - era * 146097;
    var ed := SplitEra(doe);
    var yoe := ed.0;
    var md := SplitYear(ed.1);
    var mp := md.0;
    var d := md.1;
    var y := yoe + era * 400;
    var m := if mp < 10 then mp + 3 else mp - 9;
    Civil(if m <= 2 then y + 1 else y, m, d)
  }

  /** `DaysFromCivil` undoes `CivilFromDays`: the calendar date of a day
      number counts back to that day number. */
  lemma CivilFromDaysInverse(z: int)
    ensures var c := CivilFromDays(z); DaysFromCivil(c.year, c.month, c.day) == z
  {
    var era := (z + 719468) / 146097;
    var doe := z + 719468 - era * 146097;
    var ed := SplitEra(doe);
    var yoe := ed.0;
    var md := SplitYear(ed.1);
    var mp := md.0;
    var d := md.1;
    CivilInverse(z, era, doe, yoe, ed.1, mp, d, CivilFromDays(z));
  }

  /** The arithmetic that makes `DaysFromCivil` undo `CivilFromDays`. */
  lemma CivilInverse(z: int, era: int, doe: int, yoe: int, doy: int, mp: int, d: int, c: Civil)
    requires doe == z + 719468 - era * 146097 && 0 <= doe < 146097
    requires 0 <= yoe < 400 && 0 <= doy <= 365 && DaysBeforeYearOfEra(yoe) + doy == doe
    requires 0 <= mp <= 11 && 1 <= d <= 31 && (153 * mp + 2) / 5 + d - 1 == doy
    requires var y := yoe + era * 400;
      var m := if mp < 10 then mp + 3 else mp - 9;
      c == Civil(if m <= 2 then y + 1 else y, m, d)
    ensures DaysFromCivil(c.year, c.month, c.day) == z
  {
    var y := yoe + era * 400;
    assert y / 400 == era;
  }

  /** `toISOString`'s year field: four digits for years 0..9999, otherwise
      a sign and six digits. */
  function YearText(y: int): string {
    if 0 <= y <= 9999 then ZeroPad(NatText(y), 4)
    else (if y < 0 then "-" else "+") + ZeroPad(NatText(if y < 0 then -y else y), 6)
  }

  /** `new Date(day).toISOString().split('T')[0]`. */
  function IsoDate(z: int): string {
    var c := CivilFromDays(z);
    YearText(c.year) + "-" + ZeroPad(NatText(c.month), 2) + "-" + ZeroPad(NatText(c.day), 2)
  }

  /** The pattern `^\d{4}-\d{2}-\d{2}$`. */
  predicate IsDateShape(s: string) {
    && |s| == 10
    && AllDigits(s[..4]) && s[4] == '-'
    && AllDigits(s[5..7]) && s[7] == '-'
    && AllDigits(s[8..])
  }

  /** `new Date(s)` for a string of the date shape, as the V8 engine parses
      it: month 01..12 and day 01..31 are accepted, a day past the end of
      its month rolls over; anything else is an invalid date. Strings of any
      other shape are not parsed here. */
  function ParseIsoDate(s: string): (r: Option<int>)
    ensures r.Some? ==> IsDateShape(s)
    ensures r.Some? <==>
              IsDateShape(s) && 1 <= DigitsValue(s[5..7]) <= 12 && 1 <= DigitsValue(s[8..]) <= 31
  {
    if !IsDateShape(s) then None
    else
      var y := DigitsValue(s[..4]);
      var m := DigitsValue(s[5..7]);
      var d := DigitsValue(s[8..]);
      if 1 <= m <= 12 && 1 <= d <= 31 then Some(DaysFromCivil(y, m, d)) else None
  }

  /** `isValidDate` of the itinerary controller: the pattern matches and
      the engine accepts the date. */
  predicate IsValidDate(s: string) {
    ParseIsoDate(s).Some?
  }

  lemma {:induction false} DigitsValueZeroPrefix(s: string)
    requires AllDigits(s)
    ensures AllDigits("0" + s) && DigitsValue("0" + s) == DigitsValue(s)
    decreases |s|
  {
    if |s| > 0 {
      var t := "0" + s;
      assert t[..|t| - 1] == "0" + s[..|s| - 1];
      DigitsValueZeroPrefix(s[..|s| - 1]);
    }
  }

  /** Leading zeros do not change the value of a numeral. */
  lemma {:induction false} DigitsValueZerosPrefix(k: nat, s: string)
    requires AllDigits(s)
    ensures AllDigits(seq(k, _ => '0') + s) && DigitsValue(seq(k, _ => '0') + s) == DigitsValue(s)
    decreases k
  {
    if k > 0 {
      var rest := seq(k - 1, _ => '0') + s;
      DigitsValueZerosPrefix(k - 1, s);
      assert seq(k, _ => '0') + s == "0" + rest;
      DigitsValueZeroPrefix(rest);
    } else {
      assert seq(k, _ => '0') + s == s;
    }
  }

  /** Zero padding does not change the value of a numeral. */
  lemma DigitsValueZeroPad(s: string, width: nat)
    requires AllDigits(s)
    ensures AllDigits(ZeroPad(s, width)) && DigitsValue(ZeroPad(s, width)) == DigitsValue(s)
  {
    if |s| < width {
      DigitsValueZerosPrefix(width - |s|, s);
    }
  }

  lemma PaddedNumeral(n: nat, width: nat)
    ensures AllDigits(ZeroPad(NatText(n), width))
    ensures DigitsValue(ZeroPad(NatText(n), width)) == n
  {
    DigitsValueZeroPad(NatText(n), width);
    DigitsValueOfNatText(n);
  }

  lemma DateTextFields(ys: string, ms: string, ds: string)
    requires |ys| == 4 && |ms| == 2 && |ds| == 2
    requires AllDigits(ys) && AllDigits(ms) && AllDigits(ds)
    ensures var s := ys + "-" + ms + "-" + ds;
      IsDateShape(s) && s[..4] == ys && s[5..7] == ms && s[8..] == ds
  {
    var s := ys + "-" + ms + "-" + ds;
    assert s[..4] == ys;
    assert s[5..7] == ms;
    assert s[8..] == ds;
  }

  lemma ParseDateText(ys: string, ms: string, ds: string)
    requires |ys| == 4 && |ms| == 2 && |ds| == 2
    requires AllDigits(ys) && AllDigits(ms) && AllDigits(ds)
    requires 1 <= DigitsValue(ms) <= 12 && 1 <= DigitsValue(ds) <= 31
    ensures ParseIsoDate(ys + "-" + ms + "-" + ds)
         == Some(DaysFromCivil(DigitsValue(ys), DigitsValue(ms), DigitsValue(ds)))
  {
    DateTextFields(ys, ms, ds);
  }

  /** Printing a day and parsing the text back gives the same day, for
      every day of the years 0000..9999 the pattern admits. */
  lemma IsoDateRoundTrip(z: int)
    requires 0 <= CivilFromDays(z).year <= 9999
    ensures ParseIsoDate(IsoDate(z)) == Some(z)
  {
    var c := CivilFromDays(z);
    var ys := ZeroPad(NatText(c.year), 4);
    var ms := ZeroPad(NatText(c.month), 2);
    var ds := ZeroPad(NatText(c.day), 2);
    IsoDateFields(z, c);
    CivilFromDaysInverse(z);
    PaddedNumeral(c.year, 4);
    PaddedNumeral(c.month, 2);
    PaddedNumeral(c.day, 2);
    assert Pow10(2) == 100 && Pow10(4) == 10000;
    NatTextWidth(c.month, 2);
    NatTextWidth(c.day, 2);
    NatTextWidth(c.year, 4);
    ParseDateText(ys, ms, ds);
    assert IsoDate(z) == ys + "-" + ms + "-" + ds;
  }

  function DigitOf(c: char): int {
    (c as int) - ('0' as int)
  }

  lemma DigitsValueLast(t: string)
    requires |t| > 0 && AllDigits(t)
    ensures DigitsValue(t) == 10 * DigitsValue(t[..|t| - 1]) + DigitOf(t[|t| - 1])
  {
  }

  /** The field values of a string of the date shape, digit by digit. */
  lemma DateFieldDigits(s: string)
    requires IsDateShape(s)
    ensures DigitsValue(s[..4]) == 1000 * DigitOf(s[0]) + 100 * DigitOf(s[1]) + 10 * DigitOf(s[2]) + DigitOf(s[3])
    ensures DigitsValue(s[5..7]) == 10 * DigitOf(s[5]) + DigitOf(s[6])
    ensures DigitsValue(s[8..]) == 10 * DigitOf(s[8]) + DigitOf(s[9])
  {
    FourDigits(s[..4]);
    TwoDigits(s[5..7]);
    TwoDigits(s[8..]);
  }

  lemma TwoDigits(t: string)
    requires |t| == 2 && AllDigits(t)
    ensures DigitsValue(t) == 10 * DigitOf(t[0]) + DigitOf(t[1])
  {
    assert t[..1][..0] == [];
    DigitsValueLast(t[..1]);
    DigitsValueLast(t);
  }

  lemma FourDigits(t: string)
    requires |t| == 4 && AllDigits(t)
    ensures DigitsValue(t) == 1000 * DigitOf(t[0]) + 100 * DigitOf(t[1]) + 10 * DigitOf(t[2]) + DigitOf(t[3])
  {
    TwoDigits(t[..2]);
    assert t[..3][..2] == t[..2];
    DigitsValueLast(t[..3]);
    DigitsValueLast(t);
  }

  /** `s` spells day `day` as `YYYY-MM-DD`, character by character. */
  predicate ShowsDay(s: string, day: int) {
    && |s| == 10
    && IsDigit(s[0]) && IsDigit(s[1]) && IsDigit(s[2]) && IsDigit(s[3]) && s[4] == '-'
    && IsDigit(s[5]) && IsDigit(s[6]) && s[7] == '-' && IsDigit(s[8]) && IsDigit(s[9])
    && 1 <= 10 * DigitOf(s[5]) + DigitOf(s[6]) <= 12
    && 1 <= 10 * DigitOf(s[8]) + DigitOf(s[9]) <= 31
    && day == DaysFromCivil(1000 * DigitOf(s[0]) + 100 * DigitOf(s[1]) + 10 * DigitOf(s[2]) + DigitOf(s[3]),
                            10 * DigitOf(s[5]) + DigitOf(s[6]), 10 * DigitOf(s[8]) + DigitOf(s[9]))
  }

  /** A text that spells a day parses to that day. */
  lemma ParseShownDay(s: string, day: int)
    requires ShowsDay(s, day)
    ensures ParseIsoDate(s) == Some(day)
  {
    assert AllDigits(s[..4]) && AllDigits(s[5..7]) && AllDigits(s[8..]);
    DateFieldDigits(s);
  }

  /** `new Date('2025-04-25')`, the fixed reference day both the itinerary
      controller and the weather service use in place of the clock. */
  const ReferenceToday: int := 20203

  lemma ReferenceTodayIs20250425()
    ensures ParseIsoDate("2025-04-25") == Some(ReferenceToday)
  {
    ReferenceText("2025-04-25");
    ParseShownDay("2025-04-25", ReferenceToday);
  }

  lemma ReferenceText(s: string)
    requires s == "2025-04-25"
    ensures ShowsDay(s, ReferenceToday)
  {
  }

  /** Sixteen days after the reference day is 2025-05-11. */
  lemma HorizonDate()
    ensures IsoDate(ReferenceToday + 16) == "2025-05-11"
  {
    HorizonIso(ReferenceToday + 16);
  }

  lemma HorizonIso(z: int)
    requires z == ReferenceToday + 16
    ensures IsoDate(z) == "2025-05-11"
  {
    var c := CivilFromDays(z);
    HorizonCivil(z);
    IsoDateFields(z, c);
    HorizonYear(c.year);
    HorizonDay(c.month, "05");
    HorizonDay(c.day, "11");
    HorizonText(YearText(c.year), ZeroPad(NatText(c.month), 2), ZeroPad(NatText(c.day), 2));
  }

  lemma HorizonText(y: string, m: string, d: string)
    requires y == "2025" && m == "05" && d == "11"
    ensures y + "-" + m + "-" + d == "2025-05-11"
  {
  }

  lemma IsoDateFields(z: int, c: Civil)
    requires CivilFromDays(z) == c
    ensures IsoDate(z) == YearText(c.year) + "-" + ZeroPad(NatText(c.month), 2) + "-" + ZeroPad(NatText(c.day), 2)
  {
  }

  lemma HorizonCivil(z: int)
    requires z == ReferenceToday + 16
    ensures CivilFromDays(z).year == 2025 && CivilFromDays(z).month == 5 && CivilFromDays(z).day == 11
  {
    var doe := z + 719468 - 5 * 146097;
    assert (z + 719468) / 146097 == 5;
    assert doe == 9202;
    HorizonEra(doe);
    HorizonYearDay(SplitEra(doe).1);
  }

  lemma HorizonEra(doe: int)
    requires doe == 9202
    ensures SplitEra(doe) == (25, 71)
  {
  }

  lemma HorizonYearDay(doy: int)
    requires doy == 71
    ensures SplitYear(doy) == (2, 11)
  {
  }

  lemma HorizonYear(y: int)
    requires y == 2025
    ensures YearText(y) == "2025"
  {
    NatTextDigit(2);
    NatTextStep(2, 0);
    NatTextStep(20, 2);
    NatTextStep(202, 5);
  }

  lemma HorizonDay(n: int, s: string)
    requires (n == 5 && s == "05") || (n == 11 && s == "11")
    ensures 0 <= n && ZeroPad(NatText(n), 2) == s
  {
    if n == 5 {
      NatTextDigit(5);
    } else {
      NatTextDigit(1);
      NatTextStep(1, 1);
    }
  }

  lemma NatTextDigit(n: nat)
    requires n < 10
    ensures NatText(n) == [DigitChar(n)]
  {
  }

  lemma NatTextStep(n: nat, d: nat)
    requires 1 <= n && d < 10
    ensures NatText(10 * n + d) == NatText(n) + [DigitChar(d)]
  {
  }
}
