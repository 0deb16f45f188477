/** `FormatUtc` against the reader of the layout `yyyy-MM-ddThh:mm:ss.zzz`. */
module TimestampProofs {
  import opened Calendar
  import opened CivilProofs
  import opened Options
  import opened Timestamp

  // ---- Reading the layout ---------------------------------------------------------------------

  /** The value of a run of decimal digits. */
  function ParseNumber(text: string): Option<nat> {
    if text == "" then Some(0)
    else
      var last := text[|text| - 1];
      match ParseNumber(text[..|text| - 1])
      case None => None
      case Some(front) =>
        if '0' <= last <= '9' then Some(10 * front + (last as int - '0' as int)) else None
  }

  datatype Fields = Fields(date: Date, hour: int, minute: int, second: int, millis: int)

  predicate ValidFields(f: Fields) {
    && ValidDate(f.date)
    && 0 <= f.hour < 24 && 0 <= f.minute < 60 && 0 <= f.second < 60 && 0 <= f.millis < 1000
  }

  /** Milliseconds from the epoch to the instant that the fields name. */
  function FieldMillis(f: Fields): int
    requires ValidFields(f)
  {
    ((DayNumber(f.date) * 24 + f.hour) * 60 + f.minute) * 60000 + f.second * 1000 + f.millis
  }

  predicate Separators(text: string) {
    && |text| == 23
    && text[4] == '-' && text[7] == '-' && text[10] == 'T'
    && text[13] == ':' && text[16] == ':' && text[19] == '.'
  }

  function ParseFields(text: string): Option<Fields>
    requires Separators(text)
  {
    match (ParseNumber(text[0..4]), ParseNumber(text[5..7]), ParseNumber(text[8..10]),
           ParseNumber(text[11..13]), ParseNumber(text[14..16]), ParseNumber(text[17..19]),
           ParseNumber(text[20..23]))
    case (Some(y), Some(mo), Some(d), Some(h), Some(mi), Some(s), Some(ms)) =>
      Some(Fields(Date(y, mo, d), h, mi, s, ms))
    case _ => None
  }

  /** The instant, in milliseconds, that a text in the server's layout names. */
  function ParseTimestamp(text: string): Option<int> {
    if !Separators(text) then None
    else match ParseFields(text)
      case None => None
      case Some(f) => if ValidFields(f) then Some(FieldMillis(f)) else None
  }

  // ---- Decimal text of a fixed width ----------------------------------------------------------

  function Pow10(width: nat): nat {
    if width == 0 then 1 else 10 * Pow10(width - 1)
  }

  function FixedDigits(n: nat, width: nat): string {
    if width == 0 then "" else FixedDigits(n / 10, width - 1) + [DigitChar(n % 10)]
  }

  lemma {:induction false} FixedDigitsLength(n: nat, width: nat)
    ensures |FixedDigits(n, width)| == width
  {
    if width > 0 {
      FixedDigitsLength(n / 10, width - 1);
    }
  }

  lemma {:induction false} DigitsLength(n: nat, width: nat)
    requires width > 0
    ensures 1 <= |Digits(n)|
    ensures |Digits(n)| <= width <==> n < Pow10(width)
  {
    assert Pow10(width) == 10 * Pow10(width - 1);
    if n >= 10 {
      if width > 1 {
        DigitsLength(n / 10, width - 1);
      } else {
        DigitsLength(n / 10, 1);
      }
    } else {
      Pow10Positive(width - 1);
    }
  }

  lemma {:induction false} Pow10Positive(width: nat)
    ensures Pow10(width) >= 1
  {
    if width > 0 {
      Pow10Positive(width - 1);
    }
  }

  lemma {:induction false} FixedDigitsZero(width: nat)
    ensures FixedDigits(0, width + 1) == "0" + FixedDigits(0, width)
  {
    if width > 0 {
      FixedDigitsZero(width - 1);
    }
  }

  lemma {:induction false} FixedDigitsLeadingZero(n: nat, width: nat)
    requires n < Pow10(width)
    ensures FixedDigits(n, width + 1) == "0" + FixedDigits(n, width)
  {
    if width > 0 {
      FixedDigitsLeadingZero(n / 10, width - 1);
    }
  }

  lemma {:induction false} DigitsAreFixed(n: nat)
    ensures Digits(n) == FixedDigits(n, |Digits(n)|)
  {
    if n >= 10 {
      DigitsAreFixed(n / 10);
    } else {
      assert FixedDigits(n, 1) == FixedDigits(n / 10, 0) + [DigitChar(n % 10)];
    }
  }

  lemma {:induction false} LeftPadFixed(text: string, n: nat, width: nat)
    requires |text| <= width && n < Pow10(|text|) && text == FixedDigits(n, |text|)
    ensures LeftPad(text, width) == FixedDigits(n, width)
    decreases width - |text|
  {
    if |text| < width {
      FixedDigitsLeadingZero(n, |text|);
      LeftPadFixed("0" + text, n, width);
    }
  }

  lemma {:induction false} LeftPadLength(text: string, width: nat)
    ensures |LeftPad(text, width)| == if |text| >= width then |text| else width
    decreases width - |text|
  {
    if |text| < width {
      LeftPadLength("0" + text, width);
    }
  }

  /** A number that fits its width is padded to exactly that many digits. */
  lemma ZeroPadFixed(n: nat, width: nat)
    requires width > 0 && n < Pow10(width)
    ensures ZeroPad(n, width) == FixedDigits(n, width)
    ensures |ZeroPad(n, width)| == width
  {
    DigitsLength(n, width);
    DigitsLength(n, |Digits(n)|);
    DigitsAreFixed(n);
    LeftPadFixed(Digits(n), n, width);
    FixedDigitsLength(n, width);
  }

  /** A number too large for its width makes the text longer. */
  lemma ZeroPadLong(n: nat, width: nat)
    requires width > 0 && n >= Pow10(width)
    ensures |ZeroPad(n, width)| > width
  {
    DigitsLength(n, width);
    LeftPadLength(Digits(n), width);
  }

  lemma {:induction false} ParseFixedDigits(n: nat, width: nat)
    requires n < Pow10(width)
    ensures ParseNumber(FixedDigits(n, width)) == Some(n)
  {
    if width > 0 {
      ParseFixedDigits(n / 10, width - 1);
      var text := FixedDigits(n, width);
      assert text[..|text| - 1] == FixedDigits(n / 10, width - 1);
    }
  }

  lemma {:induction false} DigitsLead(n: nat)
    requires n > 0
    ensures Digits(n)[0] != '0'
  {
    if n >= 10 {
      DigitsLead(n / 10);
    }
  }

  /** Padded to a width, a number keeps its value, and only a number that fits gets zeros. */
  lemma PadExact(n: nat, width: nat)
    requires n > 0 || width > 0
    ensures var text := LeftPad(Digits(n), width);
      && ParseNumber(text) == Some(n)
      && |text| >= width && |text| >= 1
      && (|text| > width ==> text[0] != '0')
  {
    var digits := Digits(n);
    DigitsLength(n, |digits|);
    DigitsAreFixed(n);
    if |digits| <= width {
      DigitsLength(n, width);
      LeftPadFixed(digits, n, width);
      FixedDigitsLength(n, width);
      ParseFixedDigits(n, width);
    } else {
      ParseFixedDigits(n, |digits|);
      if n > 0 {
        DigitsLead(n);
      }
    }
  }

  /** What the formatting of any number at any width gives: the sign, if there is one, then the digits
      of the number, with zeros only to make up the width. No other text is like that. */
  lemma ZeroPadExact(n: int, width: nat)
    requires width > 0
    ensures var text := ZeroPad(n, width);
      var sign, size := if n < 0 then 1 else 0, if n < 0 then -n else n;
      && |text| >= width && |text| > sign
      && (n < 0 ==> text[0] == '-')
      && ParseNumber(text[sign..]) == Some(size)
      && (|text| > width ==> text[sign] != '0')
  {
    var text := ZeroPad(n, width);
    if n < 0 {
      PadExact(-n, width - 1);
      assert text[1..] == LeftPad(Digits(-n), width - 1);
    } else {
      PadExact(n, width);
      assert text[0..] == text;
    }
  }

  // ---- The text of an instant -----------------------------------------------------------------

  function FloorMillis(time: int): int { time / 1000000 }

  function FloorDays(time: int): int { FloorMillis(time) / 1000 / 86400 }

  /** The fields that `FormatUtc` renders. */
  function FieldsOf(time: int): Fields {
    var millis := FloorMillis(time);
    var secsOfDay := millis / 1000 % 86400;
    Fields(CivilFromDays(FloorDays(time)),
           secsOfDay / 3600, secsOfDay % 3600 / 60, secsOfDay % 60, millis % 1000)
  }

  /** One more field: a separator and a number at a fixed width. */
  function Append(text: string, sep: char, n: int, width: nat): string
    requires width > 0
  {
    text + [sep] + ZeroPad(n, width)
  }

  function RenderDate(date: Date): string {
    Append(Append(ZeroPad(date.year, 4), '-', date.month, 2), '-', date.day, 2)
  }

  function Render(f: Fields): string {
    var minutes := Append(Append(RenderDate(f.date), 'T', f.hour, 2), ':', f.minute, 2);
    Append(Append(minutes, ':', f.second, 2), '.', f.millis, 3)
  }

  lemma FormatRenders(time: int)
    ensures FormatUtc(time) == Render(FieldsOf(time))
  {
    assert SignedNanos(DurationSinceEpoch(time)) == time;
    var date := CivilFromDays(FloorDays(time));
    assert FieldsOf(time).date == date;
  }

  /** The fields are those of the floored milliseconds: the time of day, and the date of the day. */
  lemma FieldsOfTime(time: int)
    ensures var f := FieldsOf(time);
      && 0 <= f.hour < 24 && 0 <= f.minute < 60 && 0 <= f.second < 60 && 0 <= f.millis < 1000
      && 1 <= f.date.month <= 12 && 1 <= f.date.day <= 31
    ensures var f := FieldsOf(time);
      FloorMillis(time) ==
      ((FloorDays(time) * 24 + f.hour) * 60 + f.minute) * 60000 + f.second * 1000 + f.millis
  {
    ClockParts(FloorMillis(time));
    MonthAndDay(FloorDays(time));
  }

  lemma ClockParts(millis: int)
    ensures var x := millis / 1000 % 86400;
      var hour, minute, second, rest := x / 3600, x % 3600 / 60, x % 60, millis % 1000;
      && 0 <= hour < 24 && 0 <= minute < 60 && 0 <= second < 60 && 0 <= rest < 1000
      && millis == ((millis / 1000 / 86400 * 24 + hour) * 60 + minute) * 60000 + second * 1000 + rest
  {
    var secs := millis / 1000;
    SecondsOfDay(secs % 86400);
    assert millis == 1000 * secs + millis % 1000;
    assert secs == 86400 * (secs / 86400) + secs % 86400;
  }

  lemma SecondsOfDay(x: int)
    requires 0 <= x < 86400
    ensures x / 3600 < 24 && 0 <= x % 3600 / 60 < 60
    ensures x == 3600 * (x / 3600) + 60 * (x % 3600 / 60) + x % 60
  {
    var hour, inHour := x / 3600, x % 3600;
    var minute, second := inHour / 60, inHour % 60;
    assert x == 60 * (60 * hour + minute) + second;
    assert x / 60 == 60 * hour + minute;
  }

  lemma MonthAndDay(days: int)
    ensures 1 <= CivilFromDays(days).month <= 12 && 1 <= CivilFromDays(days).day <= 31
  {
    WorkingRanges(days);
  }

  /** Of any instant, readable or not, the text is the year, padded, and the other fields in theirs. */
  lemma FormatParts(time: int)
    ensures var f, text := FieldsOf(time), FormatUtc(time);
      var year := ZeroPad(f.date.year, 4);
      var y := |year|;
      && |text| == y + 19 && text[..y] == year
      && text[y] == '-' && text[y + 3] == '-' && text[y + 6] == 'T'
      && text[y + 9] == ':' && text[y + 12] == ':' && text[y + 15] == '.'
      && ParseNumber(text[y + 1..y + 3]) == Some(f.date.month)
      && ParseNumber(text[y + 4..y + 6]) == Some(f.date.day)
      && ParseNumber(text[y + 7..y + 9]) == Some(f.hour)
      && ParseNumber(text[y + 10..y + 12]) == Some(f.minute)
      && ParseNumber(text[y + 13..y + 15]) == Some(f.second)
      && ParseNumber(text[y + 16..]) == Some(f.millis)
  {
    var f := FieldsOf(time);
    FormatRenders(time);
    FieldsOfTime(time);
    DateParts(f.date);
    TimeParts(f);
    PartsTogether(RenderDate(f.date), Render(f), |ZeroPad(f.date.year, 4)|);
  }

  lemma PartsTogether(date: string, text: string, y: nat)
    requires |date| == y + 6 <= |text| && text[..|date|] == date
    ensures text[..y] == date[..y] && text[y] == date[y] && text[y + 3] == date[y + 3]
    ensures text[y + 1..y + 3] == date[y + 1..y + 3] && text[y + 4..y + 6] == date[y + 4..]
  {
    assert text[y] == text[..|date|][y] && text[y + 3] == text[..|date|][y + 3];
    SliceOfPrefix(text, y + 6, 0, y);
    SliceOfPrefix(text, y + 6, y + 1, y + 3);
    SliceOfPrefix(text, y + 6, y + 4, y + 6);
    assert date[y + 4..] == date[y + 4..y + 6];
  }

  predicate InRange(f: Fields) {
    && 0 <= f.hour < 24 && 0 <= f.minute < 60 && 0 <= f.second < 60 && 0 <= f.millis < 1000
    && 1 <= f.date.month <= 12 && 1 <= f.date.day <= 31
  }

  lemma PowersOfTen()
    ensures Pow10(2) == 100 && Pow10(3) == 1000 && Pow10(4) == 10000
  {
    assert Pow10(2) == 10 * Pow10(1) && Pow10(1) == 10 * Pow10(0);
    assert Pow10(3) == 10 * Pow10(2) && Pow10(4) == 10 * Pow10(3);
  }

  /** What an appended field leaves where. */
  lemma AppendParts(text: string, sep: char, n: nat, width: nat)
    requires width > 0 && n < Pow10(width)
    ensures var t := Append(text, sep, n, width);
      && |t| == |text| + 1 + width
      && t[..|text|] == text && t[|text|] == sep
      && ParseNumber(t[|text| + 1..]) == Some(n)
  {
    ZeroPadFixed(n, width);
    ParseFixedDigits(n, width);
    var t := Append(text, sep, n, width);
    assert t[|text| + 1..] == FixedDigits(n, width);
  }

  /** An inner slice survives appending. */
  lemma SliceOfPrefix(t: string, k: nat, i: nat, j: nat)
    requires i <= j <= k <= |t|
    ensures t[..k][i..j] == t[i..j]
  {}

  /** The text `t2` is `t` followed by two fields, the first of them two digits wide. */
  predicate HasFields(t: string, t2: string, sep: char, m: int, sep': char, n: int, width: nat) {
    && |t2| == |t| + 4 + width
    && t2[..|t|] == t && t2[|t|] == sep && t2[|t| + 3] == sep'
    && ParseNumber(t2[|t| + 1..|t| + 3]) == Some(m)
    && ParseNumber(t2[|t| + 4..]) == Some(n)
  }

  lemma TwoAppends(t: string, sep: char, m: nat, sep': char, n: nat, width: nat)
    requires width > 0 && m < 100 && n < Pow10(width)
    ensures HasFields(t, Append(Append(t, sep, m, 2), sep', n, width), sep, m, sep', n, width)
  {
    PowersOfTen();
    var t1 := Append(t, sep, m, 2);
    var t2 := Append(t1, sep', n, width);
    AppendParts(t, sep, m, 2);
    AppendParts(t1, sep', n, width);
    SliceOfPrefix(t2, |t1|, 0, |t|);
    SliceOfPrefix(t2, |t1|, |t| + 1, |t1|);
    assert t1[|t| + 1..] == t1[|t| + 1..|t1|];
  }

  lemma DateParts(date: Date)
    requires 1 <= date.month <= 12 && 1 <= date.day <= 31
    ensures var t, y := RenderDate(date), |ZeroPad(date.year, 4)|;
      && |t| == y + 6
      && t[..y] == ZeroPad(date.year, 4) && t[y] == '-' && t[y + 3] == '-'
      && ParseNumber(t[y + 1..y + 3]) == Some(date.month)
      && ParseNumber(t[y + 4..]) == Some(date.day)
  {
    PowersOfTen();
    TwoAppends(ZeroPad(date.year, 4), '-', date.month, '-', date.day, 2);
  }

  /** The text `t` is `t0` followed by the time of day. */
  predicate HasTime(t0: string, t: string, f: Fields) {
    var d := |t0|;
    && |t| == d + 13
    && t[..d] == t0
    && t[d] == 'T' && t[d + 3] == ':' && t[d + 6] == ':' && t[d + 9] == '.'
    && ParseNumber(t[d + 1..d + 3]) == Some(f.hour)
    && ParseNumber(t[d + 4..d + 6]) == Some(f.minute)
    && ParseNumber(t[d + 7..d + 9]) == Some(f.second)
    && ParseNumber(t[d + 10..]) == Some(f.millis)
  }

  lemma TimeParts(f: Fields)
    requires InRange(f)
    ensures HasTime(RenderDate(f.date), Render(f), f)
  {
    PowersOfTen();
    var t0 := RenderDate(f.date);
    var t2 := Append(Append(t0, 'T', f.hour, 2), ':', f.minute, 2);
    TwoAppends(t0, 'T', f.hour, ':', f.minute, 2);
    TwoAppends(t2, ':', f.second, '.', f.millis, 3);
    TimeFields(t0, t2, Render(f), f);
  }

  lemma TimeFields(t0: string, t2: string, t: string, f: Fields)
    requires HasFields(t0, t2, 'T', f.hour, ':', f.minute, 2)
    requires HasFields(t2, t, ':', f.second, '.', f.millis, 3)
    ensures HasTime(t0, t, f)
  {
    KeepsFront(t0, t2, t);
  }

  /** What two fields in front of others keep when the others are appended. */
  lemma KeepsFront(t0: string, t2: string, t: string)
    requires |t2| == |t0| + 6 <= |t| && t2[..|t0|] == t0 && t[..|t2|] == t2
    ensures var d := |t0|;
      && t[..d] == t0 && t[d] == t2[d] && t[d + 3] == t2[d + 3]
      && t[d + 1..d + 3] == t2[d + 1..d + 3] && t[d + 4..d + 6] == t2[d + 4..]
  {
    var d := |t0|;
    SliceOfPrefix(t, d + 6, 0, d);
    SliceOfPrefix(t, d + 6, d + 1, d + 3);
    SliceOfPrefix(t, d + 6, d + 4, d + 6);
    assert t2[d + 4..] == t2[d + 4..d + 6];
    assert t[d] == t[..|t2|][d] && t[d + 3] == t[..|t2|][d + 3];
  }

  /** Within four-digit years the text has the server's layout and reads back as its fields. */
  lemma RenderParses(f: Fields)
    requires InRange(f) && 0 <= f.date.year <= 9999
    ensures Separators(Render(f)) && ParseFields(Render(f)) == Some(f)
  {
    TimeParts(f);
    DateParses(f.date);
    ReadsFields(Render(f), f);
  }

  lemma ReadsFields(t: string, f: Fields)
    requires |t| == 23 && t[10] == 'T' && t[13] == ':' && t[16] == ':' && t[19] == '.'
    requires HasDate(t[..10], f.date)
    requires ParseNumber(t[11..13]) == Some(f.hour) && ParseNumber(t[14..16]) == Some(f.minute)
    requires ParseNumber(t[17..19]) == Some(f.second) && ParseNumber(t[20..]) == Some(f.millis)
    ensures Separators(t) && ParseFields(t) == Some(f)
  {
    SliceOfPrefix(t, 10, 0, 4);
    SliceOfPrefix(t, 10, 5, 7);
    SliceOfPrefix(t, 10, 8, 10);
    assert t[4] == t[..10][4] && t[7] == t[..10][7];
    assert t[20..] == t[20..23];
  }

  predicate HasDate(d: string, date: Date) {
    && |d| == 10 && d[4] == '-' && d[7] == '-'
    && ParseNumber(d[0..4]) == Some(date.year)
    && ParseNumber(d[5..7]) == Some(date.month)
    && ParseNumber(d[8..10]) == Some(date.day)
  }

  lemma DateParses(date: Date)
    requires 0 <= date.year <= 9999 && 1 <= date.month <= 12 && 1 <= date.day <= 31
    ensures HasDate(RenderDate(date), date)
  {
    PowersOfTen();
    ZeroPadFixed(date.year, 4);
    ParseFixedDigits(date.year, 4);
    DateParts(date);
    var d := RenderDate(date);
    assert d[8..] == d[8..10] && d[0..4] == d[..4];
  }

  lemma {:induction false} ParseRejectsMinus(text: string)
    requires |text| >= 1 && text[0] == '-'
    ensures ParseNumber(text) == None
  {
    if |text| > 1 {
      ParseRejectsMinus(text[..|text| - 1]);
    }
  }

  /** A year outside 0 to 9999 makes the text unreadable: too long, or with a sign where the layout
      has a digit. */
  lemma RenderUnreadable(f: Fields)
    requires InRange(f) && !(0 <= f.date.year <= 9999)
    ensures ParseTimestamp(Render(f)) == None
  {
    PowersOfTen();
    DateParts(f.date);
    TimeParts(f);
    if f.date.year > 9999 {
      ZeroPadLong(f.date.year, 4);
    } else {
      var text := Render(f);
      LeftPadLength(Digits(-f.date.year), 3);
      assert text[0] == RenderDate(f.date)[0] == ZeroPad(f.date.year, 4)[0] == '-';
      if Separators(text) {
        ParseRejectsMinus(text[0..4]);
      }
    }
  }

  /** The days whose text the server reads back correctly: 0000-02-29 to 9999-12-31. */
  predicate ReadableDay(days: int) {
    -719469 <= days <= 2932896
  }

  lemma LastReadableDay()
    ensures DayNumber(Date(9999, 12, 31)) == 2932896
    ensures DayNumber(Date(10000, 1, 1)) == 2932897
  {
    DaysToYearClosed(9999);
    DaysToYearClosed(10000);
    DaysToMonthTable(9999, 12);
  }

  lemma YearAtMost9999(date: Date)
    requires ValidDate(date)
    ensures date.year <= 9999 <==> DayNumber(date) <= 2932896
  {
    LastReadableDay();
    if date.year <= 9999 {
      if Before(date, Date(9999, 12, 31)) {
        DayNumberMonotone(date, Date(9999, 12, 31));
      }
    } else if Before(Date(10000, 1, 1), date) {
      DayNumberMonotone(Date(10000, 1, 1), date);
    }
  }

  lemma YearAtLeastZero(date: Date)
    requires ValidDate(date)
    ensures date.year >= 0 <==> DayNumber(date) >= -719528
  {
    YearZero();
    if date.year >= 0 {
      DayNumberMonotone(Date(-1, 12, 31), date);
    } else if Before(date, Date(-1, 12, 31)) {
      DayNumberMonotone(date, Date(-1, 12, 31));
    }
  }

  /** Which day numbers get a year from 0 to 9999, for days on which the calendar is right. */
  lemma ReadableYear(days: int)
    requires EraExact(days)
    ensures ReadableDay(days) <==> 0 <= CivilFromDays(days).year <= 9999
  {
    CivilCorrectIff(days);
    var date := CivilFromDays(days);
    YearAtMost9999(date);
    YearAtLeastZero(date);
    if -719528 <= days {
      EraGap(days);
    }
  }

  lemma EraGap(days: int)
    requires EraExact(days) && -719528 <= days
    ensures days >= -719469
  {}

  lemma YearZero()
    ensures DayNumber(Date(-1, 12, 31)) == -719529
  {
    DaysToYearClosed(-1);
    assert DaysToYear(-1) == -719893;
    DaysToMonthTable(-1, 12);
    assert DaysToMonth(-1, 12) == 334;
  }

  lemma FieldMillisOf(time: int)
    requires EraExact(FloorDays(time))
    ensures ValidFields(FieldsOf(time)) && FieldMillis(FieldsOf(time)) == FloorMillis(time)
  {
    CivilCorrectIff(FloorDays(time));
    FieldsOfTime(time);
  }

  lemma SameMillisSameDay(f: Fields, time: int)
    requires ValidFields(f) && FieldMillis(f) == FloorMillis(time)
    ensures DayNumber(f.date) == FloorDays(time)
  {
    var inDay := (f.hour * 60 + f.minute) * 60000 + f.second * 1000 + f.millis;
    assert 0 <= inDay < 86400000;
    assert FloorMillis(time) == 86400000 * DayNumber(f.date) + inDay;
    assert FloorMillis(time) / 1000 == 86400 * DayNumber(f.date) + inDay / 1000;
  }

  lemma FormatReads(time: int)
    ensures ParseTimestamp(FormatUtc(time)) ==
      var f := FieldsOf(time);
      if 0 <= f.date.year <= 9999 && ValidFields(f) then Some(FieldMillis(f)) else None
  {
    var f := FieldsOf(time);
    FormatRenders(time);
    FieldsOfTime(time);
    if 0 <= f.date.year <= 9999 {
      RenderParses(f);
    } else {
      RenderUnreadable(f);
    }
  }

  lemma ReadableIsExact(days: int)
    requires ReadableDay(days)
    ensures EraExact(days)
  {}

  lemma WrongDayMisread(time: int)
    requires !EraExact(FloorDays(time))
    ensures ParseTimestamp(FormatUtc(time)) != Some(FloorMillis(time))
  {
    FormatReads(time);
    CivilCorrectIff(FloorDays(time));
    var f := FieldsOf(time);
    if ValidFields(f) && FieldMillis(f) == FloorMillis(time) {
      SameMillisSameDay(f, time);
    }
  }

  lemma RightDayRead(time: int, days: int)
    requires days == FloorDays(time) && EraExact(days)
    ensures ParseTimestamp(FormatUtc(time)) ==
      if 0 <= CivilFromDays(days).year <= 9999 then Some(FloorMillis(time)) else None
  {
    FormatReads(time);
    FieldMillisOf(time);
  }

  /** The server reads the text back as the instant, truncated to the millisecond, exactly for the
      instants from 0000-02-29 to the end of 9999, the years before 1970 included. */
  lemma FormatRoundTripIff(time: int)
    ensures ParseTimestamp(FormatUtc(time)) == Some(FloorMillis(time)) <==> ReadableDay(FloorDays(time))
  {
    var days := FloorDays(time);
    if EraExact(days) {
      RightDayRead(time, days);
      ReadableYear(days);
    } else {
      WrongDayMisread(time);
      if ReadableDay(days) {
        ReadableIsExact(days);
      }
    }
  }

  /** On the same instants the text is exactly 23 characters in the server's layout. */
  lemma FormatLayout(time: int)
    requires ReadableDay(FloorDays(time))
    ensures |FormatUtc(time)| == 23 && Separators(FormatUtc(time))
  {
    FormatRoundTripIff(time);
  }

  // ---- Order ----------------------------------------------------------------------------------

  /** Character-by-character comparison of texts. */
  predicate TextLess(a: string, b: string) {
    if a == "" || b == "" then a == "" && b != ""
    else a[0] < b[0] || (a[0] == b[0] && TextLess(a[1..], b[1..]))
  }

  lemma {:induction false} TextLessPrefix(p: string, q: string, a: string, b: string)
    requires |p| == |q|
    ensures TextLess(p + a, q + b) <==> TextLess(p, q) || (p == q && TextLess(a, b))
  {
    if p == "" {
      assert p + a == a && q + b == b;
    } else {
      assert (p + a)[1..] == p[1..] + a && (q + b)[1..] == q[1..] + b;
      TextLessPrefix(p[1..], q[1..], a, b);
      assert p == q <==> p[0] == q[0] && p[1..] == q[1..];
    }
  }

  lemma {:induction false} DigitsOrder(m: nat, n: nat, width: nat)
    requires m < Pow10(width) && n < Pow10(width)
    ensures TextLess(FixedDigits(m, width), FixedDigits(n, width)) <==> m < n
    ensures FixedDigits(m, width) == FixedDigits(n, width) <==> m == n
  {
    if width > 0 {
      DigitsOrder(m / 10, n / 10, width - 1);
      FixedDigitsLength(m / 10, width - 1);
      FixedDigitsLength(n / 10, width - 1);
      var a, b := [DigitChar(m % 10)], [DigitChar(n % 10)];
      TextLessPrefix(FixedDigits(m / 10, width - 1), FixedDigits(n / 10, width - 1), a, b);
      assert a[1..] == "" && b[1..] == "";
      ParseFixedDigits(m, width);
      ParseFixedDigits(n, width);
    }
  }

  lemma EqualAppends(p: string, q: string, a: string, b: string)
    requires |p| == |q|
    ensures p + a == q + b <==> p == q && a == b
  {
    if p + a == q + b {
      assert p == (p + a)[..|p|] && q == (q + b)[..|q|];
      assert a == (p + a)[|p|..] && b == (q + b)[|q|..];
    }
  }

  /** One more field extends a comparison already decided on the fields before it. */
  lemma AppendOrder(p: string, q: string, sep: char, m: nat, n: nat, width: nat)
    requires |p| == |q| && width > 0 && m < Pow10(width) && n < Pow10(width)
    ensures |Append(p, sep, m, width)| == |Append(q, sep, n, width)|
    ensures TextLess(Append(p, sep, m, width), Append(q, sep, n, width)) <==>
      TextLess(p, q) || (p == q && m < n)
    ensures Append(p, sep, m, width) == Append(q, sep, n, width) <==> p == q && m == n
  {
    ZeroPadFixed(m, width);
    ZeroPadFixed(n, width);
    DigitsOrder(m, n, width);
    var a, b := FixedDigits(m, width), FixedDigits(n, width);
    TextLessPrefix(p + [sep], q + [sep], a, b);
    TextLessPrefix(p, q, [sep], [sep]);
    TextLessIrreflexive([sep]);
    EqualAppends(p, q, [sep], [sep]);
    EqualAppends(p + [sep], q + [sep], a, b);
  }

  lemma {:induction false} TextLessIrreflexive(a: string)
    ensures !TextLess(a, a)
  {
    if a != "" {
      TextLessIrreflexive(a[1..]);
    }
  }

  predicate FieldsBefore(a: Fields, b: Fields) {
    || Before(a.date, b.date)
    || (a.date == b.date && (
       || a.hour < b.hour
       || (a.hour == b.hour && (
          || a.minute < b.minute
          || (a.minute == b.minute && (
             || a.second < b.second
             || (a.second == b.second && a.millis < b.millis)))))))
  }

  lemma DateTextOrder(a: Date, b: Date)
    requires 0 <= a.year <= 9999 && 1 <= a.month <= 12 && 1 <= a.day <= 31
    requires 0 <= b.year <= 9999 && 1 <= b.month <= 12 && 1 <= b.day <= 31
    ensures |RenderDate(a)| == |RenderDate(b)|
    ensures TextLess(RenderDate(a), RenderDate(b)) <==> Before(a, b)
    ensures RenderDate(a) == RenderDate(b) <==> a == b
  {
    PowersOfTen();
    var ya, yb := ZeroPad(a.year, 4), ZeroPad(b.year, 4);
    ZeroPadFixed(a.year, 4);
    ZeroPadFixed(b.year, 4);
    DigitsOrder(a.year, b.year, 4);
    AppendOrder(ya, yb, '-', a.month, b.month, 2);
    AppendOrder(Append(ya, '-', a.month, 2), Append(yb, '-', b.month, 2), '-', a.day, b.day, 2);
  }

  lemma TextOrder(a: Fields, b: Fields)
    requires InRange(a) && 0 <= a.date.year <= 9999
    requires InRange(b) && 0 <= b.date.year <= 9999
    ensures TextLess(Render(a), Render(b)) <==> FieldsBefore(a, b)
  {
    PowersOfTen();
    DateTextOrder(a.date, b.date);
    var ta, tb := RenderDate(a.date), RenderDate(b.date);
    AppendOrder(ta, tb, 'T', a.hour, b.hour, 2);
    ta, tb := Append(ta, 'T', a.hour, 2), Append(tb, 'T', b.hour, 2);
    AppendOrder(ta, tb, ':', a.minute, b.minute, 2);
    ta, tb := Append(ta, ':', a.minute, 2), Append(tb, ':', b.minute, 2);
    AppendOrder(ta, tb, ':', a.second, b.second, 2);
    ta, tb := Append(ta, ':', a.second, 2), Append(tb, ':', b.second, 2);
    AppendOrder(ta, tb, '.', a.millis, b.millis, 3);
  }

  lemma FieldsOrder(a: Fields, b: Fields)
    requires ValidFields(a) && ValidFields(b)
    ensures FieldsBefore(a, b) ==> FieldMillis(a) < FieldMillis(b)
  {
    if Before(a.date, b.date) {
      DayNumberMonotone(a.date, b.date);
    }
  }

  lemma FieldsTotal(a: Fields, b: Fields)
    ensures a == b || FieldsBefore(a, b) || FieldsBefore(b, a)
  {}

  /** The order of two texts is the order of the instants, to the millisecond. */
  lemma FormatOrder(s: int, t: int)
    requires ReadableDay(FloorDays(s)) && ReadableDay(FloorDays(t))
    ensures TextLess(FormatUtc(s), FormatUtc(t)) <==> FloorMillis(s) < FloorMillis(t)
  {
    var a, b := FieldsOf(s), FieldsOf(t);
    ReadableFields(s);
    ReadableFields(t);
    TextOrder(a, b);
    FieldsTotal(a, b);
    FieldsOrder(a, b);
    FieldsOrder(b, a);
    TextOrder(b, a);
  }

  lemma ReadableFields(time: int)
    requires ReadableDay(FloorDays(time))
    ensures FormatUtc(time) == Render(FieldsOf(time))
    ensures InRange(FieldsOf(time)) && 0 <= FieldsOf(time).date.year <= 9999
    ensures ValidFields(FieldsOf(time)) && FieldMillis(FieldsOf(time)) == FloorMillis(time)
  {
    ReadableIsExact(FloorDays(time));
    FormatRenders(time);
    FieldsOfTime(time);
    ReadableYear(FloorDays(time));
    FieldMillisOf(time);
  }
}
