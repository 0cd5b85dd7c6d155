/**
 * Time and date strings.  Instants are milliseconds since 1970-01-01 00:00
 * UTC (Java `Date.getTime()`); the layouts work at minute granularity.  The
 * calendar is the proleptic Gregorian one from 1970 on, without time zones.
 *
 * The two textual forms used by the stream layout are the minute directory
 * `yyyy/MM/dd/HH/mm` (with its hour directory `yyyy/MM/dd/HH`) and the
 * timestamp inside collector file names `yyyy-MM-dd-HH-mm`.
 */
module Calendar {

  import opened Wrappers
  import opened Strings

  const MillisPerMinute: nat := 60000
  const MillisPerHour: nat := 3600000
  const MinutesPerDay: nat := 1440
  const EpochYear: nat := 1970

  predicate IsLeapYear(y: nat) {
    y % 4 == 0 && (y % 100 != 0 || y % 400 == 0)
  }

  function DaysInMonth(y: nat, m: nat): nat
    requires 1 <= m <= 12
  {
    if m == 2 then (if IsLeapYear(y) then 29 else 28)
    else if m == 4 || m == 6 || m == 9 || m == 11 then 30
    else 31
  }

  /** Number of days in months `m` through December of year `y`. */
  function DaysFromMonth(y: nat, m: nat): nat
    requires 1 <= m <= 13
    decreases 13 - m
  {
    if m == 13 then 0 else DaysInMonth(y, m) + DaysFromMonth(y, m + 1)
  }

  function DaysInYear(y: nat): nat {
    DaysFromMonth(y, 1)
  }

  /** Calendar fields of one minute. */
  datatype Civil = Civil(year: nat, month: nat, day: nat, hour: nat, minute: nat)

  predicate ValidCivil(c: Civil) {
    && c.year >= EpochYear
    && 1 <= c.month <= 12
    && 1 <= c.day <= DaysInMonth(c.year, c.month)
    && c.hour < 24
    && c.minute < 60
  }

  /** The year and the 0-based day of that year, `days` days after 1 January of year `y`. */
  function YearOf(days: nat, y: nat): (r: (nat, nat))
    ensures r.0 >= y && r.1 < DaysInYear(r.0)
    decreases days
  {
    if days < DaysInYear(y) then (y, days) else YearOf(days - DaysInYear(y), y + 1)
  }

  /** The month and 1-based day of 0-based day `d`, counted from the start of month `m` of year `y`. */
  function MonthOf(d: nat, y: nat, m: nat): (r: (nat, nat))
    requires 1 <= m <= 12 && d < DaysFromMonth(y, m)
    ensures m <= r.0 <= 12 && 1 <= r.1 <= DaysInMonth(y, r.0)
    decreases 12 - m
  {
    if d < DaysInMonth(y, m) then (m, d + 1) else MonthOf(d - DaysInMonth(y, m), y, m + 1)
  }

  /** Calendar fields of the minute `minutes` minutes after the epoch. */
  function CivilOf(minutes: nat): (c: Civil)
    ensures ValidCivil(c)
  {
    var ymd := YearOf(minutes / MinutesPerDay, EpochYear);
    var md := MonthOf(ymd.1, ymd.0, 1);
    Civil(ymd.0, md.0, md.1, (minutes % MinutesPerDay) / 60, minutes % 60)
  }

  /** Days in the years `y0` up to but excluding `y`. */
  function YearsDays(y0: nat, y: nat): nat
    requires y0 <= y
    decreases y - y0
  {
    if y0 == y then 0 else DaysInYear(y0) + YearsDays(y0 + 1, y)
  }

  /** Days in the months `m0` up to but excluding `m` of year `y`. */
  function MonthsDays(y: nat, m0: nat, m: nat): nat
    requires 1 <= m0 <= m <= 13
    decreases m - m0
  {
    if m0 == m then 0 else DaysInMonth(y, m0) + MonthsDays(y, m0 + 1, m)
  }

  /** Minutes since the epoch of valid calendar fields. */
  function MinutesOf(c: Civil): nat
    requires ValidCivil(c)
  {
    (YearsDays(EpochYear, c.year) + MonthsDays(c.year, 1, c.month) + c.day - 1) * MinutesPerDay
      + c.hour * 60 + c.minute
  }

  lemma {:induction false} YearOfInverse(days: nat, y: nat)
    ensures YearsDays(y, YearOf(days, y).0) + YearOf(days, y).1 == days
    decreases days
  {
    if days >= DaysInYear(y) { YearOfInverse(days - DaysInYear(y), y + 1); }
  }

  lemma {:induction false} MonthOfInverse(d: nat, y: nat, m: nat)
    requires 1 <= m <= 12 && d < DaysFromMonth(y, m)
    ensures MonthsDays(y, m, MonthOf(d, y, m).0) + MonthOf(d, y, m).1 - 1 == d
    decreases 12 - m
  {
    var r := MonthOf(d, y, m);
    if d < DaysInMonth(y, m) {
      assert r == (m, d + 1);
      assert MonthsDays(y, m, m) == 0;
    } else {
      var rest := d - DaysInMonth(y, m);
      MonthOfInverse(rest, y, m + 1);
      assert r == MonthOf(rest, y, m + 1);
      assert MonthsDays(y, m, r.0) == DaysInMonth(y, m) + MonthsDays(y, m + 1, r.0);
    }
  }

  lemma MinuteSplit(minutes: nat)
    ensures (minutes / MinutesPerDay) * MinutesPerDay + ((minutes % MinutesPerDay) / 60) * 60 + minutes % 60
              == minutes
  {
    var q, r := minutes / 1440, minutes % 1440;
    assert minutes == q * 1440 + r;
    assert r == (r / 60) * 60 + r % 60;
    assert minutes == (q * 24 + r / 60) * 60 + r % 60;
    assert minutes % 60 == r % 60;
  }

  /** Converting a minute to calendar fields and back loses nothing. */
  lemma CivilRoundTrip(minutes: nat)
    ensures MinutesOf(CivilOf(minutes)) == minutes
  {
    var days := minutes / MinutesPerDay;
    var ymd := YearOf(days, EpochYear);
    YearOfInverse(days, EpochYear);
    MonthOfInverse(ymd.1, ymd.0, 1);
    MinuteSplit(minutes);
  }

  // ---- textual forms ----

  /** `pieces` joined with `sep` (the last piece may contain `sep`). */
  function JoinLeft(pieces: seq<string>, sep: char): string
    requires |pieces| > 0
  {
    if |pieces| == 1 then pieces[0] else pieces[0] + [sep] + JoinLeft(pieces[1..], sep)
  }

  /** `pieces` joined with `sep`, grouped from the right (the first piece may contain `sep`). */
  function JoinRight(pieces: seq<string>, sep: char): string
    requires |pieces| > 0
  {
    if |pieces| == 1 then pieces[0]
    else JoinRight(pieces[..|pieces| - 1], sep) + [sep] + pieces[|pieces| - 1]
  }

  /** `s` cut at its first `n` occurrences of `sep`. */
  function SplitFromLeft(s: string, sep: char, n: nat): (r: Option<seq<string>>)
    ensures r.Some? ==> |r.value| == n + 1
  {
    if n == 0 then Some([s])
    else match SplitFirst(s, sep)
      case None => None
      case Some(ab) =>
        match SplitFromLeft(ab.1, sep, n - 1)
        case None => None
        case Some(rest) => Some([ab.0] + rest)
  }

  /** `s` cut at its last `n` occurrences of `sep`. */
  function SplitFromRight(s: string, sep: char, n: nat): (r: Option<seq<string>>)
    ensures r.Some? ==> |r.value| == n + 1
  {
    if n == 0 then Some([s])
    else match SplitLast(s, sep)
      case None => None
      case Some(ab) =>
        match SplitFromRight(ab.0, sep, n - 1)
        case None => None
        case Some(init) => Some(init + [ab.1])
  }

  lemma SplitFromLeftCons(pieces: seq<string>, sep: char)
    requires |pieces| > 1 && sep !in pieces[0]
    requires SplitFromLeft(JoinLeft(pieces[1..], sep), sep, |pieces| - 2) == Some(pieces[1..])
    ensures SplitFromLeft(JoinLeft(pieces, sep), sep, |pieces| - 1) == Some(pieces)
  {
    var tail := JoinLeft(pieces[1..], sep);
    var s := JoinLeft(pieces, sep);
    assert s == pieces[0] + [sep] + tail;
    SplitFirstJoin(pieces[0], sep, tail);
    SplitFromLeftStep(s, sep, |pieces| - 1, pieces[0], tail, pieces[1..]);
    assert [pieces[0]] + pieces[1..] == pieces;
  }

  /** One step of `SplitFromLeft`: cut at the first separator, then split the rest. */
  lemma SplitFromLeftStep(s: string, sep: char, n: nat, a: string, b: string, rest: seq<string>)
    requires n > 0 && SplitFirst(s, sep) == Some((a, b))
    requires SplitFromLeft(b, sep, n - 1) == Some(rest)
    ensures SplitFromLeft(s, sep, n) == Some([a] + rest)
  {
  }

  lemma {:induction false} SplitFromLeftJoin(pieces: seq<string>, sep: char)
    requires |pieces| > 0
    requires forall i :: 0 <= i < |pieces| - 1 ==> sep !in pieces[i]
    ensures SplitFromLeft(JoinLeft(pieces, sep), sep, |pieces| - 1) == Some(pieces)
  {
    if |pieces| > 1 {
      assert forall i :: 0 <= i < |pieces[1..]| - 1 ==> pieces[1..][i] == pieces[i + 1];
      SplitFromLeftJoin(pieces[1..], sep);
      SplitFromLeftCons(pieces, sep);
    } else {
      assert pieces == [pieces[0]];
    }
  }

  lemma {:induction false} SplitFromRightJoin(pieces: seq<string>, sep: char)
    requires |pieces| > 0
    requires forall i :: 0 < i < |pieces| ==> sep !in pieces[i]
    ensures SplitFromRight(JoinRight(pieces, sep), sep, |pieces| - 1) == Some(pieces)
  {
    if |pieces| > 1 {
      var init := pieces[..|pieces| - 1];
      var head := JoinRight(init, sep);
      SplitLastJoin(head, sep, pieces[|pieces| - 1]);
      assert SplitLast(JoinRight(pieces, sep), sep) == Some((head, pieces[|pieces| - 1]));
      SplitFromRightJoin(init, sep);
      assert init + [pieces[|pieces| - 1]] == pieces;
    } else {
      assert pieces == [pieces[0]];
    }
  }

  lemma {:induction false} JoinLeftAppend(pieces: seq<string>, sep: char, tail: string)
    requires |pieces| > 0
    ensures JoinLeft(pieces, sep) + tail
            == JoinLeft(pieces[..|pieces| - 1] + [pieces[|pieces| - 1] + tail], sep)
  {
    if |pieces| > 1 {
      JoinLeftAppend(pieces[1..], sep, tail);
      var q := pieces[..|pieces| - 1] + [pieces[|pieces| - 1] + tail];
      assert q[1..] == pieces[1..][..|pieces| - 2] + [pieces[|pieces| - 1] + tail];
    }
  }

  lemma JoinRightCons(first: string, rest: seq<string>, sep: char)
    requires |rest| > 0
    ensures JoinRight([first] + rest, sep) == first + [sep] + JoinRight(rest, sep)
    decreases |rest|
  {
    if |rest| > 1 {
      var p := [first] + rest;
      assert p[..|p| - 1] == [first] + rest[..|rest| - 1];
      JoinRightCons(first, rest[..|rest| - 1], sep);
    } else {
      assert [first] + rest == [first, rest[0]];
    }
  }

  /** The calendar fields of a minute as the digit strings the date patterns print. */
  function FieldStrings(c: Civil): (r: seq<string>)
    ensures |r| == 5
    ensures forall i :: 0 <= i < 5 ==> |r[i]| > 0 && AllDigits(r[i])
  {
    [Padded(c.year, 4), Padded(c.month, 2), Padded(c.day, 2), Padded(c.hour, 2), Padded(c.minute, 2)]
  }

  /** Calendar fields read back from five digit strings; `None` if one is not a number or the date is invalid. */
  function CivilFromFields(f: seq<string>): (r: Option<Civil>)
    requires |f| == 5
    ensures r.Some? ==> ValidCivil(r.value)
  {
    var y, mo, d, h, mi := ParseNat(f[0]), ParseNat(f[1]), ParseNat(f[2]), ParseNat(f[3]), ParseNat(f[4]);
    if y.None? || mo.None? || d.None? || h.None? || mi.None? then None
    else
      var c := Civil(y.value, mo.value, d.value, h.value, mi.value);
      if ValidCivil(c) then Some(c) else None
  }

  lemma FieldsRoundTrip(c: Civil)
    ensures CivilFromFields(FieldStrings(c)) == (if ValidCivil(c) then Some(c) else None)
  {
    PaddedRoundTrip(c.year, 4);
    PaddedRoundTrip(c.month, 2);
    PaddedRoundTrip(c.day, 2);
    PaddedRoundTrip(c.hour, 2);
    PaddedRoundTrip(c.minute, 2);
  }

  function MinuteOfMillis(t: nat): nat { t / MillisPerMinute }

  /** `yyyy/MM/dd/HH/mm` of the minute containing instant `t`. */
  function MinuteDirName(t: nat): string {
    JoinLeft(FieldStrings(CivilOf(MinuteOfMillis(t))), '/')
  }

  /** `yyyy/MM/dd/HH` of the hour containing instant `t`. */
  function HourDirName(t: nat): string {
    JoinLeft(FieldStrings(CivilOf(MinuteOfMillis(t)))[..4], '/')
  }

  /** `yyyy-MM-dd-HH-mm` of the minute `minute` minutes after the epoch. */
  function StampName(minute: nat): string {
    JoinRight(FieldStrings(CivilOf(minute)), '-')
  }

  /** Hour of the day (0..23) of instant `t` (`Calendar.HOUR_OF_DAY`). */
  function HourOfDay(t: nat): (h: nat)
    ensures h < 24
  {
    (t / MillisPerHour) % 24
  }

  /** The leading run of decimal digits of `s`. */
  function DigitPrefix(s: string): (r: string)
    ensures AllDigits(r) && |r| <= |s| && r == s[..|r|]
  {
    if |s| > 0 && IsDigit(s[0]) then [s[0]] + DigitPrefix(s[1..]) else []
  }

  lemma {:induction false} DigitPrefixOf(d: string, rest: string)
    requires AllDigits(d)
    requires rest == [] || !IsDigit(rest[0])
    ensures DigitPrefix(d + rest) == d
    decreases |d|
  {
    if |d| > 0 {
      assert (d + rest)[1..] == d[1..] + rest;
      DigitPrefixOf(d[1..], rest);
    } else {
      assert d + rest == rest;
    }
  }

  /**
   * The instant (start of minute, in ms) written at the start of `s` as
   * `yyyy/MM/dd/HH/mm`; text after the minute digits is ignored, as
   * `DateFormat.parse(String)` ignores it.  `None` when the text does not
   * have that form or names no valid date.
   */
  function ParseMinuteDir(s: string): (r: Option<nat>)
    ensures r.Some? ==> r.value % MillisPerMinute == 0
  {
    match SplitFromLeft(s, '/', 4)
    case None => None
    case Some(p) =>
      var c := CivilFromFields(p[..4] + [DigitPrefix(p[4])]);
      if c.None? then None else Some(MinuteStart(c.value))
  }

  /** The instant (in ms) at which the minute of a valid date begins. */
  function MinuteStart(c: Civil): (r: nat)
    requires ValidCivil(c)
    ensures r % MillisPerMinute == 0
  {
    MinuteMultiple(MinutesOf(c));
    MinutesOf(c) * MillisPerMinute
  }

  lemma MinuteMultiple(n: nat)
    ensures (n * MillisPerMinute) % MillisPerMinute == 0
  {
  }

  /** The minute of a `yyyy-MM-dd-HH-mm` timestamp given as its five fields. */
  function ParseStampFields(f: seq<string>): (r: Option<nat>)
    requires |f| == 5
  {
    var c := CivilFromFields(f);
    if c.None? then None else Some(MinutesOf(c.value))
  }

  lemma FieldStringsHaveNoSeparator(c: Civil, sep: char)
    requires !IsDigit(sep)
    ensures forall i :: 0 <= i < 5 ==> sep !in FieldStrings(c)[i]
  {
  }

  /** Splitting a minute directory name followed by `rest` yields its first four fields and the minute field followed by `rest`. */
  lemma SplitMinuteDir(c: Civil, rest: string)
    ensures SplitFromLeft(JoinLeft(FieldStrings(c), '/') + rest, '/', 4)
            == Some(FieldStrings(c)[..4] + [FieldStrings(c)[4] + rest])
  {
    var f := FieldStrings(c);
    var q := f[..4] + [f[4] + rest];
    JoinLeftAppend(f, '/', rest);
    assert f[..|f| - 1] == f[..4];
    FieldStringsHaveNoSeparator(c, '/');
    assert forall i :: 0 <= i < 4 ==> q[i] == f[i];
    SplitFromLeftJoin(q, '/');
  }

  lemma MinuteOfMillisStart(t: nat)
    ensures MinuteOfMillis(t) * MillisPerMinute == t - t % MillisPerMinute
  {
  }

  lemma ParseMinuteDirOf(s: string, q: seq<string>, c: Civil)
    requires |q| == 5 && SplitFromLeft(s, '/', 4) == Some(q)
    requires CivilFromFields(q[..4] + [DigitPrefix(q[4])]) == Some(c)
    ensures ParseMinuteDir(s) == Some(MinuteStart(c))
  {
  }

  /** The fields of a valid civil minute joined by `/`, alone or followed by `/` and more, parse back to that minute. */
  lemma CivilDirRoundTrip(c: Civil, rest: string)
    requires ValidCivil(c)
    requires rest == [] || rest[0] == '/'
    ensures ParseMinuteDir(JoinLeft(FieldStrings(c), '/') + rest) == Some(MinuteStart(c))
  {
    var f := FieldStrings(c);
    var q := f[..4] + [f[4] + rest];
    assert SplitFromLeft(JoinLeft(f, '/') + rest, '/', 4) == Some(q) by { SplitMinuteDir(c, rest); }
    assert DigitPrefix(q[4]) == f[4] by { DigitPrefixOf(f[4], rest); }
    assert q[..4] + [DigitPrefix(q[4])] == f;
    FieldsRoundTrip(c);
    ParseMinuteDirOf(JoinLeft(f, '/') + rest, q, c);
  }

  /** The instant at which the minute containing `t` begins. */
  function StartOfMinute(t: nat): (r: nat)
    ensures r <= t < r + MillisPerMinute && r % MillisPerMinute == 0
  {
    t - t % MillisPerMinute
  }

  /** A minute directory name, alone or followed by `/` and more, parses back to the start of its minute. */
  lemma MinuteDirRoundTrip(t: nat, rest: string)
    requires rest == [] || rest[0] == '/'
    ensures ParseMinuteDir(MinuteDirName(t) + rest) == Some(StartOfMinute(t))
  {
    MinuteStartOf(t);
    DirParsesTo(MinuteDirName(t), CivilOf(MinuteOfMillis(t)), rest, StartOfMinute(t));
  }

  /** The name of the minute directory of `c`, followed by `rest`, parses to the start of that minute. */
  lemma DirParsesTo(name: string, c: Civil, rest: string, start: nat)
    requires ValidCivil(c) && name == JoinLeft(FieldStrings(c), '/') && MinuteStart(c) == start
    requires rest == [] || rest[0] == '/'
    ensures ParseMinuteDir(name + rest) == Some(start)
  {
    CivilDirRoundTrip(c, rest);
  }

  /** The minute containing instant `t` begins at `t` less its milliseconds into that minute. */
  lemma MinuteStartOf(t: nat)
    ensures MinuteStart(CivilOf(MinuteOfMillis(t))) == StartOfMinute(t)
  {
    var m := MinuteOfMillis(t);
    CivilRoundTrip(m);
    MinuteOfMillisStart(t);
  }

  // ---- hours ----

  /** Minutes `m` since the epoch fall in hour `m / 60`, which fixes the day and the hour of day. */
  lemma DayAndHourOfMinute(m: nat)
    ensures m / MinutesPerDay == (m / 60) / 24
    ensures (m % MinutesPerDay) / 60 == (m / 60) % 24
  {
    var q, r := m / 60, m % 60;
    var p, h := q / 24, q % 24;
    assert m == p * 1440 + (h * 60 + r);
    assert 0 <= h * 60 + r < 1440;
  }

  lemma MinuteOfMillisHour(t: nat)
    ensures MinuteOfMillis(t) / 60 == t / MillisPerHour
  {
    var q, r := t / 3600000, t % 3600000;
    assert t == q * 3600000 + r;
    var mr := r / 60000;
    assert r == mr * 60000 + r % 60000;
    assert t == (q * 60 + mr) * 60000 + r % 60000;
    assert MinuteOfMillis(t) == q * 60 + mr;
  }

  /** Two instants in the same hour have the same hour directory. */
  lemma HourDirNameOfHour(x: nat, y: nat)
    requires x / MillisPerHour == y / MillisPerHour
    ensures HourDirName(x) == HourDirName(y)
  {
    var mx, my := MinuteOfMillis(x), MinuteOfMillis(y);
    MinuteOfMillisHour(x);
    MinuteOfMillisHour(y);
    DayAndHourOfMinute(mx);
    DayAndHourOfMinute(my);
    var cx, cy := CivilOf(mx), CivilOf(my);
    assert cx.year == cy.year && cx.month == cy.month && cx.day == cy.day && cx.hour == cy.hour;
    assert FieldStrings(cx)[..4] == FieldStrings(cy)[..4];
  }

  /** `add(HOUR_OF_DAY, 1); set(MINUTE, 0)`: the next hour, keeping seconds and milliseconds. */
  function NextHourStart(t: nat): (r: nat)
    ensures r == (t / MillisPerHour + 1) * MillisPerHour + t % MillisPerMinute
    ensures r > t
    ensures r / MillisPerHour == t / MillisPerHour + 1
    ensures r % MillisPerMinute == t % MillisPerMinute
  {
    var q, r0 := t / 3600000, t % 3600000;
    var mr := r0 / 60000;
    assert t == q * 3600000 + mr * 60000 + r0 % 60000;
    assert t % 60000 == r0 % 60000;
    assert (t / MillisPerMinute) % 60 == mr by { assert t / 60000 == q * 60 + mr; }
    assert ((q + 1) * 3600000 + t % 60000) % 60000 == t % 60000 by {
      assert (q + 1) * 3600000 + t % 60000 == ((q + 1) * 60) * 60000 + t % 60000;
    }
    t + MillisPerHour - ((t / MillisPerMinute) % 60) * MillisPerMinute
  }

  /** One minute later the hour of day is the same exactly when the hour is the same. */
  lemma NextMinuteHour(t: nat)
    ensures HourOfDay(t + MillisPerMinute) == HourOfDay(t)
            <==> (t + MillisPerMinute) / MillisPerHour == t / MillisPerHour
  {
    var q := t / 3600000;
    assert (t + 60000) / 3600000 == q || (t + 60000) / 3600000 == q + 1;
  }
}
