// Financial dates as text (FormatSteamDate and SteamDateDaysAgo in
// src/platform/TimeUtil.cpp): why comparing strings compares days.
module SteamDate {
  import opened Text
  import opened Decimal
  import opened Wrappers

  datatype SystemTime = SystemTime(
    year: nat, month: nat, day: nat, hour: nat, minute: nat, second: nat, milliseconds: nat)

  datatype Date = Date(year: nat, month: nat, day: nat)

  function DateOf(st: SystemTime): Date {
    Date(st.year, st.month, st.day)
  }

  // --- %04u/%02u/%02u ------------------------------------------------------------------

  function Zeros(n: nat): string {
    if n == 0 then "" else ['0'] + Zeros(n - 1)
  }

  /** printf's %0wu: at least w characters, zeros in front. */
  function Padded(n: nat, w: nat): string {
    var t := Decimal.Text(n);
    if |t| < w then Zeros(w - |t|) + t else t
  }

  function FormatDate(d: Date): string {
    Padded(d.year, 4) + "/" + Padded(d.month, 2) + "/" + Padded(d.day, 2)
  }

  /** The last w digits of n. */
  function Digits(n: nat, w: nat): (s: string)
    ensures |s| == w
  {
    if w == 0 then "" else Digits(n / 10, w - 1) + [Digit(n % 10)]
  }

  function Pow10(w: nat): nat {
    if w == 0 then 1 else 10 * Pow10(w - 1)
  }

  lemma {:induction false} ZeroDigits(w: nat)
    ensures Digits(0, w) == Zeros(w)
  {
    if w > 0 {
      ZeroDigits(w - 1);
      ZerosAppend(w - 1);
    }
  }

  lemma {:induction false} ZerosAppend(w: nat)
    ensures Zeros(w) + ['0'] == Zeros(w + 1) && |Zeros(w)| == w
  {
    if w > 0 {
      ZerosAppend(w - 1);
      assert ['0'] + Zeros(w - 1) + ['0'] == ['0'] + (Zeros(w - 1) + ['0']);
    }
  }

  /** A number that fits is written with exactly w digits. */
  lemma {:induction false} PaddedIsDigits(n: nat, w: nat)
    requires w > 0 && n < Pow10(w)
    ensures Padded(n, w) == Digits(n, w)
    decreases w
  {
    ZerosAppend(w - 1);
    if n < 10 {
      ZeroDigits(w - 1);
      assert Decimal.Text(n) == [Digit(n)];
      assert w == 1 ==> Zeros(0) + [Digit(n)] == [Digit(n)];
    } else {
      PaddedIsDigits(n / 10, w - 1);
      var t := Decimal.Text(n / 10);
      if |t| < w - 1 {
        assert Zeros(w - 1 - |t|) + t + [Digit(n % 10)] == Zeros(w - 1 - |t|) + (t + [Digit(n % 10)]);
      }
    }
  }

  /** Dates whose fields fit the format. */
  predicate Fits(d: Date) {
    d.year < 10_000 && d.month < 100 && d.day < 100
  }

  lemma DigitsAre(n: nat, w: nat)
    requires w == 2 || w == 4
    ensures w == 2 ==> Digits(n, w) == [Digit(n / 10 % 10), Digit(n % 10)]
    ensures w == 4 ==>
              Digits(n, w) == [Digit(n / 1000 % 10), Digit(n / 100 % 10), Digit(n / 10 % 10), Digit(n % 10)]
  {
    assert Digits(n, 1) == [Digit(n % 10)] by { assert Digits(n / 10, 0) == ""; }
    assert Digits(n / 10, 1) == [Digit(n / 10 % 10)] by { assert Digits(n / 10 / 10, 0) == ""; }
    if w == 4 {
      DigitsAre(n / 100, 2);
      assert n / 10 / 10 == n / 100 && n / 100 / 10 == n / 1000;
      assert Digits(n / 10, 3) == Digits(n / 100, 2) + [Digit(n / 10 % 10)];
    }
  }

  lemma FieldText(n: nat, w: nat)
    requires w == 2 || w == 4
    requires n < (if w == 2 then 100 else 10_000)
    ensures w == 2 ==> Padded(n, w) == [Digit(n / 10), Digit(n % 10)]
    ensures w == 4 ==> Padded(n, w) == [Digit(n / 1000), Digit(n / 100 % 10), Digit(n / 10 % 10), Digit(n % 10)]
  {
    assert Pow10(2) == 100 && Pow10(4) == 10_000 by {
      assert Pow10(1) == 10 && Pow10(3) == 1000;
    }
    PaddedIsDigits(n, w);
    DigitsAre(n, w);
    hide Padded, Digits, Pow10;
  }

  lemma TenChars(a: char, b: char, c: char, d: char, e: char, f: char, g: char, h: char)
    ensures [a, b, c, d] + "/" + [e, f] + "/" + [g, h] == [a, b, c, d, '/', e, f, '/', g, h]
  {}

  /** The text, character by character: year, '/', month, '/', day. */
  lemma FormatIs(d: Date)
    requires Fits(d)
    ensures var y, m, k := d.year, d.month, d.day;
            FormatDate(d) == [Digit(y / 1000), Digit(y / 100 % 10), Digit(y / 10 % 10), Digit(y % 10), '/',
                              Digit(m / 10), Digit(m % 10), '/', Digit(k / 10), Digit(k % 10)]
  {
    hide Padded, Digits, Digit;
    FieldText(d.year, 4);
    FieldText(d.month, 2);
    FieldText(d.day, 2);
    var y, m, k := d.year, d.month, d.day;
    TenChars(Digit(y / 1000), Digit(y / 100 % 10), Digit(y / 10 % 10), Digit(y % 10),
             Digit(m / 10), Digit(m % 10), Digit(k / 10), Digit(k % 10));
  }

  // --- Lexical order is numeric order ------------------------------------------------------

  lemma {:induction false} LexAppend(a: string, b: string, s: string, t: string)
    requires |a| == |b|
    ensures LexLe(a + s, b + t) <==> if a == b then LexLe(s, t) else LexLe(a, b)
  {
    if a == [] {
      assert a + s == s && b + t == t;
    } else {
      LexAppend(a[1..], b[1..], s, t);
      assert (a + s)[1..] == a[1..] + s && (b + t)[1..] == b[1..] + t;
      assert a == [a[0]] + a[1..] && b == [b[0]] + b[1..];
    }
  }

  lemma {:induction false} DigitsOrder(n: nat, m: nat, w: nat)
    requires n < Pow10(w) && m < Pow10(w)
    ensures LexLe(Digits(n, w), Digits(m, w)) <==> n <= m
    ensures Digits(n, w) == Digits(m, w) <==> n == m
  {
    if w > 0 {
      var a, b := Digits(n / 10, w - 1), Digits(m / 10, w - 1);
      var c, d := [Digit(n % 10)], [Digit(m % 10)];
      DigitsOrder(n / 10, m / 10, w - 1);
      LexAppend(a, b, c, d);
      assert LexLe(c, d) <==> n % 10 <= m % 10;
      assert a + c == b + d <==> a == b && c == d by {
        assert (a + c)[..w - 1] == a && (b + d)[..w - 1] == b;
        assert (a + c)[w - 1] == c[0] && (b + d)[w - 1] == d[0];
      }
    }
  }

  predicate Before(a: Date, b: Date) {
    a.year < b.year || (a.year == b.year && (a.month < b.month || (a.month == b.month && a.day < b.day)))
  }

  /** Formatted dates compare as the dates do. */
  lemma FormatOrder(a: Date, b: Date)
    requires Fits(a) && Fits(b)
    ensures LexLe(FormatDate(a), FormatDate(b)) <==> a == b || Before(a, b)
    ensures FormatDate(a) == FormatDate(b) <==> a == b
  {
    hide Padded, Digits, LexLe;
    var ya, yb, ma, mb, da, db :=
      Padded(a.year, 4), Padded(b.year, 4), Padded(a.month, 2), Padded(b.month, 2), Padded(a.day, 2), Padded(b.day, 2);
    FieldOrder(a.year, b.year, 4);
    FieldOrder(a.month, b.month, 2);
    FieldOrder(a.day, b.day, 2);
    var ra, rb := ma + ("/" + da), mb + ("/" + db);
    assert FormatDate(a) == ya + ("/" + ra) && FormatDate(b) == yb + ("/" + rb);
    LexAppend(ya, yb, "/" + ra, "/" + rb);
    LexAppend("/", "/", ra, rb);
    LexAppend(ma, mb, "/" + da, "/" + db);
    LexAppend("/", "/", da, db);
    SameText(a, b);
  }

  lemma SameText(a: Date, b: Date)
    requires Fits(a) && Fits(b)
    ensures FormatDate(a) == FormatDate(b) ==> a == b
  {
    hide Padded, Digits;
    FieldOrder(a.year, b.year, 4);
    FieldOrder(a.month, b.month, 2);
    FieldOrder(a.day, b.day, 2);
    var s, t := FormatDate(a), FormatDate(b);
    assert s[..4] == Padded(a.year, 4) && t[..4] == Padded(b.year, 4);
    assert s[5..7] == Padded(a.month, 2) && t[5..7] == Padded(b.month, 2);
    assert s[8..10] == Padded(a.day, 2) && t[8..10] == Padded(b.day, 2);
  }

  lemma FieldOrder(n: nat, m: nat, w: nat)
    requires w == 2 || w == 4
    requires n < (if w == 2 then 100 else 10_000) && m < (if w == 2 then 100 else 10_000)
    ensures |Padded(n, w)| == |Padded(m, w)| == w
    ensures LexLe(Padded(n, w), Padded(m, w)) <==> n <= m
    ensures Padded(n, w) == Padded(m, w) <==> n == m
  {
    assert Pow10(2) == 100 && Pow10(4) == 10_000 by {
      assert Pow10(1) == 10 && Pow10(3) == 1000;
    }
    PaddedIsDigits(n, w);
    PaddedIsDigits(m, w);
    DigitsOrder(n, m, w);
  }

  // --- The Gregorian calendar from 1601-01-01 on ----------------------------------------------

  predicate IsLeap(y: nat) {
    y % 4 == 0 && (y % 100 != 0 || y % 400 == 0)
  }

  function MonthLength(y: nat, m: nat): nat {
    if m == 2 then (if IsLeap(y) then 29 else 28)
    else if m == 4 || m == 6 || m == 9 || m == 11 then 30
    else 31
  }

  predicate IsDate(d: Date) {
    1601 <= d.year && 1 <= d.month <= 12 && 1 <= d.day <= MonthLength(d.year, d.month)
  }

  function DaysBeforeMonth(y: nat, m: nat): nat {
    if m <= 1 then 0 else DaysBeforeMonth(y, m - 1) + MonthLength(y, m - 1)
  }

  function DaysBeforeYear(y: nat): nat {
    if y <= 1601 then 0 else DaysBeforeYear(y - 1) + DaysBeforeMonth(y - 1, 13)
  }

  /** Days since 1601-01-01. */
  function DayNumber(d: Date): nat
    requires IsDate(d)
  {
    DaysBeforeYear(d.year) + DaysBeforeMonth(d.year, d.month) + (d.day - 1)
  }

  lemma {:induction false} MonthsGrow(y: nat, m: nat, n: nat)
    requires 1 <= m <= n
    ensures DaysBeforeMonth(y, m) <= DaysBeforeMonth(y, n)
    ensures m < n ==> DaysBeforeMonth(y, m) + MonthLength(y, m) <= DaysBeforeMonth(y, n)
    decreases n
  {
    if m < n {
      MonthsGrow(y, m, n - 1);
    }
  }

  lemma {:induction false} YearsGrow(y: nat, z: nat)
    requires 1601 <= y <= z
    ensures DaysBeforeYear(y) <= DaysBeforeYear(z)
    ensures y < z ==> DaysBeforeYear(y) + DaysBeforeMonth(y, 13) <= DaysBeforeYear(z)
    decreases z
  {
    if y < z {
      YearsGrow(y, z - 1);
    }
  }

  lemma DayNumberGrows(a: Date, b: Date)
    requires IsDate(a) && IsDate(b) && Before(a, b)
    ensures DayNumber(a) < DayNumber(b)
  {
    if a.year < b.year {
      YearsGrow(a.year, b.year);
      MonthsGrow(a.year, a.month, 13);
    } else if a.month < b.month {
      MonthsGrow(a.year, a.month, b.month);
    }
  }

  /** Day numbers order dates exactly as the calendar does. */
  lemma DayNumberOrder(a: Date, b: Date)
    requires IsDate(a) && IsDate(b)
    ensures DayNumber(a) <= DayNumber(b) <==> a == b || Before(a, b)
    ensures DayNumber(a) == DayNumber(b) <==> a == b
  {
    if Before(a, b) {
      DayNumberGrows(a, b);
    } else if Before(b, a) {
      DayNumberGrows(b, a);
    }
  }

  function NextDay(d: Date): (n: Date)
    requires IsDate(d)
    ensures IsDate(n)
  {
    if d.day < MonthLength(d.year, d.month) then Date(d.year, d.month, d.day + 1)
    else if d.month < 12 then Date(d.year, d.month + 1, 1)
    else Date(d.year + 1, 1, 1)
  }

  lemma NextDayNumber(d: Date)
    requires IsDate(d)
    ensures DayNumber(NextDay(d)) == DayNumber(d) + 1
  {}

  /** The date with a given day number. */
  function DateAt(n: nat): (d: Date)
    ensures IsDate(d)
  {
    if n == 0 then Date(1601, 1, 1) else NextDay(DateAt(n - 1))
  }

  lemma {:induction false} DateAtInverts(n: nat)
    ensures DayNumber(DateAt(n)) == n
  {
    if n > 0 {
      DateAtInverts(n - 1);
      NextDayNumber(DateAt(n - 1));
    }
  }

  // --- The calendar in figures ------------------------------------------------------------------

  /** Whole years since 1601 have 365 days, and one more in every fourth, not every hundredth, every 400th. */
  lemma {:induction false} YearDays(y: nat)
    requires 1601 <= y
    ensures var n := y - 1601; DaysBeforeYear(y) == 365 * n + n / 4 - n / 100 + n / 400
  {
    if y > 1601 {
      YearDays(y - 1);
      MonthDays(y - 1, 13);
      LeapCount(y - 1);
    }
  }

  lemma FourthYears(n: nat)
    ensures (n + 1) / 4 == n / 4 + (if (n + 1601) % 4 == 0 then 1 else 0)
  {}

  lemma HundredthYears(n: nat)
    ensures (n + 1) / 100 == n / 100 + (if (n + 1601) % 100 == 0 then 1 else 0)
  {}

  lemma FourHundredthYears(n: nat)
    ensures (n + 1) / 400 == n / 400 + (if (n + 1601) % 400 == 0 then 1 else 0)
  {}

  lemma MultiplesNest(y: nat)
    ensures y % 400 == 0 ==> y % 100 == 0
    ensures y % 100 == 0 ==> y % 4 == 0
  {
    if y % 100 == 0 {
      assert y == 4 * (25 * (y / 100));
    }
    if y % 400 == 0 {
      assert y == 100 * (4 * (y / 400));
    }
  }

  lemma LeapCount(y: nat)
    requires 1601 <= y
    ensures var n := y - 1601;
            (n + 1) / 4 - (n + 1) / 100 + (n + 1) / 400 == n / 4 - n / 100 + n / 400 + (if IsLeap(y) then 1 else 0)
  {
    var n := y - 1601;
    FourthYears(n);
    HundredthYears(n);
    FourHundredthYears(n);
    MultiplesNest(y);
  }

  /** Days before each month of a year, and in all of it. */
  function MonthStart(m: nat): nat
    requires 1 <= m <= 13
  {
    [0, 31, 59, 90, 120, 151, 181, 212, 243, 273, 304, 334, 365][m - 1]
  }

  lemma MonthDays(y: nat, m: nat)
    requires 1 <= m <= 13
    ensures DaysBeforeMonth(y, m) ==
            MonthStart(m) + (if m > 2 && y % 4 == 0 && (y % 100 != 0 || y % 400 == 0) then 1 else 0)
  {
    if m > 1 {
      MonthDays(y, m - 1);
    }
  }

  /** The day number of a date in closed form. */
  lemma DayNumberIs(d: Date)
    requires IsDate(d)
    ensures var n := d.year - 1601;
            DayNumber(d) ==
            365 * n + n / 4 - n / 100 + n / 400 + MonthStart(d.month) + (d.day - 1)
            + (if d.month > 2 && d.year % 4 == 0 && (d.year % 100 != 0 || d.year % 400 == 0) then 1 else 0)
  {
    YearDays(d.year);
    MonthDays(d.year, d.month);
    hide DaysBeforeYear, DaysBeforeMonth, MonthStart;
  }

  /** 1970-01-01 is day 134,774. */
  lemma EpochDay()
    ensures IsDate(Date(1970, 1, 1)) && DayNumber(Date(1970, 1, 1)) == 134_774
  {
    hide DaysBeforeYear;
    YearDays(1970);
  }

  // --- Days ago ---------------------------------------------------------------------------------

  const TICKS_PER_DAY: nat := 864_000_000_000

  const TWO_64: nat := 0x1_0000_0000_0000_0000

  /** SystemTimeToFileTime, in 100-ns ticks since 1601; it fails on impossible fields. */
  function FileTimeOf(st: SystemTime): Option<nat> {
    if IsDate(DateOf(st)) && st.year <= 30827 && st.hour < 24 && st.minute < 60 && st.second < 60
       && st.milliseconds < 1000
    then Some(DayNumber(DateOf(st)) * TICKS_PER_DAY
              + (((st.hour * 60 + st.minute) * 60 + st.second) * 1000 + st.milliseconds) * 10_000)
    else None
  }

  /** FileTimeToSystemTime, as far as the date; it fails from 2^63 on. */
  function DateOfFileTime(ticks: nat): Option<Date> {
    if ticks < 0x8000_0000_0000_0000 then Some(DateAt(ticks / TICKS_PER_DAY)) else None
  }

  /** Ticks of midnight minus so many days, wrapping as the unsigned type does. */
  function Earlier(ticks: nat, days: int): nat {
    if days > 0 then (ticks - (days * TICKS_PER_DAY) % TWO_64) % TWO_64 else ticks
  }

  function AgoText(now: SystemTime, days: int): string {
    match FileTimeOf(now.(hour := 0, minute := 0, second := 0, milliseconds := 0))
    case None => FormatDate(DateOf(now))
    case Some(ticks) =>
      match DateOfFileTime(Earlier(ticks, days))
      case None => FormatDate(DateOf(now))
      case Some(d) => FormatDate(d)
  }

  /** The function as written: to midnight, to ticks, back by whole days. */
  method SteamDateDaysAgo(pacificNow: SystemTime, days: int) returns (text: string)
    ensures text == AgoText(pacificNow, days)
  {
    var st := pacificNow;
    st := st.(hour := 0, minute := 0, second := 0, milliseconds := 0);
    var ft := FileTimeOf(st);
    if ft.None? {
      return FormatDate(DateOf(st));
    }
    var quadPart := ft.value;
    if days > 0 {
      quadPart := (quadPart - (days * TICKS_PER_DAY) % TWO_64) % TWO_64;
    }
    var result := DateOfFileTime(quadPart);
    if result.None? {
      return FormatDate(DateOf(st));
    }
    text := FormatDate(result.value);
  }

  /** A day has 24 hours: a millisecond, or 10,000 ticks, past its last one is the next midnight. */
  lemma MidnightFollows(st: SystemTime)
    requires IsDate(DateOf(st)) && st.year < 30827
    ensures var last := st.(hour := 23, minute := 59, second := 59, milliseconds := 999);
            var n := NextDay(DateOf(st));
            var next := SystemTime(n.year, n.month, n.day, 0, 0, 0, 0);
            FileTimeOf(last).Some? && FileTimeOf(next) == Some(FileTimeOf(last).value + 10_000)
  {
    NextDayNumber(DateOf(st));
    hide DayNumber, MonthLength;
    var n := DayNumber(DateOf(st));
    assert (n + 1) * TICKS_PER_DAY == n * TICKS_PER_DAY + TICKS_PER_DAY;
  }

  /** A date of the four-digit years, at any time of day. */
  predicate IsNow(now: SystemTime) {
    IsDate(DateOf(now)) && now.year < 10_000
  }

  lemma {:induction false} YearsBounded(y: nat)
    requires 1601 <= y
    ensures DaysBeforeYear(y) <= 366 * (y - 1601)
  {
    if y > 1601 {
      YearsBounded(y - 1);
      YearAtMost(y - 1);
    }
  }

  lemma YearAtMost(y: nat)
    ensures DaysBeforeMonth(y, 13) <= 366
  {
    assert DaysBeforeMonth(y, 2) == 31;
    assert DaysBeforeMonth(y, 3) <= 60;
    assert DaysBeforeMonth(y, 5) <= 121;
    assert DaysBeforeMonth(y, 7) <= 182;
    assert DaysBeforeMonth(y, 9) <= 244;
    assert DaysBeforeMonth(y, 11) <= 305;
  }

  lemma FourDigitDays(d: Date)
    requires IsDate(d) && d.year < 10_000
    ensures DayNumber(d) < 3_100_000
  {
    YearsBounded(d.year);
    MonthsGrow(d.year, d.month, 13);
    YearAtMost(d.year);
  }

  // Whole days taken off midnight, far from any wrap-around.
  lemma EarlierTicks(today: nat, n: nat)
    requires n <= today < 3_100_000
    ensures Earlier(today * TICKS_PER_DAY, n) == (today - n) * TICKS_PER_DAY < 0x8000_0000_0000_0000
    ensures ((today - n) * TICKS_PER_DAY) / TICKS_PER_DAY == today - n
  {
    assert (n * TICKS_PER_DAY) % TWO_64 == n * TICKS_PER_DAY;
    assert today * TICKS_PER_DAY - n * TICKS_PER_DAY == (today - n) * TICKS_PER_DAY;
  }

  /** n days ago is the calendar date n days earlier, as far back as 1601 reaches. */
  lemma AgoIsEarlier(now: SystemTime, n: nat)
    requires IsNow(now) && n <= DayNumber(DateOf(now))
    ensures AgoText(now, n) == FormatDate(DateAt(DayNumber(DateOf(now)) - n))
  {
    hide FormatDate, Earlier;
    FourDigitDays(DateOf(now));
    hide DayNumber, DateAt;
    EarlierTicks(DayNumber(DateOf(now)), n);
  }

  lemma EarlierFits(now: SystemTime, n: nat)
    requires IsNow(now) && n <= DayNumber(DateOf(now))
    ensures Fits(DateAt(DayNumber(DateOf(now)) - n))
  {
    var d := DateAt(DayNumber(DateOf(now)) - n);
    DateAtInverts(DayNumber(DateOf(now)) - n);
    DayNumberOrder(d, DateOf(now));
  }

  /**
   * The rolling window: among the texts of all dates, those between n days ago and
   * today, in the order of strings, are the texts of 0 to n days ago and no others.
   */
  lemma WindowIsExact(now: SystemTime, n: nat, d: Date)
    requires IsNow(now) && n <= DayNumber(DateOf(now))
    requires IsDate(d) && Fits(d)
    ensures LexLe(AgoText(now, n), FormatDate(d)) && LexLe(FormatDate(d), AgoText(now, 0))
            <==> exists k: nat | k <= n :: FormatDate(d) == AgoText(now, k)
  {
    hide LexLe, FormatDate, AgoText, DayNumber, DateAt, Fits;
    var today := DayNumber(DateOf(now));
    var first, last := DateAt(today - n), DateAt(today);
    AgoIsEarlier(now, n);
    AgoIsEarlier(now, 0);
    EarlierFits(now, n);
    EarlierFits(now, 0);
    DateAtInverts(today - n);
    DateAtInverts(today);
    FormatOrder(first, d);
    FormatOrder(d, last);
    DayNumberOrder(first, d);
    DayNumberOrder(d, last);
    if today - n <= DayNumber(d) <= today {
      var k := today - DayNumber(d);
      AgoIsEarlier(now, k);
      DateAtInverts(DayNumber(d));
      DayNumberOrder(d, DateAt(DayNumber(d)));
      assert k <= n && FormatDate(d) == AgoText(now, k);
    }
    forall k: nat | k <= n && FormatDate(d) == AgoText(now, k) ensures today - n <= DayNumber(d) <= today {
      AgoIsEarlier(now, k);
      EarlierFits(now, k);
      DateAtInverts(today - k);
      FormatOrder(d, DateAt(today - k));
    }
  }

  /** Those n + 1 texts are all different. */
  lemma WindowIsDistinct(now: SystemTime, j: nat, k: nat)
    requires IsNow(now) && j <= DayNumber(DateOf(now)) && k <= DayNumber(DateOf(now))
    ensures AgoText(now, j) == AgoText(now, k) <==> j == k
  {
    hide LexLe, FormatDate, AgoText, DayNumber, DateAt, Fits;
    var today := DayNumber(DateOf(now));
    AgoIsEarlier(now, j);
    AgoIsEarlier(now, k);
    EarlierFits(now, j);
    EarlierFits(now, k);
    DateAtInverts(today - j);
    DateAtInverts(today - k);
    FormatOrder(DateAt(today - j), DateAt(today - k));
  }
}
