// The 7-day and 30-day figures (ComputeSummary in src/app/App.cpp, the ranges of
// src/ui/SalesWindow.cpp): BETWEEN on date texts adds up whole days.
module RollingWindows {
  import opened Text
  import opened Store
  import opened SteamDate
  import opened Views

  /** Every stored row belongs to a calendar date, written as the service writes it. */
  ghost predicate Dated(t: seq<DailyRow>) {
    forall i | 0 <= i < |t| :: IsDateText(t[i].date)
  }

  ghost predicate IsDateText(s: string) {
    exists d :: IsDate(d) && Fits(d) && s == FormatDate(d)
  }

  /** The sums of the single days from n days ago to today. */
  function DayByDay(t: seq<DailyRow>, now: SystemTime, n: nat): int {
    NetSum(Select(t, OnDate(AgoText(now, n)))) + (if n == 0 then 0 else DayByDay(t, now, n - 1))
  }

  // What one row adds to the days from n days ago to today.
  function Worth(row: DailyRow, now: SystemTime, n: nat): int {
    (if row.date == AgoText(now, n) then row.net else 0) + (if n == 0 then 0 else Worth(row, now, n - 1))
  }

  ghost predicate IsRecent(date: string, now: SystemTime, n: nat) {
    exists k: nat | k <= n :: date == AgoText(now, k)
  }

  lemma RecentStep(date: string, now: SystemTime, n: nat)
    requires n > 0
    ensures IsRecent(date, now, n) <==> IsRecent(date, now, n - 1) || date == AgoText(now, n)
  {}

  // The texts are all different, so a row counts on one day at most.
  lemma {:induction false} WorthOnce(row: DailyRow, now: SystemTime, n: nat)
    requires IsNow(now) && n <= DayNumber(DateOf(now))
    ensures Worth(row, now, n) == if IsRecent(row.date, now, n) then row.net else 0
  {
    hide AgoText, DayNumber;
    if n > 0 {
      WorthOnce(row, now, n - 1);
      RecentStep(row.date, now, n);
      if IsRecent(row.date, now, n - 1) {
        var k: nat :| k <= n - 1 && row.date == AgoText(now, k);
        WindowIsDistinct(now, k, n);
      }
    } else if IsRecent(row.date, now, 0) {
      var k: nat :| k <= 0 && row.date == AgoText(now, k);
    }
  }

  lemma {:induction false} DayByDayStep(t: seq<DailyRow>, now: SystemTime, n: nat)
    requires t != []
    ensures DayByDay(t, now, n) == DayByDay(t[..|t| - 1], now, n) + Worth(t[|t| - 1], now, n)
  {
    hide AgoText;
    NetSumAppend(Select(t[..|t| - 1], OnDate(AgoText(now, n))), t[|t| - 1]);
    if n > 0 {
      DayByDayStep(t, now, n - 1);
    }
  }

  lemma {:induction false} NoDays(now: SystemTime, n: nat)
    ensures DayByDay([], now, n) == 0
  {
    hide AgoText;
    if n > 0 {
      NoDays(now, n - 1);
    }
  }

  lemma WindowIsRecent(now: SystemTime, n: nat, date: string)
    requires IsNow(now) && n <= DayNumber(DateOf(now)) && IsDateText(date)
    ensures InWindow(date, Between(AgoText(now, n), AgoText(now, 0))) <==> IsRecent(date, now, n)
  {
    hide AgoText, DayNumber, LexLe, FormatDate, IsDate, Fits;
    var d :| IsDate(d) && Fits(d) && date == FormatDate(d);
    WindowIsExact(now, n, d);
  }

  lemma {:induction false} WindowAdds(t: seq<DailyRow>, now: SystemTime, n: nat)
    requires IsNow(now) && n <= DayNumber(DateOf(now)) && Dated(t)
    ensures NetSum(Select(t, Between(AgoText(now, n), AgoText(now, 0)))) == DayByDay(t, now, n)
  {
    hide AgoText, DayNumber, LexLe, IsDateText, Worth, DayByDay, InWindow;
    if t == [] {
      NoDays(now, n);
    } else {
      var front, last := t[..|t| - 1], t[|t| - 1];
      WindowAdds(front, now, n);
      WindowIsRecent(now, n, last.date);
      WorthOnce(last, now, n);
      DayByDayStep(t, now, n);
      NetSumAppend(Select(front, Between(AgoText(now, n), AgoText(now, 0))), last);
    }
  }

  lemma TodayIsNoDaysAgo(now: SystemTime)
    requires IsNow(now)
    ensures AgoText(now, 0) == FormatDate(DateOf(now))
  {
    hide AgoText, FormatDate, DayNumber, DateAt;
    AgoIsEarlier(now, 0);
    DateAtInverts(DayNumber(DateOf(now)));
    DayNumberOrder(DateOf(now), DateAt(DayNumber(DateOf(now))));
  }

  /**
   * The figure of the last n + 1 days, in the tray and as the total line of the
   * sales window, is the sum of the figures of those days, each counted once.
   */
  lemma RollingSumIsDayByDay(st: Store, now: SystemTime, n: nat)
    requires IsNow(now) && n <= DayNumber(DateOf(now))
    requires ValidStore(st) && Dated(st.daily)
    ensures var first, today := AgoText(now, n), FormatDate(DateOf(now));
            && SumForRange(st, first, today) == DayByDay(st.daily, now, n)
            && UnitsSum(QueryRange(st, first, today)) == DayByDay(st.daily, now, n)
  {
    hide AgoText, DayNumber, ValidStore, QueryRange, DayByDay, FormatDate;
    TodayIsNoDaysAgo(now);
    WindowAdds(st.daily, now, n);
    ViewsAgreeWithSums(st, AgoText(now, 0), AgoText(now, n), AgoText(now, 0));
  }
}
