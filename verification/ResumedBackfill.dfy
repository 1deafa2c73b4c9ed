// What the passes themselves, and not only the protocol they follow, do about an
// interrupted backfill (src/sync/SalesSyncService.cpp:271-279 and 326-347): it resumes
// where it stopped, and it loses a date that changed in between.
module ResumedBackfill {
  import opened Text
  import opened Aggregator
  import opened Store
  import opened Ledger
  import opened SteamClient
  import opened Migrations
  import opened SyncService
  import P = Protocol
  import T = ProtocolTheorems
  import S = SyncTheorems

  // --- It resumes and does not restart ------------------------------------------------------

  lemma AfterDatesProgress(st: Store, todo: seq<string>, inputs: Inputs, k: nat)
    requires k <= |todo|
    ensures var end := AfterDates(st, true, todo, inputs, k);
            end.mark == st.mark && end.cursor == if k == 0 then st.cursor else todo[k - 1]
  {
    hide RowsAt, UpsertAll, Without;
    if k > 0 {
      AfterDatesProgress(st, todo, inputs, k - 1);
    }
  }

  lemma DoneIsUpTo(todo: seq<string>, n: nat, d: string)
    requires Ascending(todo) && 0 < n <= |todo| && d in todo[..n]
    ensures LexLe(d, todo[n - 1])
  {
    LexRefl(d);
  }

  lemma TodoAscends(st: Store, dates: seq<string>)
    ensures Ascending(TodoOf(st, dates))
  {
    hide Sort, P.IsInitial;
    SortAscending(dates);
    P.ToProcessAscending(Sort(dates), P.IsInitial(st), st.cursor);
  }

  lemma NextTodo(st: Store, dates: seq<string>)
    requires P.IsInitial(st) && st.cursor != ""
    ensures forall d :: d in TodoOf(st, dates) <==> d in dates && !LexLe(d, st.cursor)
  {
    hide Sort, P.IsInitial;
    SortAscending(dates);
    P.ToProcessMembers(Sort(dates), true, st.cursor);
  }

  /**
   * A backfill interrupted by a failed fetch after n > 0 dates has its cursor at the
   * last of them. Whatever the next list reports, the next pass goes through exactly
   * the dates above it, and so through none of the n again. (An empty date text could
   * not be told from no cursor; the service has no such date.)
   */
  lemma BackfillResumes(st: Store, inputs: Inputs, next: seq<string>)
    requires P.IsInitial(st) && OutcomeOf(st, inputs) == FetchError
    ensures var todo := TodoOf(st, inputs.list(GetMark(st)).dates);
            var n, end := FirstFailure(todo, inputs, 0), AfterRun(st, inputs);
            && n < |todo| && P.IsInitial(end)
            && (n > 0 ==> end.cursor == todo[n - 1])
            && (n > 0 && todo[n - 1] != "" ==>
                  && (forall d :: d in TodoOf(end, next) <==> d in next && !LexLe(d, todo[n - 1]))
                  && (forall d | d in todo[..n] :: d !in TodoOf(end, next)))
  {
    hide TodoOf, AfterDates, LexLe, FetchOf, FirstFailure;
    var dates := inputs.list(GetMark(st)).dates;
    var todo := TodoOf(st, dates);
    var n, end, noted := FirstFailure(todo, inputs, 0), AfterRun(st, inputs), st.(checked := inputs.now);
    assert dates != [];
    AfterDatesProgress(noted, todo, inputs, n);
    assert end == AfterDates(noted, true, todo, inputs, n).(error := end.error);
    if n > 0 && todo[n - 1] != "" {
      NextTodo(end, next);
      TodoAscends(st, dates);
      forall d | d in todo[..n] ensures d !in TodoOf(end, next) {
        DoneIsUpTo(todo, n, d);
      }
    }
  }

  // --- What it skips ---------------------------------------------------------------------------

  lemma SkippedIsNotProcessed(base: Store, dates: seq<string>, d: string)
    requires P.IsInitial(base) && P.Skips(base.cursor, d)
    ensures d !in TodoOf(base, dates)
  {
    hide P.Skips, Sort;
    P.ToProcessMembers(Sort(dates), true, base.cursor);
  }

  /** However a pass of a backfill ends, it leaves the rows up to its cursor as they were. */
  lemma SkippedIsUntouched(outcome: Outcome, base: Store, end: Store, inputs: Inputs, n: nat, d: string)
    requires Leaves(outcome, base, end, inputs, n) && S.GotToDates(outcome)
    requires P.IsInitial(base) && P.Skips(base.cursor, d)
    ensures DateRows(end, d) == DateRows(base, d)
  {
    hide P.Skips, P.IsInitial, AfterDates, TodoOf;
    var dates := inputs.list(GetMark(base)).dates;
    SkippedIsNotProcessed(base, dates, d);
    S.DateUntouched(base, true, TodoOf(base, dates), inputs, n, d);
  }

  /**
   * A backfill is resumed and completed with the new mark in force. A date up to its
   * cursor is then wrong and unreported for good if and only if its rows were wrong
   * for the server as it now is and no event on it lies above the new mark.
   */
  lemma ResumedPassLosesExactly(base: Store, end: Store, inputs: Inputs, n: nat, s: P.State, d: string)
    requires Leaves(Done, base, end, inputs, n) && P.IsInitial(base) && P.Skips(base.cursor, d)
    requires s.store == end && end.mark == inputs.list(GetMark(base)).mark != ""
    ensures T.Lost(s, d) <==>
            && DateRows(base, d) != ToDaily(d, Aggregated(Records(s.server, d)))
            && !HasEvent(s.server, d, MarkValue(inputs.list(GetMark(base)).mark))
  {
    hide P.Skips, P.IsInitial, Processed, Aggregated, DateRows, MarkValue;
    SkippedIsUntouched(Done, base, end, inputs, n, d);
  }

  // --- It happens ----------------------------------------------------------------------------

  /** A world in which "d" has the given sales and "e" has none, or cannot be fetched. */
  function World(mark: string, sales: seq<SalesRecord>, fails: bool): Inputs {
    Inputs(true, false, (_: string) => GotList(["d", "e"], mark),
           (k: nat, d: string) => Pages(sales, fails, d), "", "")
  }

  function Pages(sales: seq<SalesRecord>, fails: bool, d: string): Serve {
    (page: nat, cursor: string) =>
      if d == "d" then GotPage(Page(sales, "", false))
      else if fails then PageFailed(ResultKind.Offline, "")
      else GotPage(Page([], "", false))
  }

  ghost function Still(sv: Server): View {
    View(sv, (_: nat) => sv)
  }

  lemma Fetches(mark: string, sales: seq<SalesRecord>, fails: bool, k: nat, d: string)
    ensures FetchOf(World(mark, sales, fails), k, d) ==
            if d == "d" then Fetched(sales) else if fails then FetchFailed(ResultKind.Offline, "") else Fetched([])
  {}

  lemma WorldIsSound(mark: string, sales: seq<SalesRecord>, fails: bool, m: nat, n: nat)
    requires m <= n && MarkValue(mark) <= n && mark != "0"
    requires sales == Records(T.Busy(n), "d")
    ensures SoundWorld(World(mark, sales, fails), Still(T.Busy(n)), T.Busy(m))
  {
    hide PagesFrom, Evolves, MarkValue;
    var inputs, view := World(mark, sales, fails), Still(T.Busy(n));
    T.BusyEvolves(m, n);
    T.BusyEvolves(n, n);
    forall asked ensures SoundReply(view.atList, asked, inputs.list(asked).dates, inputs.list(asked).mark) {
      assert forall e | e in T.Busy(n).log :: e.date == "d";
    }
    forall k: nat, d | FetchOf(inputs, k, d).Fetched?
      ensures FetchedBetween(BeforeFetch(view, k), view.after(k), d, FetchOf(inputs, k, d).records)
    {
      Fetches(mark, sales, fails, k, d);
      assert d != "d" ==> Records(T.Busy(n), d) == [];
    }
  }

  lemma TwoDates()
    ensures Sort(["d", "e"]) == ["d", "e"]
    ensures P.ToProcess(["d", "e"], true, "") == ["d", "e"]
    ensures P.ToProcess(["d", "e"], true, "d") == ["e"]
  {
    var ds := ["d", "e"];
    assert ds[1..] == ["e"] && ["e"][1..] == [];
    assert Insert("e", []) == ["e"] && Sort(["e"]) == ["e"] && Insert("d", ["e"]) == ds;
    assert P.Skips("d", "d") && !P.Skips("d", "e");
    assert P.ToProcess(["e"], true, "d") == ["e"] && P.ToProcess(["e"], true, "") == ["e"];
  }

  function FirstWorld(): Inputs { World("1", [T.Sale(1)], true) }

  function SecondWorld(): Inputs { World("2", [T.Sale(1), T.Sale(1)], false) }

  /** What an interrupted first pass over a new database leaves. */
  lemma FirstPass()
    ensures var st := AfterRun(FRESH_STORE, FirstWorld());
            && OutcomeOf(FRESH_STORE, FirstWorld()) == FetchError
            && st.mark == "0" && st.cursor == "d" && DateRows(st, "d") == [DailyRow("d", 7, 1, 0, 1)]
  {
    hide PagesFrom, Sort, P.ToProcess, Replaced, Aggregated, DateRows;
    var inputs, todo := FirstWorld(), ["d", "e"];
    TwoDates();
    Fetches("1", [T.Sale(1)], true, 0, "d");
    Fetches("1", [T.Sale(1)], true, 1, "e");
    assert FirstFailure(todo, inputs, 1) == 1;
    T.FirstFetch();
    var noted := FRESH_STORE.(checked := "");
    assert TodoOf(FRESH_STORE, todo) == todo;
    var rows := [SalesRow(7, "", 1, 1, 0)];
    ReplacedIsUpdate(noted, "d", rows, "", "d");
    ReplacedKeepsProgress(noted, "d", rows, "");
    assert AfterDates(noted, true, todo, inputs, 0) == noted;
    assert AfterDates(noted, true, todo, inputs, 1) == AfterDate(noted, true, "d", rows, "");
    ProgressIsNotShown(Replaced(noted, "d", rows, ""), "d", "", "d");
  }

  lemma ProgressIsNotShown(st: Store, cursor: string, error: string, d: string)
    ensures DateRows(st.(cursor := cursor, error := error), d) == DateRows(st, d)
  {}

  lemma SecondPass(st: Store)
    requires st.mark == "0" && st.cursor == "d" && DateRows(st, "d") == [DailyRow("d", 7, 1, 0, 1)]
    ensures var end := AfterRun(st, SecondWorld());
            && OutcomeOf(st, SecondWorld()) == Done
            && end.mark == "2" && DateRows(end, "d") == [DailyRow("d", 7, 1, 0, 1)]
  {
    hide PagesFrom, Sort, P.ToProcess, AfterDate, DateRows, RowsAt, FetchOf;
    var inputs, todo := SecondWorld(), ["e"];
    TwoDates();
    Fetches("2", [T.Sale(1), T.Sale(1)], false, 0, "e");
    assert TodoOf(st, ["d", "e"]) == todo;
    assert FirstFailure(todo, inputs, 0) == 1;
    var noted := st.(checked := "");
    var stored := AfterDates(noted, true, todo, inputs, 1);
    S.DateUntouched(noted, true, todo, inputs, 1, "d");
    TailIsNotShown(st, noted, stored, "d");
  }

  lemma TailIsNotShown(st: Store, noted: Store, stored: Store, d: string)
    requires noted == st.(checked := noted.checked)
    ensures DateRows(noted, d) == DateRows(st, d)
    ensures forall mark, now :: DateRows(AfterTail(stored, true, mark, now), d) == DateRows(stored, d)
  {}

  /**
   * Two passes of the code over sound worlds, no statement failing: the first is
   * interrupted after its first date, which then changes; the second completes the
   * backfill; the date is lost.
   */
  lemma CodeCanLoseADate()
    ensures SoundWorld(FirstWorld(), Still(T.Busy(1)), T.Busy(0))
    ensures SoundWorld(SecondWorld(), Still(T.Busy(2)), T.Busy(1))
    ensures OutcomeOf(FRESH_STORE, FirstWorld()) == FetchError
    ensures OutcomeOf(AfterRun(FRESH_STORE, FirstWorld()), SecondWorld()) == Done
    ensures forall s: P.State ::
              s.server == T.Busy(2) && s.store == AfterRun(AfterRun(FRESH_STORE, FirstWorld()), SecondWorld()) ==>
                T.Lost(s, "d")
  {
    hide AfterRun, OutcomeOf, SoundWorld, T.Lost;
    T.SingleDate();
    T.FirstFetch();
    assert Records(T.Busy(2), "d") == [T.Sale(1), T.Sale(1)];
    WorldIsSound("1", [T.Sale(1)], true, 0, 1);
    WorldIsSound("2", [T.Sale(1), T.Sale(1)], false, 1, 2);
    FirstPass();
    var st := AfterRun(FRESH_STORE, FirstWorld());
    SecondPass(st);
    forall s: P.State | s.server == T.Busy(2) && s.store == AfterRun(st, SecondWorld()) ensures T.Lost(s, "d") {
      T.LostNow(s);
    }
  }
}
