// The incremental sync as a state machine: a local cache follows a changing
// ledger through runs that can be cut short between any two commits
// (RunSynchronization in src/sync/SalesSyncService.cpp).
module Protocol {
  import opened Text
  import opened Aggregator
  import opened Store
  import opened Ledger
  import opened Migrations

  /** What a run knows once it has its list of changed dates. */
  datatype Run = Run(
    initial: bool, todo: seq<string>, newMark: string,
    listed: Server, // the server when the list was taken
    base: Store) // the cache when the list was taken

  datatype Phase =
    | Idle
    | Listed(run: Run, next: nat) // next date not yet fetched, or none left
    | Fetched(run: Run, next: nat, rows: seq<SalesRow>) // fetched and aggregated
    | Stored(run: Run, next: nat) // replaced, checkpoint not yet written
    | Marked(run: Run) // the mark has been written, or its write has failed
    | Finished(run: Run) // so has the end of the backfill

  /**
   * The world between two steps, with four history variables: the clock of the
   * last and of the first list taken by an initial run over this cache, the dates
   * replaced since the cache was emptied, and the dates a resumed backfill
   * skipped although they had changed since the list before.
   */
  datatype State = State(
    server: Server, store: Store, phase: Phase,
    lastList: nat, firstList: nat, done: set<string>, exposed: set<string>)

  datatype Action =
    | Change(sv: Server) // the ledger changes
    | Stop // a run ends, however: success, failure, crash
    | Note(checked: string, synced: string, error: string)
    | Clear
    | Upgrade // a version-1 file gains its cursor
    | List(dates: seq<string>, mark: string)
    | Fetch(after: Server, recs: seq<SalesRecord>) // a whole paginated fetch
    | Replace(now: string)
    | Checkpoint(ok: bool)
    | SetMark(ok: bool)
    | DropCursor(ok: bool)

  predicate Skips(cursor: string, d: string) {
    cursor != "" && LexLe(d, cursor)
  }

  /** The dates a run works through: a resumed backfill leaves out those up to the cursor. */
  function ToProcess(dates: seq<string>, initial: bool, cursor: string): seq<string> {
    if dates == [] then []
    else if initial && Skips(cursor, dates[0]) then ToProcess(dates[1..], initial, cursor)
    else [dates[0]] + ToProcess(dates[1..], initial, cursor)
  }

  predicate IsInitial(st: Store) {
    GetMark(st) == "0"
  }

  /** Dates up to the cursor with an event since the last list: a resumed run will skip them. */
  ghost function NewlyExposed(s: State): set<string> {
    if IsInitial(s.store) then
      set e | e in s.server.log && e.stamp > s.lastList && Skips(s.store.cursor, e.date) :: e.date
    else {}
  }

  ghost predicate Enabled(s: State, a: Action) {
    match a
    case Change(sv) => Evolves(s.server, sv)
    case Stop => true
    case Note(_, _, _) => true
    case Clear => s.phase.Idle?
    case Upgrade => s.phase.Idle? && s.store.cursor == ""
    case List(dates, mark) => s.phase.Idle? && SoundReply(s.server, GetMark(s.store), dates, mark)
    case Fetch(after, recs) =>
      s.phase.Listed? && s.phase.next < |s.phase.run.todo|
      && FetchedBetween(s.server, after, s.phase.run.todo[s.phase.next], recs)
    case Replace(_) => s.phase.Fetched? && s.phase.next < |s.phase.run.todo|
    case Checkpoint(_) => s.phase.Stored? && s.phase.next < |s.phase.run.todo|
    case SetMark(_) => s.phase.Listed? && s.phase.next == |s.phase.run.todo|
    case DropCursor(_) => s.phase.Marked?
  }

  ghost function Next(s: State, a: Action): State
    requires Enabled(s, a)
  {
    match a
    case Change(sv) => s.(server := sv)
    case Stop => s.(phase := Idle)
    case Note(checked, synced, error) =>
      s.(store := s.store.(checked := checked, synced := synced, error := error))
    case Clear => s.(store := Cleared(s.store), done := {}, exposed := {})
    case Upgrade =>
      s.(store := Seeded(s.store), lastList := if Seeded(s.store).cursor == "" then s.lastList else s.firstList)
    case List(dates, mark) =>
      var initial := IsInitial(s.store);
      var run := Run(initial, ToProcess(Sort(dates), initial, s.store.cursor), mark, s.server, s.store);
      s.(phase := Listed(run, 0),
         exposed := s.exposed + NewlyExposed(s),
         lastList := if initial then s.server.clock else s.lastList,
         firstList := if initial && s.store.daily == [] then s.server.clock else s.firstList)
    case Fetch(after, recs) =>
      s.(server := after, phase := Fetched(s.phase.run, s.phase.next, Aggregated(recs)))
    case Replace(now) =>
      var d := s.phase.run.todo[s.phase.next];
      s.(store := Replaced(s.store, d, s.phase.rows, now),
         phase := Stored(s.phase.run, s.phase.next),
         done := s.done + {d}, exposed := s.exposed - {d})
    case Checkpoint(ok) =>
      var d := s.phase.run.todo[s.phase.next];
      s.(store := if s.phase.run.initial && ok then s.store.(cursor := d) else s.store,
         phase := Listed(s.phase.run, s.phase.next + 1))
    case SetMark(ok) =>
      s.(store := if ok && s.phase.run.newMark != "" then s.store.(mark := s.phase.run.newMark) else s.store,
         phase := Marked(s.phase.run))
    case DropCursor(ok) =>
      s.(store := if s.phase.run.initial && ok then s.store.(cursor := "") else s.store,
         phase := Finished(s.phase.run))
  }

  /** A newly migrated, empty cache in front of any server. */
  ghost predicate Start(s: State) {
    ValidServer(s.server) && s.store == FRESH_STORE && s.phase == Idle
    && s.lastList == s.firstList == 0 && s.done == {} && s.exposed == {}
  }

  ghost predicate Steps(ss: seq<State>, acts: seq<Action>) {
    && |ss| == |acts| + 1
    && forall i | 0 <= i < |acts| :: Enabled(ss[i], acts[i]) && ss[i + 1] == Next(ss[i], acts[i])
  }

  ghost predicate Behaviour(ss: seq<State>, acts: seq<Action>) {
    Steps(ss, acts) && Start(ss[0])
  }

  // --- Invariant ---------------------------------------------------------------------------

  /** The cached rows of d are the aggregate of the server's current records. */
  ghost predicate Fresh(s: State, d: string) {
    DateRows(s.store, d) == ToDaily(d, Aggregated(Records(s.server, d)))
  }

  ghost predicate Excused(s: State, d: string, floor: nat) {
    Fresh(s, d) || d in s.exposed || HasEvent(s.server, d, floor)
  }

  /**
   * The stamp above which an event keeps d on the books: the next list will report d,
   * and if a resumed backfill then skips it, it will be exposed.
   */
  function Floor(s: State, d: string): nat {
    if IsInitial(s.store) && Skips(s.store.cursor, d) then s.lastList else MarkValue(GetMark(s.store))
  }

  ghost predicate EventBy(sv: Server, d: string, t: nat) {
    exists e :: e in sv.log && e.date == d && e.stamp <= t
  }

  ghost predicate Accounted(s: State, d: string) {
    d in s.done || d in s.exposed
  }

  /** Holds between any two steps, so at every crash point. */
  ghost predicate Safe(s: State) {
    && ValidServer(s.server) && ValidStore(s.store)
    && s.lastList <= s.server.clock && s.firstList <= s.server.clock
    && MarkValue(GetMark(s.store)) <= s.server.clock
    && forall d :: Excused(s, d, Floor(s, d))
  }

  /** While the mark is "0": every date known to the last list, up to the cursor, was replaced. */
  ghost predicate DonePrefix(s: State) {
    IsInitial(s.store) ==>
      forall d | Skips(s.store.cursor, d) && EventBy(s.server, d, s.lastList) :: Accounted(s, d)
  }

  ghost predicate StoredUpTo(st: Store, d: string) {
    exists r :: r in st.daily && LexLe(d, r.date)
  }

  /** The same for the newest stored date, from which a version-1 file seeds its cursor. */
  ghost predicate StoredPrefix(s: State) {
    IsInitial(s.store) ==>
      forall d | StoredUpTo(s.store, d) ::
        Excused(s, d, s.firstList) && (EventBy(s.server, d, s.firstList) ==> Accounted(s, d))
  }

  /** Dates that the first n of the run's dates leave nothing to do for. */
  predicate Settled(run: Run, n: nat, d: string)
    requires n <= |run.todo|
  {
    d in run.todo[..n] || d !in run.todo
  }

  /** The run has replaced its first n dates. */
  ghost predicate Progress(s: State, run: Run, n: nat) {
    && n <= |run.todo| && Ascending(run.todo)
    && Evolves(run.listed, s.server)
    && (run.newMark != "" ==>
          MarkValue(run.newMark) <= run.listed.clock && (run.newMark == "0" ==> run.initial))
    && MarkValue(GetMark(s.store)) <= run.listed.clock
    && (run.initial ==> s.lastList == run.listed.clock && s.firstList <= run.listed.clock)
    && (forall d | Settled(run, n, d) :: Excused(s, d, run.listed.clock))
    && (run.initial ==>
          forall d | Settled(run, n, d) && EventBy(s.server, d, run.listed.clock) :: Accounted(s, d))
    && (forall d | d in run.todo[..n] :: d !in s.exposed)
    && (forall d | d !in run.todo[..n] :: DateRows(s.store, d) == DateRows(run.base, d))
  }

  ghost predicate Inv(s: State) {
    && Safe(s) && DonePrefix(s) && StoredPrefix(s)
    && match s.phase
       case Idle => true
       case Listed(run, n) => Progress(s, run, n) && IsInitial(s.store) == run.initial
       case Fetched(run, n, rows) =>
         && Progress(s, run, n) && IsInitial(s.store) == run.initial
         && n < |run.todo| && DistinctApps(rows)
         && (ToDaily(run.todo[n], rows) == ToDaily(run.todo[n], Aggregated(Records(s.server, run.todo[n])))
             || HasEvent(s.server, run.todo[n], run.listed.clock))
       case Stored(run, n) => n < |run.todo| && Progress(s, run, n + 1) && IsInitial(s.store) == run.initial
       case Marked(run) => Progress(s, run, |run.todo|) && (IsInitial(s.store) ==> run.initial)
       case Finished(run) => Progress(s, run, |run.todo|) && (IsInitial(s.store) ==> run.initial)
  }

  // --- Each step keeps it ------------------------------------------------------------------

  lemma MarkZero()
    ensures MarkValue("0") == 0
  {}

  lemma StartInv(s: State)
    requires Start(s)
    ensures Inv(s)
  {
    MarkZero();
    forall d ensures Excused(s, d, Floor(s, d)) {
      if Entries(s.server, d) == [] {
        assert Records(s.server, d) == [];
        assert ToDaily(d, []) == [];
      }
    }
  }

  lemma EvolveExcuse(s: State, t: State, d: string, floor: nat)
    requires t == s.(server := t.server) && Evolves(s.server, t.server)
    requires floor <= s.server.clock && Excused(s, d, floor)
    ensures Excused(t, d, floor)
  {}

  lemma EvolveBy(a: Server, b: Server, d: string, t: nat)
    requires Evolves(a, b) && t <= a.clock && EventBy(b, d, t)
    ensures EventBy(a, d, t)
  {}

  // The server moves on: every clause speaks of moments already past.
  lemma EvolveSafe(s: State, t: State)
    requires t == s.(server := t.server) && Evolves(s.server, t.server)
    requires Safe(s) && DonePrefix(s) && StoredPrefix(s)
    ensures Safe(t) && DonePrefix(t) && StoredPrefix(t)
  {
    forall d ensures Excused(t, d, Floor(t, d)) {
      assert Excused(s, d, Floor(s, d));
      EvolveExcuse(s, t, d, Floor(s, d));
    }
    if IsInitial(s.store) {
      forall d | Skips(s.store.cursor, d) && EventBy(t.server, d, s.lastList) ensures Accounted(t, d) {
        EvolveBy(s.server, t.server, d, s.lastList);
        assert Accounted(s, d);
      }
      forall d | StoredUpTo(s.store, d)
        ensures Excused(t, d, s.firstList) && (EventBy(t.server, d, s.firstList) ==> Accounted(t, d))
      {
        EvolveExcuse(s, t, d, s.firstList);
        if EventBy(t.server, d, s.firstList) {
          EvolveBy(s.server, t.server, d, s.firstList);
          assert Accounted(s, d);
        }
      }
    }
  }

  lemma EvolveProgress(s: State, t: State, run: Run, n: nat)
    requires t == s.(server := t.server) && Evolves(s.server, t.server)
    requires Progress(s, run, n)
    ensures Progress(t, run, n)
  {
    EvolvesTrans(run.listed, s.server, t.server);
    forall d | Settled(run, n, d) ensures Excused(t, d, run.listed.clock) {
      EvolveExcuse(s, t, d, run.listed.clock);
    }
    if run.initial {
      forall d | Settled(run, n, d) && EventBy(t.server, d, run.listed.clock) ensures Accounted(t, d) {
        EvolveBy(s.server, t.server, d, run.listed.clock);
        assert Accounted(s, d);
      }
    }
  }

  // The invariant's clauses read the tables, the server and the history only.
  ghost predicate SameWorld(s: State, t: State) {
    && t.server == s.server && t.lastList == s.lastList && t.firstList == s.firstList
    && t.done == s.done && t.exposed == s.exposed
    && t.store.daily == s.store.daily && t.store.products == s.store.products
    && t.store.mark == s.store.mark
  }

  lemma SameWorldSafe(s: State, t: State)
    requires SameWorld(s, t) && t.store.cursor == s.store.cursor
    requires Safe(s) && DonePrefix(s) && StoredPrefix(s)
    ensures Safe(t) && DonePrefix(t) && StoredPrefix(t)
  {
    forall d ensures Excused(t, d, Floor(t, d)) {
      assert Excused(s, d, Floor(s, d));
    }
    if IsInitial(s.store) {
      forall d | Skips(t.store.cursor, d) && EventBy(t.server, d, t.lastList) ensures Accounted(t, d) {
        assert Accounted(s, d);
      }
      forall d | StoredUpTo(t.store, d)
        ensures Excused(t, d, t.firstList) && (EventBy(t.server, d, t.firstList) ==> Accounted(t, d))
      {
        assert StoredUpTo(s.store, d);
        assert Excused(s, d, s.firstList) && (EventBy(s.server, d, s.firstList) ==> Accounted(s, d));
      }
    }
  }

  lemma SameWorldProgress(s: State, t: State, run: Run, n: nat)
    requires SameWorld(s, t) && Progress(s, run, n)
    ensures Progress(t, run, n)
  {}

  lemma ChangeInv(s: State, a: Action)
    requires Inv(s) && a.Change? && Enabled(s, a)
    ensures Inv(Next(s, a))
  {
    var t := Next(s, a);
    EvolveSafe(s, t);
    match s.phase
    case Idle =>
    case Listed(run, n) => EvolveProgress(s, t, run, n);
    case Fetched(run, n, rows) =>
      EvolveProgress(s, t, run, n);
      var d := run.todo[n];
      if HasEvent(s.server, d, run.listed.clock) {
        EventsPersist(s.server, t.server, d, run.listed.clock);
      } else if HasEvent(t.server, d, s.server.clock) {
        EventsWeaken(t.server, d, s.server.clock, run.listed.clock);
      }
    case Stored(run, n) => EvolveProgress(s, t, run, n + 1);
    case Marked(run) => EvolveProgress(s, t, run, |run.todo|);
    case Finished(run) => EvolveProgress(s, t, run, |run.todo|);
  }

  lemma NoteInv(s: State, a: Action)
    requires Inv(s) && (a.Note? || a.Stop?) && Enabled(s, a)
    ensures Inv(Next(s, a))
  {
    var t := Next(s, a);
    SameWorldSafe(s, t);
    match s.phase
    case Idle =>
    case Listed(run, n) => SameWorldProgress(s, t, run, n);
    case Fetched(run, n, rows) => SameWorldProgress(s, t, run, n);
    case Stored(run, n) => SameWorldProgress(s, t, run, n + 1);
    case Marked(run) => SameWorldProgress(s, t, run, |run.todo|);
    case Finished(run) => SameWorldProgress(s, t, run, |run.todo|);
  }

  /** With nothing cached, a date without events has nothing to cache. */
  lemma EmptyCacheExcused(s: State, d: string)
    requires ValidServer(s.server) && s.store.daily == []
    ensures Excused(s, d, 0)
  {}

  lemma ClearInv(s: State, a: Action)
    requires Inv(s) && a.Clear? && Enabled(s, a)
    ensures Inv(Next(s, a))
  {
    var t := Next(s, a);
    MarkZero();
    forall d ensures Excused(t, d, Floor(t, d)) {
      EmptyCacheExcused(t, d);
    }
  }

  lemma UpgradeInv(s: State, a: Action)
    requires Inv(s) && a.Upgrade? && Enabled(s, a)
    ensures Inv(Next(s, a))
  {
    var t := Next(s, a);
    var m := MaxDate(s.store.daily);
    if t.store != s.store {
      MaxDateIsMax(s.store.daily);
      var top :| top in s.store.daily && top.date == m;
      forall d ensures Excused(t, d, Floor(t, d)) {
        assert Excused(s, d, Floor(s, d));
        if Skips(m, d) {
          assert StoredUpTo(s.store, d);
          assert Excused(s, d, s.firstList);
        }
      }
      forall d | Skips(m, d) && EventBy(t.server, d, t.lastList) ensures Accounted(t, d) {
        assert StoredUpTo(s.store, d);
        assert Accounted(s, d);
      }
      forall d | StoredUpTo(t.store, d)
        ensures Excused(t, d, t.firstList) && (EventBy(t.server, d, t.firstList) ==> Accounted(t, d))
      {
        assert StoredUpTo(s.store, d);
        assert Excused(s, d, s.firstList) && (EventBy(s.server, d, s.firstList) ==> Accounted(s, d));
      }
    }
  }

  // --- Taking the list --------------------------------------------------------------------

  lemma {:induction false} ToProcessMembers(dates: seq<string>, initial: bool, cursor: string)
    ensures forall d :: d in ToProcess(dates, initial, cursor) <==>
                        d in dates && !(initial && Skips(cursor, d))
  {
    if dates != [] {
      ToProcessMembers(dates[1..], initial, cursor);
      assert dates == [dates[0]] + dates[1..];
    }
  }

  lemma {:induction false} ToProcessAscending(dates: seq<string>, initial: bool, cursor: string)
    requires Ascending(dates)
    ensures Ascending(ToProcess(dates, initial, cursor))
  {
    if dates != [] {
      ToProcessAscending(dates[1..], initial, cursor);
      ToProcessMembers(dates[1..], initial, cursor);
      var rest := ToProcess(dates[1..], initial, cursor);
      forall j | 0 <= j < |rest| ensures LexLe(dates[0], rest[j]) {
        assert rest[j] in rest;
        var i :| 0 <= i < |dates[1..]| && dates[1..][i] == rest[j];
        assert dates[i + 1] == rest[j];
      }
    }
  }

  // The list itself exposes what a resumed backfill is about to skip.
  lemma ListSafe(s: State, a: Action)
    requires Inv(s) && a.List? && Enabled(s, a)
    ensures Safe(Next(s, a)) && DonePrefix(Next(s, a))
  {
    var t := Next(s, a);
    forall d ensures Excused(t, d, Floor(t, d)) {
      assert Excused(s, d, Floor(s, d));
      if IsInitial(s.store) && Skips(s.store.cursor, d) && HasEvent(s.server, d, s.lastList) {
        ExposedOrPast(s, a, d);
      }
    }
    if IsInitial(s.store) {
      forall d | Skips(t.store.cursor, d) && EventBy(t.server, d, t.lastList) ensures Accounted(t, d) {
        if EventBy(s.server, d, s.lastList) {
          assert Accounted(s, d);
        } else {
          var e :| e in s.server.log && e.date == d && e.stamp <= t.lastList;
          assert e.stamp > s.lastList;
          ExposedOrPast(s, a, d);
        }
      }
    }
  }

  lemma ExposedOrPast(s: State, a: Action, d: string)
    requires a.List? && Enabled(s, a)
    requires IsInitial(s.store) && Skips(s.store.cursor, d) && HasEvent(s.server, d, s.lastList)
    ensures d in Next(s, a).exposed
  {}

  lemma ListStored(s: State, a: Action)
    requires Inv(s) && a.List? && Enabled(s, a)
    ensures StoredPrefix(Next(s, a))
  {
    var t := Next(s, a);
    if IsInitial(s.store) && s.store.daily != [] {
      forall d | StoredUpTo(t.store, d)
        ensures Excused(t, d, t.firstList) && (EventBy(t.server, d, t.firstList) ==> Accounted(t, d))
      {
        assert Excused(s, d, s.firstList) && (EventBy(s.server, d, s.firstList) ==> Accounted(s, d));
      }
    }
  }

  // A date left out of the run was either unreported or skipped.
  lemma ListProgress(s: State, a: Action)
    requires Inv(s) && a.List? && Enabled(s, a)
    ensures Progress(Next(s, a), Next(s, a).phase.run, 0)
  {
    var t := Next(s, a);
    var run := t.phase.run;
    var cursor := s.store.cursor;
    ListSafe(s, a);
    SortAscending(a.dates);
    ToProcessAscending(Sort(a.dates), run.initial, cursor);
    ToProcessMembers(Sort(a.dates), run.initial, cursor);
    EvolvesRefl(s.server);
    MarkZero();
    forall d | Settled(run, 0, d) ensures Excused(t, d, run.listed.clock) {
      assert Excused(t, d, Floor(t, d));
      assert d !in run.todo;
    }
    if run.initial {
      forall d | Settled(run, 0, d) && EventBy(t.server, d, run.listed.clock) ensures Accounted(t, d) {
        var e :| e in t.server.log && e.date == d && e.stamp <= run.listed.clock;
        assert HasEvent(t.server, d, 0);
        assert d in a.dates;
      }
    }
  }

  lemma ListInv(s: State, a: Action)
    requires Inv(s) && a.List? && Enabled(s, a)
    ensures Inv(Next(s, a))
  {
    ListSafe(s, a);
    ListStored(s, a);
    ListProgress(s, a);
  }

  // --- One date ------------------------------------------------------------------------------

  lemma FetchInv(s: State, a: Action)
    requires Inv(s) && a.Fetch? && Enabled(s, a)
    ensures Inv(Next(s, a))
  {
    var t := Next(s, a);
    var mid := s.(server := a.after);
    var run, n := s.phase.run, s.phase.next;
    EvolveSafe(s, mid);
    SameWorldSafe(mid, t);
    EvolveProgress(s, mid, run, n);
    SameWorldProgress(mid, t, run, n);
    AggregatedIsKeyed(a.recs);
    if HasEvent(a.after, run.todo[n], s.server.clock) {
      EventsWeaken(a.after, run.todo[n], s.server.clock, run.listed.clock);
    }
  }

  // What was fetched is right, or the date has changed since the list.
  lemma FetchedRows(s: State)
    requires Inv(s) && s.phase.Fetched?
    ensures var run, n := s.phase.run, s.phase.next;
            n < |run.todo|
            && (ToDaily(run.todo[n], s.phase.rows) == ToDaily(run.todo[n], Aggregated(Records(s.server, run.todo[n])))
                || HasEvent(s.server, run.todo[n], run.listed.clock))
  {
    hide Safe, DonePrefix, StoredPrefix, Progress, Aggregated, Records, HasEvent;
  }

  lemma ReplaceExcuse(s: State, a: Action, d: string, floor: nat)
    requires Inv(s) && a.Replace? && Enabled(s, a)
    requires Excused(s, d, floor) || d == s.phase.run.todo[s.phase.next]
    requires floor <= s.phase.run.listed.clock
    ensures Excused(Next(s, a), d, floor)
  {
    var t := Next(s, a);
    var run, n := s.phase.run, s.phase.next;
    FetchedRows(s);
    hide Inv, Aggregated, Records, HasEvent, Without, UpsertAll, ToDaily;
    ReplacedIsUpdate(s.store, run.todo[n], s.phase.rows, a.now, d);
    if d == run.todo[n] && HasEvent(s.server, d, run.listed.clock) {
      EventsWeaken(s.server, d, run.listed.clock, floor);
    }
  }

  lemma SettledStep(run: Run, n: nat, d: string)
    requires n < |run.todo|
    ensures Settled(run, n + 1, d) <==> Settled(run, n, d) || d == run.todo[n]
  {}

  // Nothing at or below the n-th date is left after the n-th date.
  lemma SettledBelow(run: Run, n: nat, d: string)
    requires n < |run.todo| && Ascending(run.todo) && LexLe(d, run.todo[n])
    ensures Settled(run, n + 1, d)
  {
    if d in run.todo {
      var j :| 0 <= j < |run.todo| && run.todo[j] == d;
      if j > n {
        LexAntisym(d, run.todo[n]);
        assert run.todo[..n + 1][n] == d;
      } else {
        assert run.todo[..n + 1][j] == d;
      }
    }
  }

  lemma ReplaceProgress(s: State, a: Action)
    requires Inv(s) && a.Replace? && Enabled(s, a)
    ensures Progress(Next(s, a), s.phase.run, s.phase.next + 1)
  {
    var t := Next(s, a);
    var run, n := s.phase.run, s.phase.next;
    var d0 := run.todo[n];
    assert run.todo[..n + 1] == run.todo[..n] + [d0];
    forall d | Settled(run, n + 1, d) ensures Excused(t, d, run.listed.clock) {
      SettledStep(run, n, d);
      ReplaceExcuse(s, a, d, run.listed.clock);
    }
    if run.initial {
      forall d | Settled(run, n + 1, d) && EventBy(t.server, d, run.listed.clock) ensures Accounted(t, d) {
        SettledStep(run, n, d);
        assert d != d0 ==> Accounted(s, d);
      }
    }
    forall d | d !in run.todo[..n + 1] ensures DateRows(t.store, d) == DateRows(run.base, d) {
      ReplacedIsUpdate(s.store, d0, s.phase.rows, a.now, d);
    }
  }

  lemma FloorBelowList(s: State, run: Run, n: nat, d: string)
    requires Progress(s, run, n) && (IsInitial(s.store) ==> run.initial)
    ensures Floor(s, d) <= run.listed.clock
  {}

  lemma ReplaceSafe(s: State, a: Action)
    requires Inv(s) && a.Replace? && Enabled(s, a)
    ensures Safe(Next(s, a)) && DonePrefix(Next(s, a))
  {
    var t := Next(s, a);
    var run, n := s.phase.run, s.phase.next;
    ReplacedIsValid(s.store, run.todo[n], s.phase.rows, a.now);
    forall d ensures Excused(t, d, Floor(t, d)) {
      assert Excused(s, d, Floor(s, d));
      FloorBelowList(s, run, n, d);
      ReplaceExcuse(s, a, d, Floor(s, d));
    }
    if IsInitial(s.store) {
      forall d | Skips(t.store.cursor, d) && EventBy(t.server, d, t.lastList) ensures Accounted(t, d) {
        assert Accounted(s, d);
      }
    }
  }

  lemma ReplaceStoredUpTo(s: State, a: Action, d: string)
    requires Inv(s) && a.Replace? && Enabled(s, a)
    requires StoredUpTo(Next(s, a).store, d)
    ensures StoredUpTo(s.store, d) || LexLe(d, s.phase.run.todo[s.phase.next])
  {
    var d0 := s.phase.run.todo[s.phase.next];
    var kept, added := Without(s.store.daily, d0), ToDaily(d0, s.phase.rows);
    var r: DailyRow :| r in kept + added && LexLe(d, r.date);
    WithoutMembers(s.store.daily, d0);
    if r in kept {
      assert r in s.store.daily;
    }
  }

  lemma ReplaceStored(s: State, a: Action)
    requires Inv(s) && a.Replace? && Enabled(s, a)
    ensures StoredPrefix(Next(s, a))
  {
    var t := Next(s, a);
    var run, n := s.phase.run, s.phase.next;
    if IsInitial(s.store) {
      ReplaceProgress(s, a);
      forall d | StoredUpTo(t.store, d)
        ensures Excused(t, d, t.firstList) && (EventBy(t.server, d, t.firstList) ==> Accounted(t, d))
      {
        ReplaceStoredUpTo(s, a, d);
        if StoredUpTo(s.store, d) {
          assert Excused(s, d, s.firstList) && (EventBy(s.server, d, s.firstList) ==> Accounted(s, d));
          ReplaceExcuse(s, a, d, s.firstList);
        } else {
          SettledBelow(run, n, d);
          assert Excused(t, d, run.listed.clock);
          if HasEvent(t.server, d, run.listed.clock) {
            EventsWeaken(t.server, d, run.listed.clock, t.firstList);
          }
          if EventBy(t.server, d, t.firstList) {
            assert EventBy(t.server, d, run.listed.clock);
          }
        }
      }
    }
  }

  lemma ReplaceInv(s: State, a: Action)
    requires Inv(s) && a.Replace? && Enabled(s, a)
    ensures Inv(Next(s, a))
  {
    ReplaceSafe(s, a);
    ReplaceStored(s, a);
    ReplaceProgress(s, a);
  }

  // Everything up to the date just stored may be skipped from now on.
  lemma CheckpointInv(s: State, a: Action)
    requires Inv(s) && a.Checkpoint? && Enabled(s, a)
    ensures Inv(Next(s, a))
  {
    var t := Next(s, a);
    var run, n := s.phase.run, s.phase.next;
    var d0 := run.todo[n];
    SameWorldProgress(s, t, run, n + 1);
    if !(run.initial && a.ok) {
      SameWorldSafe(s, t);
    } else {
      forall d ensures Excused(t, d, Floor(t, d)) {
        if Skips(d0, d) {
          SettledBelow(run, n, d);
          assert Excused(t, d, run.listed.clock);
        } else {
          CursorGone(s, t, d);
        }
      }
      forall d | Skips(d0, d) && EventBy(t.server, d, t.lastList) ensures Accounted(t, d) {
        SettledBelow(run, n, d);
      }
      SameWorldStored(s, t);
    }
  }

  lemma SameWorldStored(s: State, t: State)
    requires SameWorld(s, t) && StoredPrefix(s)
    ensures StoredPrefix(t)
  {
    if IsInitial(s.store) {
      forall d | StoredUpTo(t.store, d)
        ensures Excused(t, d, t.firstList) && (EventBy(t.server, d, t.firstList) ==> Accounted(t, d))
      {
        assert StoredUpTo(s.store, d);
        assert Excused(s, d, s.firstList) && (EventBy(s.server, d, s.firstList) ==> Accounted(s, d));
      }
    }
  }

  // Losing the cursor, or moving it below d, only lowers the floor while the mark is "0".
  lemma CursorGone(s: State, t: State, d: string)
    requires SameWorld(s, t) && IsInitial(s.store) && Excused(s, d, Floor(s, d))
    ensures Excused(t, d, 0)
  {}

  // --- The end of a run ------------------------------------------------------------------------

  lemma AllSettled(run: Run, d: string)
    ensures Settled(run, |run.todo|, d)
  {}

  lemma SetMarkInv(s: State, a: Action)
    requires Inv(s) && a.SetMark? && Enabled(s, a)
    ensures Inv(Next(s, a))
  {
    var t := Next(s, a);
    var run := s.phase.run;
    if t.store == s.store {
      SameWorldSafe(s, t);
      SameWorldProgress(s, t, run, |run.todo|);
    } else {
      MarkZero();
      forall d ensures Excused(t, d, run.listed.clock) {
        AllSettled(run, d);
        assert Excused(s, d, run.listed.clock);
      }
      forall d ensures Excused(t, d, Floor(t, d)) {
        assert Excused(t, d, run.listed.clock);
        if HasEvent(t.server, d, run.listed.clock) {
          EventsWeaken(t.server, d, run.listed.clock, Floor(t, d));
        }
      }
      if run.initial {
        forall d | EventBy(t.server, d, run.listed.clock) ensures Accounted(t, d) {
          AllSettled(run, d);
          assert Accounted(s, d);
        }
      }
      if IsInitial(t.store) {
        forall d | StoredUpTo(t.store, d)
          ensures Excused(t, d, t.firstList) && (EventBy(t.server, d, t.firstList) ==> Accounted(t, d))
        {
          assert StoredUpTo(s.store, d);
          assert Excused(s, d, s.firstList) && (EventBy(s.server, d, s.firstList) ==> Accounted(s, d));
        }
      }
    }
  }

  lemma DropCursorInv(s: State, a: Action)
    requires Inv(s) && a.DropCursor? && Enabled(s, a)
    ensures Inv(Next(s, a))
  {
    var t := Next(s, a);
    var run := s.phase.run;
    SameWorldProgress(s, t, run, |run.todo|);
    SameWorldStored(s, t);
    if t.store == s.store {
      SameWorldSafe(s, t);
    } else {
      forall d ensures Excused(t, d, Floor(t, d)) {
        AllSettled(run, d);
        assert Excused(t, d, run.listed.clock);
        if HasEvent(t.server, d, run.listed.clock) {
          EventsWeaken(t.server, d, run.listed.clock, Floor(t, d));
        }
      }
    }
  }

  /** What every step of the protocol keeps. */
  lemma StepInv(s: State, a: Action)
    requires Inv(s) && Enabled(s, a)
    ensures Inv(Next(s, a))
  {
    hide Inv, Next, Enabled;
    match a
    case Change(_) => ChangeInv(s, a);
    case Stop => NoteInv(s, a);
    case Note(_, _, _) => NoteInv(s, a);
    case Clear => ClearInv(s, a);
    case Upgrade => UpgradeInv(s, a);
    case List(_, _) => ListInv(s, a);
    case Fetch(_, _) => FetchInv(s, a);
    case Replace(_) => ReplaceInv(s, a);
    case Checkpoint(_) => CheckpointInv(s, a);
    case SetMark(_) => SetMarkInv(s, a);
    case DropCursor(_) => DropCursorInv(s, a);
  }

  lemma StepAt(ss: seq<State>, acts: seq<Action>, i: nat)
    requires Steps(ss, acts) && i < |acts|
    ensures Enabled(ss[i], acts[i]) && ss[i + 1] == Next(ss[i], acts[i])
  {}

  lemma {:induction false} BehaviourInv(ss: seq<State>, acts: seq<Action>, k: nat)
    requires Behaviour(ss, acts) && k < |ss|
    ensures Inv(ss[k])
  {
    if k == 0 {
      StartInv(ss[0]);
    } else {
      BehaviourInv(ss, acts, k - 1);
      StepAt(ss, acts, k - 1);
      StepInv(ss[k - 1], acts[k - 1]);
    }
  }
}
