// Whole passes: paging composed with the protocol, clearing, and conservation.
module SyncTheorems {
  import opened Text
  import opened Aggregator
  import opened Store
  import opened Ledger
  import opened SteamClient
  import opened Views
  import opened SyncService
  import P = Protocol
  import T = ProtocolTheorems
  import N = Notification
  import D = Database
  import opened Migrations

  // --- Passes, one after the other, are behaviours of the protocol ------------------------

  /**
   * So everything proved of behaviours holds between any two steps of every pass, and
   * of every commit at the moment it is made: after a writing step, in order, the
   * server being what it is there.
   */
  lemma PassesCompose(before: seq<D.Committed>, tr0: Trace, after: seq<D.Committed>, tr: Trace)
    requires P.Behaviour(tr0.states, tr0.acts) && Reaches(before, tr0, after, tr)
    ensures P.Behaviour(tr.states, tr.acts)
    ensures forall k | 0 <= k < |tr.states| :: P.Inv(tr.states[k])
    ensures exists pos :: Moments(pos, after, |before|, |tr0.acts|, tr)
                          && forall i | 0 <= i < |pos| :: P.Inv(tr.states[pos[i]])
  {
    hide P.Inv, P.Enabled, P.Next, P.Start;
    assert tr.states[0] == tr0.states[0];
    forall k | 0 <= k < |tr.states| ensures P.Inv(tr.states[k]) {
      P.BehaviourInv(tr.states, tr.acts, k);
    }
    var pos :| Moments(pos, after, |before|, |tr0.acts|, tr);
    assert forall i | 0 <= i < |pos| :: CommittedAt(after[|before| + i], tr, |tr0.acts|, pos[i]);
  }

  lemma StepEvolves(s: P.State, a: P.Action)
    requires P.Inv(s) && P.Enabled(s, a)
    ensures Evolves(s.server, P.Next(s, a).server)
  {
    hide Evolves, P.Inv;
    ServerIsValid(s);
    EvolvesRefl(s.server);
  }

  lemma ServerIsValid(s: P.State)
    requires P.Inv(s)
    ensures ValidServer(s.server)
  {
    hide ValidServer, P.DonePrefix, P.StoredPrefix, P.Progress, P.Excused;
  }

  lemma {:induction false} ServerEvolves(ss: seq<P.State>, acts: seq<P.Action>, i: nat, j: nat)
    requires P.Behaviour(ss, acts) && i <= j < |ss|
    ensures Evolves(ss[i].server, ss[j].server)
    decreases j
  {
    hide Evolves, P.Inv, P.Enabled, P.Next, P.Start;
    if i == j {
      P.BehaviourInv(ss, acts, i);
      ServerIsValid(ss[i]);
      EvolvesRefl(ss[i].server);
    } else {
      ServerEvolves(ss, acts, i, j - 1);
      P.BehaviourInv(ss, acts, j - 1);
      P.StepAt(ss, acts, j - 1);
      StepEvolves(ss[j - 1], acts[j - 1]);
      EvolvesTrans(ss[i].server, ss[j - 1].server, ss[j].server);
    }
  }

  /** The behaviour of a program that dies after the first `at` steps of a trace. */
  ghost function CutAt(tr: Trace, at: nat): Trace
    requires at < |tr.states| && |tr.states| == |tr.acts| + 1
  {
    Trace(tr.states[..at + 1] + [tr.states[at].(phase := P.Idle)], tr.acts[..at] + [P.Stop])
  }

  lemma CutIsABehaviour(tr: Trace, at: nat)
    requires P.Behaviour(tr.states, tr.acts) && at < |tr.states|
    ensures var r := CutAt(tr, at);
            && P.Behaviour(r.states, r.acts) && r.Last() == tr.states[at].(phase := P.Idle)
  {
    hide P.Next, P.Start, P.Enabled;
    var r := CutAt(tr, at);
    forall i | 0 <= i < |r.acts|
      ensures P.Enabled(r.states[i], r.acts[i]) && r.states[i + 1] == P.Next(r.states[i], r.acts[i])
    {
      if i < at {
        P.StepAt(tr.states, tr.acts, i);
        assert r.states[i] == tr.states[i] && r.states[i + 1] == tr.states[i + 1] && r.acts[i] == tr.acts[i];
      } else {
        StopStep(tr.states[at]);
      }
    }
    assert r.states[0] == tr.states[0];
  }

  lemma StopStep(s: P.State)
    ensures P.Enabled(s, P.Stop) && P.Next(s, P.Stop) == s.(phase := P.Idle)
  {}

  // The first moment at which a commit can have been made.
  lemma FirstMoment(c: D.Committed, tr: Trace, from: nat, i: nat) returns (at: nat)
    requires CommittedAt(c, tr, from, i)
    ensures CommittedAt(c, tr, from, at)
    ensures forall j | CommittedAt(c, tr, from, j) :: at <= j
  {
    hide Writes;
    at := from + 1;
    while !CommittedAt(c, tr, from, at)
      invariant from < at <= i
      invariant forall j | CommittedAt(c, tr, from, j) :: at <= j
      decreases i - at
    {
      at := at + 1;
    }
  }

  /**
   * A crash after any commit of a pass leaves a file, at whatever schema version, with
   * which the next pass can start, and from which it continues a behaviour of the
   * protocol. The server that behaviour ends with is one that has become the server
   * of the moment of the commit, so any world sound from then on is sound for it.
   */
  lemma CrashIsABehaviour(before: seq<D.Committed>, tr0: Trace, after: seq<D.Committed>, tr: Trace, k: nat)
      returns (r: Trace)
    requires P.Behaviour(tr0.states, tr0.acts) && Reaches(before, tr0, after, tr)
    requires |before| <= k < |after|
    ensures P.Behaviour(r.states, r.acts)
    ensures r.Last().phase == P.Idle && r.Last().store == after[k].store
    ensures WellFormed(after[k].store, after[k].version)
    ensures Evolves(tr0.Last().server, r.Last().server)
    ensures forall i: nat | CommittedAt(after[k], tr, |tr0.acts|, i) :: Evolves(r.Last().server, tr.states[i].server)
    ensures exists i: nat :: CommittedAt(after[k], tr, |tr0.acts|, i) && r.Last().server == tr.states[i].server
  {
    hide P.Next, P.Start, P.Enabled, P.Inv, Evolves, Writes, WellFormed;
    assert tr.states[0] == tr0.states[0] && tr.states[|tr0.acts|] == tr0.Last();
    var pos :| Moments(pos, after, |before|, |tr0.acts|, tr);
    assert CommittedAt(after[|before| + (k - |before|)], tr, |tr0.acts|, pos[k - |before|]);
    var at := FirstMoment(after[k], tr, |tr0.acts|, pos[k - |before|]);
    r := CutAt(tr, at);
    CutIsABehaviour(tr, at);
    ServerEvolves(tr.states, tr.acts, |tr0.acts|, at);
    forall i: nat | CommittedAt(after[k], tr, |tr0.acts|, i) ensures Evolves(r.Last().server, tr.states[i].server) {
      ServerEvolves(tr.states, tr.acts, at, i);
    }
  }

  /** What the next pass demands of its world, seen from an earlier server. */
  lemma WorldFromEarlier(inputs: Inputs, view: View, earlier: Server, later: Server)
    requires SoundWorld(inputs, view, later) && Evolves(earlier, later)
    ensures SoundWorld(inputs, view, earlier)
  {
    EvolvesTrans(earlier, later, view.atList);
    hide Evolves, SoundReply, FetchedBetween, FetchOf;
  }

  /**
   * A pass that goes through its list, empty or not, the server being what it was when
   * the list was taken, leaves every date right save those a resumed backfill skipped
   * in spite of a change.
   */
  lemma PassConverges(tr: Trace, listed: Server, d: string)
    requires P.Behaviour(tr.states, tr.acts)
    requires RanThrough(tr, listed) && tr.Last().server == listed
    ensures P.Fresh(tr.Last(), d) || T.SkippedWhileChanged(tr.states, tr.acts, |tr.acts|, d)
  {
    hide P.Enabled, P.Next, P.Start;
    var k := |tr.acts| - 1;
    T.Convergence(tr.states, tr.acts, k, tr.states[k].phase.run, d);
    T.ExposedMeansSkipped(tr.states, tr.acts, k, d);
    T.ExposedMeansSkipped(tr.states, tr.acts, k + 1, d);
  }

  /**
   * A second pass against the same server, which as a rule finds nothing to do, changes
   * no date, save those skipped while changed and not repaired since.
   */
  lemma SecondPassChangesNothing(first: Trace, second: Trace, listed: Server, d: string)
    requires P.Behaviour(second.states, second.acts) && first.Valid() && Extends(first, second)
    requires RanThrough(first, listed) && first.Last().server == listed
    requires RanThrough(second, listed) && second.Last().server == listed
    ensures DateRows(first.Last().store, d) == DateRows(second.Last().store, d)
            || T.SkippedWhileChanged(second.states, second.acts, |first.acts|, d)
            || T.SkippedWhileChanged(second.states, second.acts, |second.acts|, d)
  {
    hide P.Enabled, P.Next, P.Start;
    assert second.states[0] == first.states[0] && second.acts[..|first.acts|] == first.acts;
    PassConverges(first, listed, d);
    PassConverges(second, listed, d);
    T.ExposedMeansSkipped(first.states, first.acts, |first.acts|, d);
    T.ExposedMeansSkipped(second.states, second.acts, |first.acts|, d);
    assert second.states[|first.acts|] == first.Last();
  }

  /** With no such date left at either end the table is as the first pass left it. */
  lemma SecondPassKeepsTable(first: Trace, second: Trace, listed: Server)
    requires P.Behaviour(second.states, second.acts) && first.Valid() && Extends(first, second)
    requires RanThrough(first, listed) && first.Last().server == listed
    requires RanThrough(second, listed) && second.Last().server == listed
    requires forall d :: !T.SkippedWhileChanged(second.states, second.acts, |first.acts|, d)
                         && !T.SkippedWhileChanged(second.states, second.acts, |second.acts|, d)
    ensures SameDaily(first.Last().store, second.Last().store)
    ensures multiset(first.Last().store.daily) == multiset(second.Last().store.daily)
  {
    hide P.Steps, P.Start, RanThrough;
    forall d ensures DateRows(first.Last().store, d) == DateRows(second.Last().store, d) {
      SecondPassChangesNothing(first, second, listed, d);
    }
    SameDailySameTable(first.Last().store, second.Last().store);
  }

  // --- A paging server is a sound world ------------------------------------------------------

  /** The server at each request of each fetch, and how many entries it then puts on a page. */
  datatype Paging = Paging(during: (nat, nat) -> Server, sizes: (nat, nat) -> nat)

  ghost predicate PagedWorld(inputs: Inputs, view: View, paging: Paging, from: Server) {
    && Evolves(from, view.atList)
    && (forall k: nat :: Evolves(BeforeFetch(view, k), view.after(k)))
    && (forall asked | inputs.list(asked).GotList? ::
          SoundReply(view.atList, asked, inputs.list(asked).dates, inputs.list(asked).mark))
    && (forall k: nat ::
          Throughout(BeforeFetch(view, k), (i: nat) => paging.during(k, i), view.after(k)))
    && (forall k: nat, d: string ::
          ServedFrom(inputs.serve(k, d), EntriesAt((i: nat) => paging.during(k, i), d), (i: nat) => paging.sizes(k, i)))
    && (forall k: nat, d: string ::
          |Entries(BeforeFetch(view, k), d)| <= Capacity((i: nat) => paging.sizes(k, i), 0))
  }

  /** Pages cut from a ledger that changes between any two requests make a sound world. */
  lemma PagedWorldIsSound(inputs: Inputs, view: View, paging: Paging, from: Server)
    requires PagedWorld(inputs, view, paging, from)
    ensures SoundWorld(inputs, view, from)
  {
    forall k: nat, d | FetchOf(inputs, k, d).Fetched?
      ensures FetchedBetween(BeforeFetch(view, k), view.after(k), d, FetchOf(inputs, k, d).records)
    {
      FetchIsTornAtWorst(inputs.serve(k, d), BeforeFetch(view, k), view.after(k),
                         (i: nat) => paging.during(k, i), (i: nat) => paging.sizes(k, i), d);
    }
  }

  // --- Clearing -----------------------------------------------------------------------------

  ghost predicate SameSales(a: Store, b: Store) {
    a.daily == b.daily && a.products == b.products && a.mark == b.mark && a.cursor == b.cursor
  }

  lemma SameStored(a: Store, b: Store, initial: bool, d: string, rows: seq<SalesRow>, now: string)
    requires SameSales(a, b)
    ensures SameSales(AfterDate(a, initial, d, rows, now), AfterDate(b, initial, d, rows, now))
  {}

  lemma {:induction false} SameDates(a: Store, b: Store, initial: bool, todo: seq<string>, inputs: Inputs, k: nat)
    requires k <= |todo| && SameSales(a, b)
    ensures SameSales(AfterDates(a, initial, todo, inputs, k), AfterDates(b, initial, todo, inputs, k))
  {
    hide SameSales, AfterDate, RowsAt;
    if k > 0 {
      SameDates(a, b, initial, todo, inputs, k - 1);
      SameStored(AfterDates(a, initial, todo, inputs, k - 1), AfterDates(b, initial, todo, inputs, k - 1),
                 initial, todo[k - 1], RowsAt(inputs, k - 1, todo[k - 1]), inputs.now);
    }
  }

  lemma SameDatesStore(a: Store, b: Store, initial: bool, todo: seq<string>, inputs: Inputs)
    requires SameSales(a, b)
    ensures SameSales(DatesStore(a, initial, todo, inputs), DatesStore(b, initial, todo, inputs))
  {
    hide AfterDate, RowsAt, FetchOf;
    SameDates(a, b, initial, todo, inputs, FirstFailure(todo, inputs, 0));
  }

  /** A pass reads the tables, the mark and the cursor, and nothing else. */
  lemma SameSalesSamePass(a: Store, b: Store, inputs: Inputs)
    requires SameSales(a, b)
    ensures SameSales(AfterRun(a, inputs), AfterRun(b, inputs))
    ensures OutcomeOf(a, inputs) == OutcomeOf(b, inputs)
  {
    hide DatesStore, DatesOutcome, Sort, P.ToProcess;
    var reply := inputs.list(GetMark(a));
    if reply.GotList? {
      SameDatesStore(a.(checked := inputs.now), b.(checked := inputs.now), P.IsInitial(a),
                     TodoOf(a, reply.dates), inputs);
    }
  }

  /** A pass over a cleared cache does what it does over a newly migrated database. */
  lemma ClearEqualsFresh(st: Store, inputs: Inputs)
    ensures SameSales(AfterRun(Cleared(st), inputs), AfterRun(FRESH_STORE, inputs))
    ensures OutcomeOf(Cleared(st), inputs) == OutcomeOf(FRESH_STORE, inputs)
  {
    SameSalesSamePass(Cleared(st), FRESH_STORE, inputs);
  }

  predicate GotToDates(outcome: Outcome) {
    outcome == NothingChanged || outcome == FetchError || outcome == SaveError || outcome == Done
  }

  /**
   * Nor do ignored write failures show in the tables: passes that ended alike after as
   * many dates, over a cleared cache and over a new one, leave the same tables, and
   * for a mark the new one or still "0".
   */
  lemma ClearedPassEqualsFresh(outcome: Outcome, st: Store, end: Store, end': Store, inputs: Inputs, n: nat)
    requires GotToDates(outcome)
    requires Leaves(outcome, Cleared(st), end, inputs, n) && Leaves(outcome, FRESH_STORE, end', inputs, n)
    ensures SameTables(end, end')
    ensures {end.mark, end'.mark} <= {"0", inputs.list("0").mark}
  {
    hide AfterDates, Sort, P.ToProcess;
    var dates := inputs.list("0").dates;
    SameTablesDates(Cleared(st), FRESH_STORE, true, TodoOf(FRESH_STORE, dates), inputs, n);
  }

  /** The third statement of a clear fails: the pass begins with the cache as it was, the request taken. */
  lemma TakenClearCanBeLost()
    ensures var st := FRESH_STORE.(daily := [DailyRow("d", 7, 1, 0, 1)], products := [Product(7, "", "")]);
            var faults := (i: nat) => i == 2;
            && ValidStore(st) && Cleared(st) != st
            && Opens(true, TARGET_SCHEMA_VERSION, faults, 0)
            && BaseOf(st, TARGET_SCHEMA_VERSION, true, true, faults, 0) == st
  {
    var faults := (i: nat) => i == 2;
    assert faults(2);
    var ps := [Product(7, "", "")];
    assert ps[0].app == 7;
  }

  // --- Conservation ----------------------------------------------------------------------------

  function Distinct(dates: seq<string>): seq<string> {
    if dates == [] then []
    else
      var before, last := Distinct(dates[..|dates| - 1]), dates[|dates| - 1];
      if last in before then before else before + [last]
  }

  function SumOfChanges(dates: seq<string>, a: Store, b: Store): int {
    if dates == [] then 0
    else SumOfChanges(dates[..|dates| - 1], a, b)
         + (SumForDate(b, dates[|dates| - 1]) - SumForDate(a, dates[|dates| - 1]))
  }

  ghost predicate NoRepeats(dates: seq<string>) {
    forall i, j | 0 <= i < j < |dates| :: dates[i] != dates[j]
  }

  lemma {:induction false} DistinctIs(dates: seq<string>)
    ensures NoRepeats(Distinct(dates))
    ensures forall d :: d in Distinct(dates) <==> d in dates
  {
    if dates != [] {
      DistinctIs(dates[..|dates| - 1]);
      assert dates == dates[..|dates| - 1] + [dates[|dates| - 1]];
    }
  }

  // Changing one more date moves its own term and no other.
  lemma {:induction false} ChangeOneDate(dates: seq<string>, a: Store, b: Store, c: Store, d: string)
    requires NoRepeats(dates)
    requires forall e | e != d :: SumForDate(c, e) == SumForDate(b, e)
    ensures SumOfChanges(dates, a, c) ==
            SumOfChanges(dates, a, b) + (if d in dates then SumForDate(c, d) - SumForDate(b, d) else 0)
  {
    if dates != [] {
      var front, last := dates[..|dates| - 1], dates[|dates| - 1];
      ChangeOneDate(front, a, b, c, d);
      assert dates == front + [last];
    }
  }

  lemma StoredSums(st: Store, initial: bool, d: string, rows: seq<SalesRow>, now: string)
    ensures var t := AfterDate(st, initial, d, rows, now);
            && SumLifetime(t) - SumLifetime(st) == SumForDate(t, d) - SumForDate(st, d)
            && forall e | e != d :: SumForDate(t, e) == SumForDate(st, e)
  {
    var t, r := AfterDate(st, initial, d, rows, now), Replaced(st, d, rows, now);
    ReplacedSum(st, d, rows, now);
    ReplacedIsUpdate(st, d, rows, now, d);
    forall e | e != d ensures SumForDate(t, e) == SumForDate(st, e) {
      ReplacedIsUpdate(st, d, rows, now, e);
    }
  }

  /** Over a run the lifetime sum moves by the changes of the distinct dates it processed. */
  lemma {:induction false} RunConservesSums(st: Store, initial: bool, todo: seq<string>, inputs: Inputs, k: nat)
    requires k <= |todo|
    ensures var end := AfterDates(st, initial, todo, inputs, k);
            SumLifetime(end) - SumLifetime(st) == SumOfChanges(Distinct(todo[..k]), st, end)
  {
    hide AfterDate, RowsAt, SumForDate, SumLifetime;
    if k > 0 {
      var d := todo[k - 1];
      var mid, end := AfterDates(st, initial, todo, inputs, k - 1), AfterDates(st, initial, todo, inputs, k);
      var before := Distinct(todo[..k - 1]);
      RunConservesSums(st, initial, todo, inputs, k - 1);
      StoredSums(mid, initial, d, RowsAt(inputs, k - 1, d), inputs.now);
      DistinctIs(todo[..k - 1]);
      ChangeOneDate(before, st, mid, end, d);
      assert todo[..k][..k - 1] == todo[..k - 1];
      if d !in todo[..k - 1] {
        DateUntouched(st, initial, todo, inputs, k - 1, d);
        assert (before + [d])[..|before|] == before;
      }
    }
  }

  lemma {:induction false} DateUntouched(st: Store, initial: bool, todo: seq<string>, inputs: Inputs, k: nat, d: string)
    requires k <= |todo| && d !in todo[..k]
    ensures DateRows(AfterDates(st, initial, todo, inputs, k), d) == DateRows(st, d)
    ensures SumForDate(AfterDates(st, initial, todo, inputs, k), d) == SumForDate(st, d)
  {
    hide RowsAt, Replaced;
    if k > 0 {
      assert todo[..k] == todo[..k - 1] + [todo[k - 1]];
      DateUntouched(st, initial, todo, inputs, k - 1, d);
      ReplacedIsUpdate(AfterDates(st, initial, todo, inputs, k - 1), todo[k - 1],
                       RowsAt(inputs, k - 1, todo[k - 1]), inputs.now, d);
    }
  }

  // --- ... of a pass, whichever of its writes failed --------------------------------------

  /** The distinct dates among the first n a pass goes through. */
  function DatesDone(base: Store, inputs: Inputs, n: nat): seq<string>
    requires inputs.list(GetMark(base)).GotList? && n <= |TodoOf(base, inputs.list(GetMark(base)).dates)|
  {
    Distinct(TodoOf(base, inputs.list(GetMark(base)).dates)[..n])
  }

  lemma {:induction false} SameChanges(dates: seq<string>, a: Store, b: Store, c: Store)
    requires b.daily == c.daily
    ensures SumOfChanges(dates, a, b) == SumOfChanges(dates, a, c)
  {
    if dates != [] {
      SameChanges(dates[..|dates| - 1], a, b, c);
    }
  }

  /**
   * Conservation over a pass: between the store it began with and the one it left, the
   * lifetime sum moved by the changes of the distinct dates completed.
   */
  lemma PassConservesSums(outcome: Outcome, base: Store, end: Store, inputs: Inputs, n: nat)
    requires Leaves(outcome, base, end, inputs, n) && GotToDates(outcome)
    ensures SumLifetime(end) - SumLifetime(base) == SumOfChanges(DatesDone(base, inputs, n), base, end)
  {
    hide AfterDates, TodoOf, Distinct;
    var todo := TodoOf(base, inputs.list(GetMark(base)).dates);
    var mid := AfterDates(base, P.IsInitial(base), todo, inputs, n);
    RunConservesSums(base, P.IsInitial(base), todo, inputs, n);
    SameChanges(Distinct(todo[..n]), base, mid, end);
  }

  /** A pass keeps both keys and forgets no product. */
  lemma PassKeepsTables(outcome: Outcome, base: Store, end: Store, inputs: Inputs, n: nat)
    requires Leaves(outcome, base, end, inputs, n) && GotToDates(outcome) && ValidStore(base)
    ensures ValidStore(end) && forall a | HasProduct(base.products, a) :: HasProduct(end.products, a)
  {
    hide AfterDates, TodoOf;
    var todo := TodoOf(base, inputs.list(GetMark(base)).dates);
    RunKeepsTables(base, P.IsInitial(base), todo, inputs, n);
  }

  /** And the per-product deltas behind the notification add up to those changes. */
  lemma DeltasAreDateChanges(outcome: Outcome, base: Store, end: Store, inputs: Inputs, n: nat)
    requires Leaves(outcome, base, end, inputs, n) && GotToDates(outcome) && ValidStore(base)
    ensures N.SumOfRises(end.products, N.SnapshotOf(QueryLifetime(base)), N.SnapshotOf(QueryLifetime(end)))
            == SumOfChanges(DatesDone(base, inputs, n), base, end)
  {
    hide ValidStore, HasProduct, SumLifetime, QueryLifetime, N.SumOfRises, AfterDates, TodoOf, Distinct;
    PassKeepsTables(outcome, base, end, inputs, n);
    PassConservesSums(outcome, base, end, inputs, n);
    N.RisesAddUp(base, end);
  }
}
