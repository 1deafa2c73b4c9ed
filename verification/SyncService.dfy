// The worker's synchronization pass as it is written (RunSynchronization in
// src/sync/SalesSyncService.cpp), over a database whose statements may fail and a
// server that changes meanwhile. Every pass is shown to be a path of the protocol.
module SyncService {
  import opened Text
  import opened Aggregator
  import opened Store
  import opened Ledger
  import opened SteamClient
  import opened Migrations
  import opened Views
  import P = Protocol
  import D = Database
  import N = Notification

  datatype SyncStatus =
    | MissingApiKey | Idle | Syncing | Offline | AuthenticationFailed
    | ApiError | ParseError | DatabaseError

  /** The ways a pass can end. */
  datatype Outcome = NoDatabase | NoKey | ListError | NothingChanged | FetchError | SaveError | Done

  function StatusFromKind(kind: ResultKind): SyncStatus {
    match kind
    case Offline => SyncStatus.Offline
    case RateLimited => SyncStatus.Offline
    case ServerError => SyncStatus.Offline
    case Auth => AuthenticationFailed
    case Parse => ParseError
    case _ => ApiError
  }

  datatype ListResult =
    | GotList(dates: seq<string>, mark: string)
    | ListFailed(kind: ResultKind, message: string)

  /** What the user sees of each kind of failure. */
  lemma StatusOfKinds(kind: ResultKind)
    ensures StatusFromKind(kind) == SyncStatus.Offline <==>
            kind in {ResultKind.Offline, ResultKind.RateLimited, ResultKind.ServerError}
    ensures StatusFromKind(kind) == AuthenticationFailed <==> kind == ResultKind.Auth
    ensures StatusFromKind(kind) == ParseError <==> kind == ResultKind.Parse
    ensures StatusFromKind(kind) == ApiError <==>
            kind in {ResultKind.Success, ResultKind.TooLarge, ResultKind.Other}
  {}

  /**
   * What a pass gets from outside: whether a key is stored, the preference, the
   * answers to its requests (by mark, and by position and date), and the clock.
   */
  datatype Inputs = Inputs(
    hasKey: bool, notify: bool, list: string -> ListResult, serve: (nat, string) -> Serve,
    now: string, today: string)

  /** The server at the moment of the list and at the end of each fetch. */
  datatype View = View(atList: Server, after: nat -> Server)

  ghost function BeforeFetch(view: View, k: nat): Server {
    if k == 0 then view.atList else view.after(k - 1)
  }

  function FetchOf(inputs: Inputs, k: nat, d: string): FetchResult {
    PagesFrom(inputs.serve(k, d), 0, "0")
  }

  /** The answers are those of a sound server going through `view`. */
  ghost predicate SoundWorld(inputs: Inputs, view: View, from: Server) {
    && Evolves(from, view.atList)
    && (forall k: nat :: Evolves(BeforeFetch(view, k), view.after(k)))
    && (forall asked | inputs.list(asked).GotList? ::
          SoundReply(view.atList, asked, inputs.list(asked).dates, inputs.list(asked).mark))
    && (forall k: nat, d | FetchOf(inputs, k, d).Fetched? ::
          FetchedBetween(BeforeFetch(view, k), view.after(k), d, FetchOf(inputs, k, d).records))
  }

  lemma WorldAt(inputs: Inputs, view: View, k: nat, d: string)
    requires SoundWorld(inputs, view, view.atList)
    ensures FetchOf(inputs, k, d).Fetched? ==>
              FetchedBetween(BeforeFetch(view, k), view.after(k), d, FetchOf(inputs, k, d).records)
  {}

  lemma WorldAtList(inputs: Inputs, view: View, from: Server, asked: string)
    requires SoundWorld(inputs, view, from)
    ensures Evolves(from, view.atList)
    ensures inputs.list(asked).GotList? ==>
              SoundReply(view.atList, asked, inputs.list(asked).dates, inputs.list(asked).mark)
  {}

  lemma WorldFromList(inputs: Inputs, view: View, from: Server)
    requires SoundWorld(inputs, view, from)
    ensures SoundWorld(inputs, view, view.atList)
  {}

  // --- Traces -------------------------------------------------------------------------

  datatype Trace = Trace(states: seq<P.State>, acts: seq<P.Action>) {
    ghost predicate Valid() {
      P.Steps(states, acts)
    }

    ghost function Last(): P.State
      requires Valid()
    {
      states[|acts|]
    }
  }

  ghost predicate Extends(a: Trace, b: Trace) {
    a.states <= b.states && a.acts <= b.acts
  }

  // --- Commits and traces: what a crash can leave behind is a state of the trace -------

  /** A step that can commit: a write, and one that has not failed. */
  predicate Writes(a: P.Action) {
    match a
    case Note(_, _, _) => true
    case Clear => true
    case Upgrade => true
    case Replace(_) => true
    case Checkpoint(ok) => ok
    case SetMark(ok) => ok
    case DropCursor(ok) => ok
    case _ => false
  }

  /** The steps from tr to r end in a write. */
  ghost predicate Wrote(tr: Trace, r: Trace) {
    |tr.acts| < |r.acts| && Writes(r.acts[|r.acts| - 1])
  }

  /** State i of the trace, past step `from`, is what a writing step left, and it is the one committed. */
  ghost predicate CommittedAt(c: D.Committed, tr: Trace, from: nat, i: nat) {
    && |tr.states| == |tr.acts| + 1 && from < i < |tr.states|
    && Writes(tr.acts[i - 1]) && tr.states[i].store == c.store
  }

  /** Where in the trace the commits from number n on were made: in that order. */
  ghost predicate Moments(pos: seq<nat>, commits: seq<D.Committed>, n: nat, from: nat, tr: Trace) {
    && n <= |commits| && |pos| == |commits| - n
    && (forall i | 0 <= i < |pos| ::
          CommittedAt(commits[n + i], tr, from, pos[i])
          && WellFormed(commits[n + i].store, commits[n + i].version))
    && (forall i, j | 0 <= i < j < |pos| :: pos[i] <= pos[j])
  }

  /**
   * While the commits grew from `before` to `after`, the trace grew from tr0 to tr,
   * and the new commits were made, in order, along the new part of it.
   */
  ghost predicate Reaches(before: seq<D.Committed>, tr0: Trace, after: seq<D.Committed>, tr: Trace) {
    && tr.Valid() && Extends(tr0, tr) && before <= after
    && exists pos :: Moments(pos, after, |before|, |tr0.acts|, tr)
  }

  lemma StandStill(commits: seq<D.Committed>, tr: Trace)
    requires tr.Valid()
    ensures Reaches(commits, tr, commits, tr)
  {
    assert Moments([], commits, |commits|, |tr.acts|, tr);
  }

  lemma CommittedStill(c: D.Committed, tr: Trace, from: nat, tr': Trace, from': nat, i: nat)
    requires CommittedAt(c, tr, from, i) && tr'.Valid() && Extends(tr, tr') && from' <= from
    ensures CommittedAt(c, tr', from', i)
  {}

  lemma CommittedLies(c: D.Committed, tr: Trace, from: nat, i: nat)
    requires CommittedAt(c, tr, from, i)
    ensures from < i <= |tr.acts|
  {}

  // The i-th commit of two stretches, one after the other.
  lemma JoinedAt(p: seq<nat>, c1: seq<D.Committed>, n: nat, from: nat, tr1: Trace,
                 q: seq<nat>, c2: seq<D.Committed>, tr2: Trace, i: nat)
    requires Moments(p, c1, n, from, tr1) && Moments(q, c2, |c1|, |tr1.acts|, tr2)
    requires tr2.Valid() && Extends(tr1, tr2) && c1 <= c2 && from <= |tr1.acts| && i < |p + q|
    ensures CommittedAt(c2[n + i], tr2, from, (p + q)[i]) && WellFormed(c2[n + i].store, c2[n + i].version)
    ensures if i < |p| then (p + q)[i] <= |tr1.acts| else (p + q)[i] > |tr1.acts|
  {
    hide WellFormed, CommittedAt, Trace.Valid;
    if i < |p| {
      assert c2[n + i] == c1[n + i];
      CommittedStill(c1[n + i], tr1, from, tr2, from, p[i]);
      CommittedLies(c1[n + i], tr1, from, p[i]);
    } else {
      var k := i - |p|;
      assert n + i == |c1| + k;
      CommittedStill(c2[|c1| + k], tr2, |tr1.acts|, tr2, from, q[k]);
      CommittedLies(c2[|c1| + k], tr2, |tr1.acts|, q[k]);
    }
  }

  lemma Joined(p: seq<nat>, c1: seq<D.Committed>, n: nat, from: nat, tr1: Trace,
               q: seq<nat>, c2: seq<D.Committed>, tr2: Trace)
    requires Moments(p, c1, n, from, tr1) && Moments(q, c2, |c1|, |tr1.acts|, tr2)
    requires tr2.Valid() && Extends(tr1, tr2) && c1 <= c2 && from <= |tr1.acts|
    ensures Moments(p + q, c2, n, from, tr2)
  {
    hide WellFormed, CommittedAt, Trace.Valid, Extends;
    var pos := p + q;
    forall i | 0 <= i < |pos|
      ensures CommittedAt(c2[n + i], tr2, from, pos[i]) && WellFormed(c2[n + i].store, c2[n + i].version)
      ensures if i < |p| then pos[i] <= |tr1.acts| else pos[i] > |tr1.acts|
    {
      JoinedAt(p, c1, n, from, tr1, q, c2, tr2, i);
    }
    forall i, j | 0 <= i < j < |pos| ensures pos[i] <= pos[j] {
      if j < |p| {
        assert pos[i] == p[i] && pos[j] == p[j];
      } else if i >= |p| {
        assert pos[i] == q[i - |p|] && pos[j] == q[j - |p|];
      }
    }
  }

  lemma ThenReached(c0: seq<D.Committed>, tr0: Trace, c1: seq<D.Committed>, tr1: Trace,
                    c2: seq<D.Committed>, tr2: Trace)
    requires Reaches(c0, tr0, c1, tr1) && Reaches(c1, tr1, c2, tr2)
    ensures Reaches(c0, tr0, c2, tr2)
  {
    hide Moments, Trace.Valid;
    var p :| Moments(p, c1, |c0|, |tr0.acts|, tr1);
    var q :| Moments(q, c2, |c1|, |tr1.acts|, tr2);
    Joined(p, c1, |c0|, |tr0.acts|, tr1, q, c2, tr2);
  }

  // Steps that commit nothing.
  lemma ThenMoved(c0: seq<D.Committed>, tr0: Trace, c1: seq<D.Committed>, tr1: Trace, tr2: Trace)
    requires Reaches(c0, tr0, c1, tr1) && tr2.Valid() && Extends(tr1, tr2)
    ensures Reaches(c0, tr0, c1, tr2)
  {
    assert Moments([], c1, |c1|, |tr1.acts|, tr2);
    ThenReached(c0, tr0, c1, tr1, c1, tr2);
  }

  // One write: nothing, or the state the trace ends in.
  lemma ThenWrote(c0: seq<D.Committed>, tr0: Trace, c1: seq<D.Committed>, tr1: Trace,
                  c2: seq<D.Committed>, ok: bool, version: nat, tr2: Trace)
    requires Reaches(c0, tr0, c1, tr1) && tr2.Valid() && Extends(tr1, tr2)
    requires version >= TARGET_SCHEMA_VERSION && (ok ==> Wrote(tr1, tr2))
    requires c2 == if ok then c1 + [D.Committed(tr2.Last().store, version)] else c1
    ensures Reaches(c0, tr0, c2, tr2)
  {
    if ok {
      assert Moments([|tr2.acts|], c2, |c1|, |tr1.acts|, tr2);
      ThenReached(c0, tr0, c1, tr1, c2, tr2);
    } else {
      ThenMoved(c0, tr0, c1, tr1, tr2);
    }
  }

  // Migrating commits the empty schema, which the file stood for already, and its final state.
  lemma ThenOpened(before: seq<D.Committed>, after: seq<D.Committed>, version: nat, tr: Trace, tr': Trace)
    requires tr.Valid() && tr'.Valid() && Extends(tr, tr') && (after != before ==> Wrote(tr, tr'))
    requires CommitsOf(before, after, version, tr'.Last().store)
    requires version == 0 ==> tr'.Last().store == FRESH_STORE
    ensures Reaches(before, tr, after, tr')
  {
    if after == before {
      StandStill(before, tr);
      ThenMoved(before, tr, before, tr, tr');
    } else {
      var pos := seq(|after| - |before|, i => |tr'.acts|);
      assert Moments(pos, after, |before|, |tr.acts|, tr');
    }
  }

  ghost function Then(tr: Trace, a: P.Action): (r: Trace)
    requires tr.Valid() && P.Enabled(tr.Last(), a)
    ensures r.Valid() && r.Last() == P.Next(tr.Last(), a) && Extends(tr, r)
    ensures |r.acts| == |tr.acts| + 1 && r.acts[|tr.acts|] == a
  {
    var next := P.Next(tr.Last(), a);
    var r := Trace(tr.states + [next], tr.acts + [a]);
    assert forall i | 0 <= i < |tr.acts| :: r.states[i] == tr.states[i] && r.acts[i] == tr.acts[i];
    r
  }

  // The protocol's steps up to the commit of one date, and its checkpoint.
  ghost function ReplaceSteps(tr: Trace, run: P.Run, k: nat, after: Server,
                              recs: seq<SalesRecord>, now: string): (r: Trace)
    requires tr.Valid() && k < |run.todo| && tr.Last().phase == P.Listed(run, k)
    requires FetchedBetween(tr.Last().server, after, run.todo[k], recs)
    ensures Wrote(tr, r)
    ensures r.Valid() && Extends(tr, r)
    ensures r.Last().phase == P.Stored(run, k) && r.Last().server == after
    ensures r.Last().store == Replaced(tr.Last().store, run.todo[k], Aggregated(recs), now)
  {
    Then(Then(tr, P.Fetch(after, recs)), P.Replace(now))
  }

  ghost function CheckpointStep(tr: Trace, run: P.Run, k: nat, ok: bool): (r: Trace)
    requires tr.Valid() && k < |run.todo| && tr.Last().phase == P.Stored(run, k)
    ensures ok ==> Wrote(tr, r)
    ensures r.Valid() && Extends(tr, r)
    ensures r.Last().phase == P.Listed(run, k + 1) && r.Last().server == tr.Last().server
    ensures r.Last().store ==
            if run.initial && ok then tr.Last().store.(cursor := run.todo[k]) else tr.Last().store
  {
    Then(tr, P.Checkpoint(ok))
  }

  ghost function MarkStep(tr: Trace, ok: bool): (r: Trace)
    requires tr.Valid() && tr.Last().phase.Listed? && tr.Last().phase.next == |tr.Last().phase.run.todo|
    ensures ok ==> Wrote(tr, r)
    ensures r.Valid() && Extends(tr, r)
    ensures var s, mark := tr.Last(), tr.Last().phase.run.newMark;
            r.Last() == s.(store := if ok && mark != "" then s.store.(mark := mark) else s.store,
                           phase := P.Marked(s.phase.run))
  {
    Then(tr, P.SetMark(ok))
  }

  ghost function DropStep(tr: Trace, ok: bool): (r: Trace)
    requires tr.Valid() && tr.Last().phase.Marked?
    ensures ok ==> Wrote(tr, r)
    ensures r.Valid() && Extends(tr, r) && r.Last().phase == P.Finished(tr.Last().phase.run)
    ensures r.Last().store ==
            if tr.Last().phase.run.initial && ok then tr.Last().store.(cursor := "") else tr.Last().store
    ensures r.Last().server == tr.Last().server
  {
    Then(tr, P.DropCursor(ok))
  }

  ghost function Moved(tr: Trace, sv: Server): (r: Trace)
    requires tr.Valid() && Evolves(tr.Last().server, sv)
    ensures r.Valid() && Extends(tr, r) && r.Last() == tr.Last().(server := sv)
  {
    Then(tr, P.Change(sv))
  }

  ghost function TakeList(tr: Trace, dates: seq<string>, mark: string): (r: Trace)
    requires tr.Valid() && tr.Last().phase == P.Idle
    requires SoundReply(tr.Last().server, GetMark(tr.Last().store), dates, mark)
    ensures r.Valid() && Extends(tr, r)
    ensures r.Last().server == tr.Last().server && r.Last().store == tr.Last().store
    ensures var st := tr.Last().store;
            r.Last().phase == P.Listed(
              P.Run(P.IsInitial(st), TodoOf(st, dates), mark, tr.Last().server, st), 0)
  {
    Then(tr, P.List(dates, mark))
  }

  ghost function Ended(tr: Trace): (r: Trace)
    requires tr.Valid()
    ensures r.Valid() && Extends(tr, r) && r.Last() == tr.Last().(phase := P.Idle)
    ensures |r.acts| == |tr.acts| + 1 && r.states[|tr.acts|] == tr.Last()
  {
    Then(tr, P.Stop)
  }

  ghost function UpgradeStep(tr: Trace): (r: Trace)
    requires tr.Valid() && tr.Last().phase == P.Idle && tr.Last().store.cursor == ""
    ensures Wrote(tr, r)
    ensures r.Valid() && Extends(tr, r) && r.Last().phase == P.Idle
    ensures r.Last().server == tr.Last().server && r.Last().store == Seeded(tr.Last().store)
  {
    Then(tr, P.Upgrade)
  }

  ghost function ClearStep(tr: Trace): (r: Trace)
    requires tr.Valid() && tr.Last().phase == P.Idle
    ensures Wrote(tr, r)
    ensures r.Valid() && Extends(tr, r) && r.Last().phase == P.Idle
    ensures r.Last().server == tr.Last().server && r.Last().store == Cleared(tr.Last().store)
  {
    Then(tr, P.Clear)
  }

  // Writes to the columns the protocol does not read.
  ghost function Noted(tr: Trace, store: Store): (r: Trace)
    requires tr.Valid()
    requires store == tr.Last().store.(checked := store.checked, synced := store.synced, error := store.error)
    ensures Wrote(tr, r)
    ensures r.Valid() && Extends(tr, r)
    ensures r.Last() == tr.Last().(store := store)
  {
    Then(tr, P.Note(store.checked, store.synced, store.error))
  }

  // --- What a pass does to the database, statement failures aside ----------------------

  function RowsAt(inputs: Inputs, k: nat, d: string): seq<SalesRow> {
    match FetchOf(inputs, k, d)
    case Fetched(records) => Aggregated(records)
    case FetchFailed(_, _) => []
  }

  function ErrorOf(r: FetchResult): string {
    match r
    case Fetched(_) => ""
    case FetchFailed(_, message) => message
  }

  function AfterDate(st: Store, initial: bool, d: string, rows: seq<SalesRow>, now: string): Store {
    var r := Replaced(st, d, rows, now);
    if initial then r.(cursor := d) else r
  }

  /** The store after the first k dates of a run. */
  function AfterDates(st: Store, initial: bool, todo: seq<string>, inputs: Inputs, k: nat): Store
    requires k <= |todo|
  {
    if k == 0 then st
    else
      AfterDate(AfterDates(st, initial, todo, inputs, k - 1), initial, todo[k - 1],
             RowsAt(inputs, k - 1, todo[k - 1]), inputs.now)
  }

  /** The first date from k on whose fetch fails, or the number of dates. */
  function FirstFailure(todo: seq<string>, inputs: Inputs, k: nat): nat
    requires k <= |todo|
    ensures k <= FirstFailure(todo, inputs, k) <= |todo|
    decreases |todo| - k
  {
    if k == |todo| || FetchOf(inputs, k, todo[k]).FetchFailed? then k
    else FirstFailure(todo, inputs, k + 1)
  }

  function DatesOutcome(todo: seq<string>, inputs: Inputs): Outcome {
    if FirstFailure(todo, inputs, 0) < |todo| then FetchError else Done
  }

  /** The store when the loop ends: at its first failed fetch, or after every date. */
  function DatesStore(st: Store, initial: bool, todo: seq<string>, inputs: Inputs): Store {
    var n := FirstFailure(todo, inputs, 0);
    var stored := AfterDates(st, initial, todo, inputs, n);
    if n < |todo| then stored.(error := ErrorOf(FetchOf(inputs, n, todo[n]))) else stored
  }

  function TodoOf(st: Store, dates: seq<string>): seq<string> {
    P.ToProcess(Sort(dates), P.IsInitial(st), st.cursor)
  }

  function AfterTail(st: Store, initial: bool, mark: string, now: string): Store {
    st.(mark := if mark != "" then mark else st.mark,
        cursor := if initial then "" else st.cursor,
        synced := now, error := "")
  }

  /** An answered list of changed dates, carried through. */
  function AfterList(st: Store, dates: seq<string>, mark: string, inputs: Inputs): Store {
    var noted, todo := st.(checked := inputs.now), TodoOf(st, dates);
    if dates == [] then noted.(mark := if mark != "" then mark else st.mark, error := "")
    else
      var stored := DatesStore(noted, P.IsInitial(st), todo, inputs);
      if DatesOutcome(todo, inputs) == Done then AfterTail(stored, P.IsInitial(st), mark, inputs.now)
      else stored
  }

  /** The whole pass, from the store it finds after opening and clearing. */
  function AfterRun(st: Store, inputs: Inputs): Store {
    if !inputs.hasKey then st
    else
      match inputs.list(GetMark(st))
      case ListFailed(_, message) => st.(error := message)
      case GotList(dates, mark) => AfterList(st, dates, mark, inputs)
  }

  ghost predicate FileShape(db: D.Database)
    reads db
  {
    WellFormed(db.disk, db.version) && (db.isOpen ==> db.version >= TARGET_SCHEMA_VERSION)
  }

  function OutcomeOf(st: Store, inputs: Inputs): Outcome {
    if !inputs.hasKey then NoKey
    else
      match inputs.list(GetMark(st))
      case ListFailed(_, _) => ListError
      case GotList(dates, _) => if dates == [] then NothingChanged else DatesOutcome(TodoOf(st, dates), inputs)
  }

  /** The message of a pass: what rose between two states of the cache. */
  ghost function NewUnits(before: Store, after: Store, inputs: Inputs, walk: N.Snapshot -> seq<int>): string {
    if inputs.notify && !P.IsInitial(before) then
      var now := N.SnapshotOf(QueryLifetime(after));
      N.Message(N.SnapshotOf(QueryLifetime(before)), now, walk(now), SumForDate(after, inputs.today))
    else ""
  }

  /** What opening and a pending clear make of a well-formed file. */
  function Prepared(st: Store, version: nat, clear: bool): Store {
    var ready := if version < TARGET_SCHEMA_VERSION then Seeded(st) else st;
    if clear then Cleared(ready) else ready
  }

  // --- How a pass ends, whichever statements fail ------------------------------------------

  function OpenFailedText(): string { "Could not open the local cache." }

  function NoKeyText(): string { "No API key configured." }

  function SaveFailedText(): string { "Failed to save sales data." }

  predicate Explains(r: FetchResult, status: SyncStatus, message: string) {
    r.FetchFailed? && status == StatusFromKind(r.kind) && message == r.message
  }

  /**
   * The loop stopped with n dates completed: at the first date whose fetch fails, at
   * one that was fetched and could not be saved, or at the end.
   */
  predicate StopsAt(outcome: Outcome, todo: seq<string>, inputs: Inputs, n: nat, status: SyncStatus, message: string) {
    match outcome
    case Done => n == |todo| == FirstFailure(todo, inputs, 0)
    case FetchError =>
      n == FirstFailure(todo, inputs, 0) && n < |todo| && Explains(FetchOf(inputs, n, todo[n]), status, message)
    case SaveError =>
      n < FirstFailure(todo, inputs, 0) && status == DatabaseError && message == SaveFailedText()
    case _ => false
  }

  ghost predicate SameTables(a: Store, b: Store) {
    a.daily == b.daily && a.products == b.products
  }

  /** The tables are those of `base` with the first n dates of the list replaced. */
  ghost predicate Processed(base: Store, end: Store, inputs: Inputs, dates: seq<string>, n: nat) {
    var todo := TodoOf(base, dates);
    n <= |todo| && SameTables(end, AfterDates(base, P.IsInitial(base), todo, inputs, n))
  }

  lemma SameTablesStored(a: Store, b: Store, initial: bool, d: string, rows: seq<SalesRow>, now: string)
    requires SameTables(a, b)
    ensures SameTables(AfterDate(a, initial, d, rows, now), AfterDate(b, initial, d, rows, now))
  {}

  lemma {:induction false} SameTablesDates(a: Store, b: Store, initial: bool, todo: seq<string>, inputs: Inputs, k: nat)
    requires k <= |todo| && SameTables(a, b)
    ensures SameTables(AfterDates(a, initial, todo, inputs, k), AfterDates(b, initial, todo, inputs, k))
  {
    hide SameTables, AfterDate, RowsAt;
    if k > 0 {
      SameTablesDates(a, b, initial, todo, inputs, k - 1);
      SameTablesStored(AfterDates(a, initial, todo, inputs, k - 1), AfterDates(b, initial, todo, inputs, k - 1),
                       initial, todo[k - 1], RowsAt(inputs, k - 1, todo[k - 1]), inputs.now);
    }
  }

  lemma RowsAtKeyed(inputs: Inputs, k: nat, d: string)
    ensures DistinctApps(RowsAt(inputs, k, d))
  {
    match FetchOf(inputs, k, d)
    case Fetched(records) => AggregatedIsKeyed(records);
    case FetchFailed(_, _) =>
  }

  lemma StoredKeepsTables(st: Store, initial: bool, d: string, rows: seq<SalesRow>, now: string)
    requires ValidStore(st) && DistinctApps(rows)
    ensures ValidStore(AfterDate(st, initial, d, rows, now))
    ensures forall a | HasProduct(st.products, a) :: HasProduct(AfterDate(st, initial, d, rows, now).products, a)
  {
    ReplacedIsValid(st, d, rows, now);
    UpsertAllKeys(st.products, rows, now);
  }

  lemma {:induction false} RunKeepsTables(st: Store, initial: bool, todo: seq<string>, inputs: Inputs, k: nat)
    requires k <= |todo| && ValidStore(st)
    ensures ValidStore(AfterDates(st, initial, todo, inputs, k))
    ensures forall a | HasProduct(st.products, a) ::
        HasProduct(AfterDates(st, initial, todo, inputs, k).products, a)
  {
    hide AfterDate, RowsAt, ValidStore, HasProduct, DistinctApps;
    if k > 0 {
      var d := todo[k - 1];
      RunKeepsTables(st, initial, todo, inputs, k - 1);
      RowsAtKeyed(inputs, k - 1, d);
      StoredKeepsTables(AfterDates(st, initial, todo, inputs, k - 1), initial, d,
                        RowsAt(inputs, k - 1, d), inputs.now);
    }
  }

  /** The loop has completed k dates: tables, mark and cursor are where they belong. */
  ghost predicate InLoop(st: Store, now: Store, initial: bool, todo: seq<string>, inputs: Inputs, k: nat) {
    && k <= |todo| && SameTables(now, AfterDates(st, initial, todo, inputs, k)) && now.mark == st.mark
    && (now.cursor == st.cursor || (initial && now.cursor in todo[..k]))
  }

  lemma InLoopStep(st: Store, now: Store, next: Store, initial: bool, todo: seq<string>, inputs: Inputs, k: nat)
    requires k < |todo| && InLoop(st, now, initial, todo, inputs, k)
    requires SameTables(next, AfterDate(now, initial, todo[k], RowsAt(inputs, k, todo[k]), inputs.now))
    requires next.mark == now.mark && (next.cursor == now.cursor || (initial && next.cursor == todo[k]))
    ensures InLoop(st, next, initial, todo, inputs, k + 1)
  {
    hide AfterDate, RowsAt;
    assert todo[..k + 1] == todo[..k] + [todo[k]];
    SameTablesStored(now, AfterDates(st, initial, todo, inputs, k), initial, todo[k],
                     RowsAt(inputs, k, todo[k]), inputs.now);
  }

  // Where the first failure lies, seen from date k, all dates before it having been fetched.
  lemma FailureFrom(todo: seq<string>, inputs: Inputs, k: nat)
    requires k <= |todo| && FirstFailure(todo, inputs, 0) == FirstFailure(todo, inputs, k)
    ensures k < |todo| && FetchOf(inputs, k, todo[k]).Fetched? ==>
              FirstFailure(todo, inputs, 0) == FirstFailure(todo, inputs, k + 1)
    ensures k == |todo| || FetchOf(inputs, k, todo[k]).FetchFailed? ==> FirstFailure(todo, inputs, 0) == k
  {
    hide FetchOf;
  }

  lemma LoopStops(outcome: Outcome, st: Store, initial: bool, todo: seq<string>, inputs: Inputs, k: nat,
                  status: SyncStatus, message: string)
    requires k < |todo| && FirstFailure(todo, inputs, 0) == FirstFailure(todo, inputs, k)
    requires outcome == FetchError || outcome == SaveError
    requires outcome == FetchError <==> FetchOf(inputs, k, todo[k]).FetchFailed?
    requires outcome == FetchError ==> Explains(FetchOf(inputs, k, todo[k]), status, message)
    requires outcome == SaveError ==> status == DatabaseError && message == SaveFailedText()
    ensures StopsAt(outcome, todo, inputs, k, status, message)
    ensures outcome == FetchError ==>
              && DatesOutcome(todo, inputs) == FetchError
              && DatesStore(st, initial, todo, inputs) ==
                 AfterDates(st, initial, todo, inputs, k).(error := ErrorOf(FetchOf(inputs, k, todo[k])))
  {
    hide FetchOf, AfterDates, FirstFailure, Explains, SaveFailedText;
    FailureFrom(todo, inputs, k);
  }

  lemma LoopEnds(st: Store, initial: bool, todo: seq<string>, inputs: Inputs, status: SyncStatus, message: string)
    requires FirstFailure(todo, inputs, 0) == FirstFailure(todo, inputs, |todo|)
    ensures StopsAt(Done, todo, inputs, |todo|, status, message)
    ensures DatesOutcome(todo, inputs) == Done
    ensures DatesStore(st, initial, todo, inputs) == AfterDates(st, initial, todo, inputs, |todo|)
  {
    hide FetchOf, AfterDates, FirstFailure;
    FailureFrom(todo, inputs, |todo|);
  }

  lemma LoopStarts(st: Store, initial: bool, todo: seq<string>, inputs: Inputs)
    ensures InLoop(st, st, initial, todo, inputs, 0)
  {}

  lemma InLoopStays(st: Store, now: Store, next: Store, initial: bool, todo: seq<string>, inputs: Inputs, k: nat)
    requires InLoop(st, now, initial, todo, inputs, k) && next == now.(error := next.error)
    ensures InLoop(st, next, initial, todo, inputs, k)
  {
    hide AfterDates;
  }

  /** The mark stays, or a pass that went through its list has installed the new one. */
  ghost predicate MarkKept(outcome: Outcome, base: Store, end: Store, mark: string) {
    end.mark == base.mark || ((outcome == Done || outcome == NothingChanged) && mark != "" && end.mark == mark)
  }

  /** The cursor stays, or a backfill has moved it to a date it completed, or ended and nulled it. */
  ghost predicate CursorKept(outcome: Outcome, base: Store, end: Store, todo: seq<string>, n: nat)
    requires n <= |todo|
  {
    end.cursor == base.cursor
    || (P.IsInitial(base) && (end.cursor in todo[..n] || (outcome == Done && end.cursor == "")))
  }

  /** What a pass leaves of the store it began with, after completing n dates. */
  ghost predicate Leaves(outcome: Outcome, base: Store, end: Store, inputs: Inputs, n: nat) {
    match outcome
    case NoDatabase => end == base
    case NoKey => end == base
    case ListError => end == base.(error := end.error)
    case _ =>
      var reply := inputs.list(GetMark(base));
      && reply.GotList? && Processed(base, end, inputs, reply.dates, n)
      && MarkKept(outcome, base, end, reply.mark)
      && CursorKept(outcome, base, end, TodoOf(base, reply.dates), n)
  }

  /** What the user is shown: status, message, and how many dates of how many. */
  ghost predicate Reports(outcome: Outcome, base: Store, inputs: Inputs, status: SyncStatus, message: string,
                          total: nat, completed: nat) {
    var reply := inputs.list(GetMark(base));
    match outcome
    case NoDatabase => status == DatabaseError && message == OpenFailedText()
    case NoKey => !inputs.hasKey && status == MissingApiKey && message == NoKeyText()
    case ListError =>
      inputs.hasKey && reply.ListFailed? && status == StatusFromKind(reply.kind) && message == reply.message
    case NothingChanged =>
      && inputs.hasKey && reply.GotList? && reply.dates == []
      && status == SyncStatus.Idle && message == "" && total == completed == 0
    case _ =>
      && inputs.hasKey && reply.GotList? && reply.dates != [] && total == |TodoOf(base, reply.dates)|
      && StopsAt(outcome, TodoOf(base, reply.dates), inputs, completed, status, message)
      && (outcome == Done ==> status == SyncStatus.Idle && message == "")
  }

  // --- Which store a pass begins with --------------------------------------------------------

  ghost predicate Opens(isOpen: bool, version: nat, faults: nat -> bool, tick: nat) {
    isOpen || D.AllSucceed(faults, tick, StatementsToOpen(version))
  }

  /** A pending clear is carried out just when its four statements, next after opening, succeed. */
  ghost predicate Clears(isOpen: bool, version: nat, faults: nat -> bool, tick: nat) {
    D.AllSucceed(faults, if isOpen then tick else tick + StatementsToOpen(version), D.CLEAR_STATEMENTS)
  }

  /** The store after opening and, if one is pending and succeeds, the clear. */
  ghost function BaseOf(st: Store, version: nat, isOpen: bool, clear: bool, faults: nat -> bool, tick: nat): Store {
    Prepared(st, version, clear && Clears(isOpen, version, faults, tick))
  }

  // --- Parts of a pass put together -----------------------------------------------------------

  /** Before it ended the pass had gone through its whole list, taken at `listed`, be it empty. */
  ghost predicate RanThrough(tr: Trace, listed: Server) {
    && tr.Valid() && |tr.acts| > 0
    && var s := tr.states[|tr.acts| - 1];
       (s.phase.Marked? || s.phase.Finished?) && s.phase.run.listed == listed
       && s.server == tr.Last().server && s.store == tr.Last().store && s.exposed == tr.Last().exposed
  }

  lemma EndedWell(tr: Trace, ended: Trace, listed: Server)
    requires tr.Valid() && ended.Valid() && Extends(tr, ended) && ended.Last() == tr.Last().(phase := P.Idle)
    requires |ended.acts| == |tr.acts| + 1 && ended.states[|tr.acts|] == tr.Last()
    requires (tr.Last().phase.Marked? || tr.Last().phase.Finished?) && tr.Last().phase.run.listed == listed
    ensures RanThrough(ended, listed)
  {}

  lemma ReplacedKeepsProgress(st: Store, d: string, rows: seq<SalesRow>, now: string)
    ensures Replaced(st, d, rows, now).mark == st.mark && Replaced(st, d, rows, now).cursor == st.cursor
  {}

  /** The message of a pass: none for a backfill or without the preference, else what rose. */
  ghost predicate Announced(text: string, before: Store, after: Store, inputs: Inputs) {
    if inputs.notify && before.mark != "0" && before.mark != "" then N.Tells(text, before.daily, after, inputs.today)
    else text == ""
  }

  lemma NewUnitsAreAnnounced(base: Store, end: Store, inputs: Inputs, dates: seq<string>, n: nat,
                             walk: N.Snapshot -> seq<int>)
    requires ValidStore(base) && Processed(base, end, inputs, dates, n)
    requires forall m :: N.Walks(walk(m), m)
    ensures Announced(NewUnits(base, end, inputs, walk), base, end, inputs)
  {
    hide AfterDates, TodoOf, N.Tells, N.Walks, N.Message, QueryLifetime, N.SnapshotOf;
    RunKeepsTables(base, P.IsInitial(base), TodoOf(base, dates), inputs, n);
    N.MessageTells(base, end, walk(N.SnapshotOf(QueryLifetime(end))), inputs.today);
  }

  /**
   * What a pass in which no statement fails leaves in the state columns: the time of an
   * answered check; after the whole list the new mark, if there is one, no error, and,
   * if there were dates, the time of the success and no cursor of a backfill; the
   * reason of a failed request; else what was there.
   */
  lemma ColumnsAfterRun(st: Store, inputs: Inputs)
    ensures var end, outcome, reply := AfterRun(st, inputs), OutcomeOf(st, inputs), inputs.list(GetMark(st));
            && (outcome == NoKey ==> end == st)
            && (outcome == ListError ==> end == st.(error := reply.message))
            && (outcome == NothingChanged ==>
                  end == st.(checked := inputs.now, error := "",
                             mark := if reply.mark != "" then reply.mark else st.mark))
            && (outcome == FetchError ==> end.checked == inputs.now && end.synced == st.synced && end.mark == st.mark)
            && (outcome == Done ==>
                  && end.checked == end.synced == inputs.now && end.error == ""
                  && end.mark == (if reply.mark != "" then reply.mark else st.mark)
                  && end.cursor == (if st.mark == "0" || st.mark == "" then "" else st.cursor))
  {
    hide FetchOf, FirstFailure, Sort, P.ToProcess;
    if inputs.hasKey && inputs.list(GetMark(st)).GotList? {
      var dates := inputs.list(GetMark(st)).dates;
      var todo, initial := TodoOf(st, dates), P.IsInitial(st);
      ColumnsAfterDates(st.(checked := inputs.now), initial, todo, inputs, FirstFailure(todo, inputs, 0));
    }
  }

  lemma {:induction false} ColumnsAfterDates(st: Store, initial: bool, todo: seq<string>, inputs: Inputs, k: nat)
    requires k <= |todo|
    ensures var end := AfterDates(st, initial, todo, inputs, k);
            && end == st.(daily := end.daily, products := end.products, cursor := end.cursor)
            && (!initial ==> end.cursor == st.cursor)
  {
    hide RowsAt, UpsertAll, Without;
    if k > 0 {
      ColumnsAfterDates(st, initial, todo, inputs, k - 1);
    }
  }

  /** Which dates a pass goes through: the reported ones but, in a backfill with a cursor, those up to it. */
  lemma DatesOfAPass(st: Store, dates: seq<string>, d: string)
    ensures d in TodoOf(st, dates) <==>
            d in dates && !((st.mark == "0" || st.mark == "") && st.cursor != "" && LexLe(d, st.cursor))
  {
    hide Sort, LexLe;
    SortAscending(dates);
    P.ToProcessMembers(Sort(dates), P.IsInitial(st), st.cursor);
  }

  // An answered list, followed: what the parts of the pass add up to.
  lemma ListFollowed(outcome: Outcome, base: Store, end: Store, inputs: Inputs, reply: ListResult,
                     status: SyncStatus, message: string, total: nat, n: nat)
    requires outcome == Done || outcome == FetchError || outcome == SaveError
    requires inputs.hasKey && reply == inputs.list(GetMark(base)) && reply.GotList? && reply.dates != []
    requires Processed(base, end, inputs, reply.dates, n) && total == |TodoOf(base, reply.dates)|
    requires MarkKept(outcome, base, end, reply.mark)
    requires CursorKept(outcome, base, end, TodoOf(base, reply.dates), n)
    requires StopsAt(outcome, TodoOf(base, reply.dates), inputs, n, status, message)
    requires outcome == Done ==> status == SyncStatus.Idle && message == ""
    ensures Leaves(outcome, base, end, inputs, n)
    ensures Reports(outcome, base, inputs, status, message, total, n)
  {
    hide Processed, StopsAt, TodoOf;
  }

  // A pass that does not get to a list.
  lemma EndedEarly(outcome: Outcome, base: Store, end: Store, inputs: Inputs,
                   status: SyncStatus, message: string, total: nat, n: nat)
    requires outcome == NoDatabase ==> end == base && status == DatabaseError && message == OpenFailedText()
    requires outcome == NoKey ==> end == base && !inputs.hasKey && status == MissingApiKey && message == NoKeyText()
    requires outcome == ListError ==>
               var reply := inputs.list(GetMark(base));
               && end == base.(error := end.error) && inputs.hasKey && reply.ListFailed?
               && status == StatusFromKind(reply.kind) && message == reply.message
    ensures outcome in {NoDatabase, NoKey, ListError} ==>
              Leaves(outcome, base, end, inputs, n) && Reports(outcome, base, inputs, status, message, total, n)
  {
    hide OpenFailedText, NoKeyText;
  }

  lemma NothingFollowed(base: Store, end: Store, inputs: Inputs, reply: ListResult)
    requires inputs.hasKey && reply == inputs.list(GetMark(base)) && reply.GotList? && reply.dates == []
    requires end == base.(mark := end.mark, checked := end.checked, error := end.error)
    requires end.mark == base.mark || (reply.mark != "" && end.mark == reply.mark)
    ensures Leaves(NothingChanged, base, end, inputs, 0)
    ensures Reports(NothingChanged, base, inputs, SyncStatus.Idle, "", 0, 0)
  {}

  // The time of the last check decides nothing.
  lemma CheckedIsNotRead(a: Store, b: Store, dates: seq<string>)
    requires b == a.(checked := b.checked)
    ensures TodoOf(b, dates) == TodoOf(a, dates) && P.IsInitial(b) == P.IsInitial(a)
  {}

  lemma CheckedIsNotShown(a: Store, b: Store, after: Store, inputs: Inputs, walk: N.Snapshot -> seq<int>)
    requires b == a.(checked := b.checked)
    ensures NewUnits(b, after, inputs, walk) == NewUnits(a, after, inputs, walk)
    ensures ValidStore(b) == ValidStore(a)
    ensures forall text :: Announced(text, b, after, inputs) == Announced(text, a, after, inputs)
  {}

  lemma CheckedIsNotProcessed(outcome: Outcome, a: Store, b: Store, end: Store, inputs: Inputs,
                              dates: seq<string>, mark: string, n: nat)
    requires b == a.(checked := b.checked) && Processed(b, end, inputs, dates, n)
    requires MarkKept(outcome, b, end, mark) && CursorKept(outcome, b, end, TodoOf(b, dates), n)
    ensures Processed(a, end, inputs, dates, n)
    ensures MarkKept(outcome, a, end, mark) && CursorKept(outcome, a, end, TodoOf(a, dates), n)
  {
    hide AfterDates, TodoOf;
    CheckedIsNotRead(a, b, dates);
    SameTablesDates(a, b, P.IsInitial(a), TodoOf(a, dates), inputs, n);
  }

  lemma NothingToDo(st: Store)
    ensures TodoOf(st, []) == []
  {}

  class SalesSyncService {
    var status: SyncStatus
    var message: string
    var totalDates: nat
    var completedDates: nat
    var notification: string
    var clearRequested: bool

    method SetStatus(status: SyncStatus, message: string)
      modifies this`status, this`message
      ensures this.status == status && this.message == message
    {
      this.status, this.message := status, message;
    }

    /** One date of the loop: fetch all pages, aggregate, replace, checkpoint. */
    method ProcessDate(db: D.Database, inputs: Inputs, k: nat, date: string, initial: bool,
                       ghost run: P.Run, ghost after: Server, ghost tr0: Trace)
        returns (outcome: Outcome, ghost tr: Trace)
      requires db.Valid() && db.isOpen && db.version >= TARGET_SCHEMA_VERSION && tr0.Valid()
      requires k < |run.todo| && run.todo[k] == date && run.initial == initial
      requires tr0.Last().phase == P.Listed(run, k) && tr0.Last().store == db.disk
      requires var result := FetchOf(inputs, k, date);
               result.Fetched? ==> FetchedBetween(tr0.Last().server, after, date, result.records)
      modifies this`status, this`message
      modifies db`tick, db`work, db`disk, db`commits, db`inTransaction
      ensures db.Valid() && db.tick >= old(db.tick)
      ensures tr.Valid() && Reaches(old(db.commits), tr0, db.commits, tr)
      ensures tr.Last().store == db.disk
      ensures outcome == Done || outcome == FetchError || outcome == SaveError
      ensures outcome == Done ==> tr.Last().phase == P.Listed(run, k + 1) && tr.Last().server == after
      ensures outcome == FetchError <==> FetchOf(inputs, k, date).FetchFailed?
      ensures outcome == FetchError ==> Explains(FetchOf(inputs, k, date), status, message)
      ensures outcome == SaveError ==> status == DatabaseError && message == SaveFailedText()
      ensures outcome != Done ==> db.disk == old(db.disk).(error := db.disk.error)
      ensures outcome == Done ==>
                SameTables(db.disk, AfterDate(old(db.disk), initial, date, RowsAt(inputs, k, date), inputs.now))
      ensures outcome == Done ==> SumForDate(db.disk, date) == NetOfCounted(FetchOf(inputs, k, date).records)
      ensures db.disk.mark == old(db.disk.mark)
      ensures db.disk.cursor == old(db.disk.cursor) || (initial && outcome == Done && db.disk.cursor == date)
      ensures db.NoFaultSince(old(db.tick)) ==>
                && outcome != SaveError
                && db.disk == if outcome == FetchError then old(db.disk).(error := ErrorOf(FetchOf(inputs, k, date)))
                              else AfterDate(old(db.disk), initial, date, RowsAt(inputs, k, date), inputs.now)
    {
      hide P.Steps, P.Enabled, P.Next, PagesFrom, Aggregated, Replaced, FetchedBetween;
      hide Reaches, Extends, Wrote, Trace.Valid, SaveFailedText;
      hide Replaces, NetOfCounted, DateRows;
      ghost var c0 := db.commits;
      StandStill(c0, tr0);
      var result, _ := GetAllDetailedSalesForDate(inputs.serve(k, date));
      if result.FetchFailed? {
        SetStatus(StatusFromKind(result.kind), result.message);
        var noted := db.SetLastError(result.message);
        tr := Noted(tr0, db.disk);
        ThenWrote(c0, tr0, c0, tr0, db.commits, noted, db.version, tr);
        return FetchError, tr;
      }
      var rows := AggregateDate(result.records);
      AggregatedIsKeyed(result.records);
      ReplacedKeepsProgress(db.disk, date, rows, inputs.now);
      var stored := db.ReplaceDate(date, rows, inputs.now);
      if !stored {
        SetStatus(DatabaseError, SaveFailedText());
        var noted := db.SetLastError("database write failed");
        tr := Noted(tr0, db.disk);
        ThenWrote(c0, tr0, c0, tr0, db.commits, noted, db.version, tr);
        return SaveError, tr;
      }
      DateShowsNet(old(db.disk), db.disk, date, result.records, inputs.now);
      ghost var c1 := db.commits;
      ghost var tr1 := ReplaceSteps(tr0, run, k, after, result.records, inputs.now);
      ThenWrote(c0, tr0, c0, tr0, c1, true, db.version, tr1);
      var checkpointed := true;
      if initial {
        checkpointed := db.SetBackfillCursor(date);
      }
      tr := CheckpointStep(tr1, run, k, checkpointed);
      ThenWrote(c0, tr0, c1, tr1, db.commits, initial && checkpointed, db.version, tr);
      outcome := Done;
    }

    /** The loop over the dates. */
    method ProcessDates(db: D.Database, inputs: Inputs, todo: seq<string>, initial: bool,
                        ghost run: P.Run, ghost view: View, ghost tr0: Trace)
        returns (outcome: Outcome, ghost tr: Trace)
      requires db.Valid() && db.isOpen && db.version >= TARGET_SCHEMA_VERSION && tr0.Valid()
      requires tr0.Last().phase == P.Listed(run, 0) && tr0.Last().store == db.disk
      requires tr0.Last().server == view.atList
      requires run.todo == todo && run.initial == initial && completedDates == 0
      requires SoundWorld(inputs, view, view.atList)
      modifies this`status, this`message, this`completedDates
      modifies db`tick, db`work, db`disk, db`commits, db`inTransaction
      ensures db.Valid() && db.tick >= old(db.tick)
      ensures tr.Valid() && Reaches(old(db.commits), tr0, db.commits, tr)
      ensures tr.Last().store == db.disk
      ensures outcome == Done || outcome == FetchError || outcome == SaveError
      ensures outcome == Done ==> tr.Last().phase == P.Listed(run, |todo|)
      ensures StopsAt(outcome, todo, inputs, completedDates, status, message)
      ensures InLoop(old(db.disk), db.disk, initial, todo, inputs, completedDates)
      ensures db.NoFaultSince(old(db.tick)) ==>
                outcome == DatesOutcome(todo, inputs) && db.disk == DatesStore(old(db.disk), initial, todo, inputs)
    {
      hide P.Steps, P.Enabled, P.Next, PagesFrom, Aggregated, Replaced, FetchedBetween, Evolves, AfterDate;
      hide RowsAt, ErrorOf, SoundReply, FetchOf, Trace.Valid, SoundWorld, Reaches, Extends, Wrote;
      hide Explains, SaveFailedText;
      hide InLoop, SameTables, StopsAt, FirstFailure, DatesStore, DatesOutcome, SumForDate, NetOfCounted;
      tr := tr0;
      StandStill(db.commits, tr0);
      LoopStarts(db.disk, initial, todo, inputs);
      for k := 0 to |todo|
        invariant db.Valid() && db.tick >= old(db.tick)
        invariant tr.Valid() && Reaches(old(db.commits), tr0, db.commits, tr)
        invariant tr.Last().phase == P.Listed(run, k) && tr.Last().store == db.disk
        invariant tr.Last().server == BeforeFetch(view, k)
        invariant completedDates == k
        invariant InLoop(old(db.disk), db.disk, initial, todo, inputs, k)
        invariant FirstFailure(todo, inputs, 0) == FirstFailure(todo, inputs, k)
        invariant db.NoFaultSince(old(db.tick)) ==> db.disk == AfterDates(old(db.disk), initial, todo, inputs, k)
      {
        WorldAt(inputs, view, k, todo[k]);
        ghost var before, tr', st := db.commits, tr, db.disk;
        outcome, tr := ProcessDate(db, inputs, k, todo[k], initial, run, view.after(k), tr);
        ThenReached(old(db.commits), tr0, before, tr', db.commits, tr);
        if outcome != Done {
          InLoopStays(old(db.disk), st, db.disk, initial, todo, inputs, k);
          LoopStops(outcome, old(db.disk), initial, todo, inputs, k, status, message);
          return;
        }
        FailureFrom(todo, inputs, k);
        InLoopStep(old(db.disk), st, db.disk, initial, todo, inputs, k);
        completedDates := completedDates + 1;
      }
      LoopEnds(old(db.disk), initial, todo, inputs, status, message);
      outcome := Done;
    }

    /** Nothing is left to do: install the new mark, if there is one. */
    method WriteMark(db: D.Database, mark: string, ghost tr0: Trace) returns (ghost tr: Trace)
      requires db.Valid() && db.version >= TARGET_SCHEMA_VERSION && tr0.Valid() && tr0.Last().store == db.disk
      requires tr0.Last().phase.Listed? && tr0.Last().phase.next == |tr0.Last().phase.run.todo|
      requires tr0.Last().phase.run.newMark == mark
      modifies db`tick, db`work, db`disk, db`commits
      ensures db.Valid() && db.tick >= old(db.tick)
      ensures tr.Valid() && Reaches(old(db.commits), tr0, db.commits, tr)
      ensures tr.Last() == tr0.Last().(store := db.disk, phase := P.Marked(tr0.Last().phase.run))
      ensures db.disk == old(db.disk).(mark := db.disk.mark)
      ensures db.disk.mark == old(db.disk.mark) || (mark != "" && db.disk.mark == mark)
      ensures db.NoFaultSince(old(db.tick)) ==>
                db.disk.mark == if mark != "" then mark else old(db.disk.mark)
    {
      hide P.Steps, P.Enabled, P.Next, Reaches, Extends, Wrote, Trace.Valid;
      ghost var c0 := db.commits;
      StandStill(c0, tr0);
      var marked := true;
      if mark != "" {
        marked := db.SetChangedDatesHighwatermark(mark);
      }
      tr := MarkStep(tr0, marked);
      ThenWrote(c0, tr0, c0, tr0, db.commits, mark != "" && marked, db.version, tr);
    }

    /** Every date succeeded: advance the mark, then end the backfill. */
    method InstallMark(db: D.Database, mark: string, initial: bool, ghost run: P.Run, ghost tr0: Trace)
        returns (ghost tr: Trace)
      requires db.Valid() && db.version >= TARGET_SCHEMA_VERSION && tr0.Valid()
      requires tr0.Last().phase == P.Listed(run, |run.todo|) && tr0.Last().store == db.disk
      requires run.newMark == mark && run.initial == initial
      modifies db`tick, db`work, db`disk, db`commits
      ensures db.Valid() && db.tick >= old(db.tick)
      ensures tr.Valid() && Reaches(old(db.commits), tr0, db.commits, tr)
      ensures tr.Last().phase == P.Finished(run) && tr.Last().store == db.disk
      ensures tr.Last().server == tr0.Last().server
      ensures db.disk == old(db.disk).(mark := db.disk.mark, cursor := db.disk.cursor)
      ensures db.disk.mark == old(db.disk.mark) || (mark != "" && db.disk.mark == mark)
      ensures db.disk.cursor == old(db.disk.cursor) || (initial && db.disk.cursor == "")
      ensures db.NoFaultSince(old(db.tick)) ==>
                db.disk == old(db.disk).(mark := if mark != "" then mark else old(db.disk).mark,
                                         cursor := if initial then "" else old(db.disk).cursor)
    {
      hide P.Steps, P.Enabled, P.Next, Reaches, Extends, Wrote, Trace.Valid;
      ghost var c0 := db.commits;
      ghost var tr1 := WriteMark(db, mark, tr0);
      ghost var c1 := db.commits;
      var dropped := true;
      if initial {
        dropped := db.SetBackfillCursor("");
      }
      tr := DropStep(tr1, dropped);
      ThenWrote(c0, tr0, c1, tr1, db.commits, initial && dropped, db.version, tr);
    }

    /** The time of the success, and no error. */
    method NoteSuccess(db: D.Database, now: string, ghost tr0: Trace) returns (ghost tr: Trace)
      requires db.Valid() && db.version >= TARGET_SCHEMA_VERSION && tr0.Valid() && tr0.Last().store == db.disk
      modifies db`tick, db`work, db`disk, db`commits
      ensures db.Valid() && db.tick >= old(db.tick)
      ensures tr.Valid() && Reaches(old(db.commits), tr0, db.commits, tr)
      ensures tr.Last() == tr0.Last().(store := db.disk)
      ensures db.disk == old(db.disk).(synced := db.disk.synced, error := db.disk.error)
      ensures db.disk.synced == old(db.disk.synced) || db.disk.synced == now
      ensures db.disk.error == old(db.disk.error) || db.disk.error == ""
      ensures db.NoFaultSince(old(db.tick)) ==> db.disk == old(db.disk).(synced := now, error := "")
    {
      hide P.Steps, P.Enabled, P.Next, Reaches, Extends, Wrote, Trace.Valid;
      ghost var c0 := db.commits;
      StandStill(c0, tr0);
      var timed := db.SetLastSuccessfulSyncUtc(now);
      ghost var c1, tr1 := db.commits, Noted(tr0, db.disk);
      ThenWrote(c0, tr0, c0, tr0, c1, timed, db.version, tr1);
      var cleared := db.SetLastError("");
      tr := Noted(tr1, db.disk);
      ThenWrote(c0, tr0, c1, tr1, db.commits, cleared, db.version, tr);
    }

    method FinishRun(db: D.Database, inputs: Inputs, mark: string, initial: bool, ghost run: P.Run, ghost tr0: Trace)
        returns (ghost tr: Trace)
      requires db.Valid() && db.version >= TARGET_SCHEMA_VERSION && tr0.Valid()
      requires tr0.Last().phase == P.Listed(run, |run.todo|) && tr0.Last().store == db.disk
      requires run.newMark == mark && run.initial == initial
      modifies db`tick, db`work, db`disk, db`commits
      ensures db.Valid() && db.tick >= old(db.tick)
      ensures tr.Valid() && Reaches(old(db.commits), tr0, db.commits, tr)
      ensures tr.Last().phase == P.Finished(run) && tr.Last().store == db.disk
      ensures tr.Last().server == tr0.Last().server
      ensures db.disk == old(db.disk).(mark := db.disk.mark, cursor := db.disk.cursor,
                                       synced := db.disk.synced, error := db.disk.error)
      ensures db.disk.mark == old(db.disk.mark) || (mark != "" && db.disk.mark == mark)
      ensures db.disk.cursor == old(db.disk.cursor) || (initial && db.disk.cursor == "")
      ensures db.disk.synced == old(db.disk.synced) || db.disk.synced == inputs.now
      ensures db.disk.error == old(db.disk.error) || db.disk.error == ""
      ensures db.NoFaultSince(old(db.tick)) ==> db.disk == AfterTail(old(db.disk), initial, mark, inputs.now)
    {
      hide P.Steps, P.Enabled, P.Next, Reaches, Extends, Wrote, Trace.Valid;
      ghost var tr1 := InstallMark(db, mark, initial, run, tr0);
      ghost var c1 := db.commits;
      tr := NoteSuccess(db, inputs.now, tr1);
      ThenReached(old(db.commits), tr0, c1, tr1, db.commits, tr);
    }

    /** Opens the database if need be and carries out a pending clear request. */
    method Prepare(db: D.Database, ghost tr0: Trace) returns (ready: bool, ghost tr: Trace)
      requires db.Valid() && FileShape(db)
      requires tr0.Valid() && tr0.Last().phase == P.Idle && tr0.Last().store == db.disk
      modifies this`status, this`message, this`clearRequested
      modifies db`tick, db`work, db`disk, db`commits, db`inTransaction, db`version, db`isOpen
      ensures db.Valid() && FileShape(db) && db.tick >= old(db.tick) && ready == db.isOpen
      ensures tr.Valid() && Reaches(old(db.commits), tr0, db.commits, tr)
      ensures tr.Last().phase == P.Idle && tr.Last().store == db.disk
      ensures tr.Last().server == tr0.Last().server
      ensures clearRequested == (old(clearRequested) && !ready)
      ensures !ready ==> status == DatabaseError && message == OpenFailedText() && db.disk == old(db.disk)
      ensures ready <==> Opens(old(db.isOpen), old(db.version), db.faults, old(db.tick))
      ensures ready ==>
                db.disk == BaseOf(old(db.disk), old(db.version), old(db.isOpen), old(clearRequested),
                                  db.faults, old(db.tick))
      ensures ready && old(clearRequested) && old(db.disk.daily) != [] ==>
                (db.disk.daily == [] <==> Clears(old(db.isOpen), old(db.version), db.faults, old(db.tick)))
      ensures old(db.isOpen) && old(clearRequested) ==>
                db.commits == if Clears(true, old(db.version), db.faults, old(db.tick))
                              then old(db.commits) + [D.Committed(Cleared(old(db.disk)), db.version)]
                              else old(db.commits)
      ensures db.NoFaultSince(old(db.tick)) ==>
                ready && db.disk == Prepared(old(db.disk), old(db.version), old(clearRequested))
    {
      hide P.Steps, P.Enabled, P.Next, Reaches, Extends, Wrote, Trace.Valid;
      ghost var c0 := db.commits;
      StandStill(c0, tr0);
      tr := tr0;
      ready := db.isOpen;
      if !ready {
        ready := Open(db);
        if db.version != old(db.version) {
          UpgradedIsSeeded(old(db.disk), old(db.version), db.version);
          tr := UpgradeStep(tr);
        }
        ThenOpened(c0, db.commits, old(db.version), tr0, tr);
        if !ready {
          SetStatus(DatabaseError, OpenFailedText());
          return;
        }
      }
      if clearRequested {
        clearRequested := false;
        ghost var c1, tr1 := db.commits, tr;
        var cleared := db.ClearAllSales();
        if cleared {
          tr := ClearStep(tr);
        }
        ThenWrote(c0, tr0, c1, tr1, db.commits, cleared, db.version, tr);
      }
    }

    /** From a non-empty list to the end of the pass. */
    method ProcessList(db: D.Database, inputs: Inputs, reply: ListResult, walk: N.Snapshot -> seq<int>,
                       ghost view: View, ghost tr0: Trace)
        returns (outcome: Outcome, ghost tr: Trace)
      requires db.Valid() && db.isOpen && db.version >= TARGET_SCHEMA_VERSION && reply.GotList? && tr0.Valid()
      requires SoundWorld(inputs, view, view.atList)
      requires tr0.Last().phase.Listed? && tr0.Last().phase.next == 0
      requires var run := tr0.Last().phase.run;
               && run.initial == P.IsInitial(db.disk) && run.newMark == reply.mark
               && run.todo == TodoOf(db.disk, reply.dates)
      requires tr0.Last().store == db.disk && tr0.Last().server == view.atList
      requires forall m :: N.Walks(walk(m), m)
      modifies this`status, this`message, this`totalDates, this`completedDates, this`notification
      modifies db`tick, db`work, db`disk, db`commits, db`inTransaction
      ensures db.Valid() && db.tick >= old(db.tick)
      ensures tr.Valid() && Reaches(old(db.commits), tr0, db.commits, tr)
      ensures tr.Last().store == db.disk
      ensures outcome == Done || outcome == FetchError || outcome == SaveError
      ensures outcome == Done ==> tr.Last().phase == P.Finished(tr0.Last().phase.run)
      ensures totalDates == |TodoOf(old(db.disk), reply.dates)|
      ensures StopsAt(outcome, TodoOf(old(db.disk), reply.dates), inputs, completedDates, status, message)
      ensures Processed(old(db.disk), db.disk, inputs, reply.dates, completedDates)
      ensures CursorKept(outcome, old(db.disk), db.disk, TodoOf(old(db.disk), reply.dates), completedDates)
      ensures MarkKept(outcome, old(db.disk), db.disk, reply.mark)
      ensures outcome != Done ==> notification == old(notification)
      ensures outcome == Done ==>
                && status == SyncStatus.Idle && message == ""
                && notification == NewUnits(old(db.disk), db.disk, inputs, walk)
                && (ValidStore(old(db.disk)) ==> Announced(notification, old(db.disk), db.disk, inputs))
      ensures db.NoFaultSince(old(db.tick)) ==>
                var initial, todo := P.IsInitial(old(db.disk)), TodoOf(old(db.disk), reply.dates);
                && outcome == DatesOutcome(todo, inputs)
                && db.disk == var stored := DatesStore(old(db.disk), initial, todo, inputs);
                              if outcome == Done then AfterTail(stored, initial, reply.mark, inputs.now) else stored
    {
      hide P.Steps, P.Enabled, P.Next, PagesFrom, Evolves, SoundWorld, AfterDate, AfterTail;
      hide DatesStore, DatesOutcome, TodoOf, QueryLifetime, N.Message, N.Walks, Trace.Valid, Reaches, Extends, Wrote;
      hide AfterDates, Explains, FetchOf, SaveFailedText, Announced, ValidStore, SumForDate, N.SnapshotOf;
      ghost var run := tr0.Last().phase.run;
      var initial := GetMark(db.disk) == "0";
      var todo := TodoOf(db.disk, reply.dates);
      totalDates, completedDates := |todo|, 0;
      var before := map[];
      if inputs.notify && !initial {
        before := N.LifetimeSnapshot(db.disk);
      }
      outcome, tr := ProcessDates(db, inputs, todo, initial, run, view, tr0);
      if outcome != Done {
        return;
      }
      ghost var before', tr' := db.commits, tr;
      tr := FinishRun(db, inputs, reply.mark, initial, run, tr);
      ThenReached(old(db.commits), tr0, before', tr', db.commits, tr);
      var text := "";
      if inputs.notify && !initial {
        var after := N.LifetimeSnapshot(db.disk);
        text := N.BuildNotification(before, after, walk(after), SumForDate(db.disk, inputs.today));
      }
      status, message, notification := SyncStatus.Idle, "", text;
      if ValidStore(old(db.disk)) {
        NewUnitsAreAnnounced(old(db.disk), db.disk, inputs, reply.dates, completedDates, walk);
      }
    }

    /** No changes: advance the mark all the same. */
    method RecordNoChange(db: D.Database, mark: string, ghost tr0: Trace) returns (ghost tr: Trace)
      requires db.Valid() && db.version >= TARGET_SCHEMA_VERSION && tr0.Valid() && tr0.Last().store == db.disk
      requires tr0.Last().phase.Listed? && tr0.Last().phase.run.todo == [] && tr0.Last().phase.next == 0
      requires tr0.Last().phase.run.newMark == mark
      modifies this`status, this`message, this`totalDates, this`completedDates
      modifies db`tick, db`work, db`disk, db`commits
      ensures db.Valid() && db.tick >= old(db.tick)
      ensures tr.Valid() && Reaches(old(db.commits), tr0, db.commits, tr)
      ensures tr.Last().phase == P.Idle && tr.Last().store == db.disk
      ensures status == SyncStatus.Idle && message == "" && totalDates == completedDates == 0
      ensures db.disk == old(db.disk).(mark := db.disk.mark, error := db.disk.error)
      ensures db.disk.mark == old(db.disk.mark) || (mark != "" && db.disk.mark == mark)
      ensures RanThrough(tr, tr0.Last().phase.run.listed) && tr.Last().server == tr0.Last().server
      ensures db.NoFaultSince(old(db.tick)) ==>
                db.disk == old(db.disk).(mark := if mark != "" then mark else old(db.disk).mark, error := "")
    {
      hide RanThrough, Writes, Evolves;
      hide P.Steps, P.Enabled, P.Next, Reaches, Extends, Wrote, Trace.Valid;
      ghost var c0 := db.commits;
      ghost var tr1 := WriteMark(db, mark, tr0);
      ghost var c1 := db.commits;
      var cleared := db.SetLastError("");
      ghost var tr2 := Noted(tr1, db.disk);
      ThenWrote(c0, tr0, c1, tr1, db.commits, cleared, db.version, tr2);
      tr := Ended(tr2);
      EndedWell(tr2, tr, tr0.Last().phase.run.listed);
      ThenMoved(c0, tr0, db.commits, tr2, tr);
      status, message, totalDates, completedDates := SyncStatus.Idle, "", 0, 0;
    }

    /** The list has been answered: note the time of the check. */
    method NoteCheck(db: D.Database, dates: seq<string>, mark: string, now: string, ghost tr0: Trace)
        returns (ghost tr: Trace)
      requires db.Valid() && db.version >= TARGET_SCHEMA_VERSION && tr0.Valid()
      requires tr0.Last().phase == P.Idle && tr0.Last().store == db.disk
      requires SoundReply(tr0.Last().server, GetMark(db.disk), dates, mark)
      modifies db`tick, db`work, db`disk, db`commits
      ensures db.Valid() && db.tick >= old(db.tick)
      ensures tr.Valid() && Reaches(old(db.commits), tr0, db.commits, tr)
      ensures tr.Last().server == tr0.Last().server && tr.Last().store == db.disk
      ensures var st := old(db.disk);
              tr.Last().phase == P.Listed(
                P.Run(P.IsInitial(st), TodoOf(st, dates), mark, tr0.Last().server, st), 0)
      ensures db.disk == old(db.disk).(checked := db.disk.checked)
      ensures db.NoFaultSince(old(db.tick)) ==> db.disk.checked == now
    {
      hide P.Steps, P.Enabled, P.Next, SoundReply, TodoOf, P.IsInitial;
      hide Reaches, Extends, Wrote, Trace.Valid;
      ghost var c0 := db.commits;
      StandStill(c0, tr0);
      ghost var tr1 := TakeList(tr0, dates, mark);
      var checked := db.SetLastSuccessfulCheckUtc(now);
      tr := Noted(tr1, db.disk);
      ThenMoved(c0, tr0, c0, tr0, tr1);
      ThenWrote(c0, tr0, c0, tr1, db.commits, checked, db.version, tr);
    }

    /** An answered list: nothing changed, or dates to go through. */
    method FollowList(db: D.Database, inputs: Inputs, reply: ListResult, walk: N.Snapshot -> seq<int>,
                      ghost view: View, ghost tr0: Trace)
        returns (outcome: Outcome, ghost tr: Trace)
      requires db.Valid() && db.isOpen && db.version >= TARGET_SCHEMA_VERSION && reply.GotList? && tr0.Valid()
      requires tr0.Last().phase == P.Idle && tr0.Last().store == db.disk && tr0.Last().server == view.atList
      requires inputs.hasKey && reply == inputs.list(GetMark(db.disk))
      requires SoundReply(view.atList, GetMark(db.disk), reply.dates, reply.mark)
      requires SoundWorld(inputs, view, view.atList)
      requires forall m :: N.Walks(walk(m), m)
      modifies this`status, this`message, this`totalDates, this`completedDates, this`notification
      modifies db`tick, db`work, db`disk, db`commits, db`inTransaction
      ensures db.Valid() && db.tick >= old(db.tick)
      ensures tr.Valid() && Reaches(old(db.commits), tr0, db.commits, tr)
      ensures tr.Last().phase == P.Idle && tr.Last().store == db.disk
      ensures Leaves(outcome, old(db.disk), db.disk, inputs, completedDates)
      ensures Reports(outcome, old(db.disk), inputs, status, message, totalDates, completedDates)
      ensures outcome == Done ==> notification == NewUnits(old(db.disk), db.disk, inputs, walk)
      ensures outcome == Done && ValidStore(old(db.disk)) ==> Announced(notification, old(db.disk), db.disk, inputs)
      ensures outcome != Done ==> notification == old(notification)
      ensures outcome == Done || outcome == NothingChanged ==> RanThrough(tr, view.atList)
      ensures outcome == NothingChanged <==> reply.dates == []
      ensures outcome != NoDatabase && outcome != NoKey && outcome != ListError
      ensures db.NoFaultSince(old(db.tick)) ==>
                && db.disk == AfterList(old(db.disk), reply.dates, reply.mark, inputs)
                && (reply.dates != [] ==> outcome == DatesOutcome(TodoOf(old(db.disk), reply.dates), inputs))
    {
      hide P.Steps, P.Enabled, P.Next, SoundWorld, SoundReply, Evolves, AfterDate, AfterTail;
      hide DatesStore, DatesOutcome, NewUnits, TodoOf, QueryLifetime, P.IsInitial;
      hide Reaches, Extends, Wrote, Trace.Valid, StopsAt, Processed, Leaves, Reports, RanThrough;
      hide MarkKept, CursorKept, SameTables, Writes, N.Walks, AfterDates, Announced, ValidStore;
      ghost var base := db.disk;
      ghost var c0 := db.commits;
      ghost var tr2 := NoteCheck(db, reply.dates, reply.mark, inputs.now, tr0);
      ghost var c2, noted := db.commits, db.disk;
      if reply.dates == [] {
        NothingToDo(base);
        tr := RecordNoChange(db, reply.mark, tr2);
        NothingFollowed(base, db.disk, inputs, reply);
        ThenReached(c0, tr0, c2, tr2, db.commits, tr);
        outcome := NothingChanged;
        return;
      }
      CheckedIsNotRead(base, db.disk, reply.dates);
      ghost var tr3;
      outcome, tr3 := ProcessList(db, inputs, reply, walk, view, tr2);
      tr := Ended(tr3);
      if outcome == Done {
        EndedWell(tr3, tr, view.atList);
      }
      ThenReached(c0, tr0, c2, tr2, db.commits, tr3);
      ThenMoved(c0, tr0, db.commits, tr3, tr);
      CheckedIsNotProcessed(outcome, base, noted, db.disk, inputs, reply.dates, reply.mark, completedDates);
      ListFollowed(outcome, base, db.disk, inputs, reply, status, message, totalDates, completedDates);
      CheckedIsNotShown(base, noted, db.disk, inputs, walk);
    }

    /** With the database open and a key at hand: ask what changed, and follow the answer. */
    method AskForChanges(db: D.Database, inputs: Inputs, walk: N.Snapshot -> seq<int>,
                         ghost view: View, ghost tr0: Trace)
        returns (outcome: Outcome, ghost tr: Trace)
      requires db.Valid() && db.isOpen && db.version >= TARGET_SCHEMA_VERSION && inputs.hasKey && tr0.Valid()
      requires tr0.Last().phase == P.Idle && tr0.Last().store == db.disk
      requires SoundWorld(inputs, view, tr0.Last().server)
      requires forall m :: N.Walks(walk(m), m)
      modifies this`status, this`message, this`totalDates, this`completedDates, this`notification
      modifies db`tick, db`work, db`disk, db`commits, db`inTransaction
      ensures db.Valid() && db.tick >= old(db.tick)
      ensures tr.Valid() && Reaches(old(db.commits), tr0, db.commits, tr)
      ensures tr.Last().phase == P.Idle && tr.Last().store == db.disk
      ensures outcome != NoDatabase && outcome != NoKey
      ensures Leaves(outcome, old(db.disk), db.disk, inputs, completedDates)
      ensures Reports(outcome, old(db.disk), inputs, status, message, totalDates, completedDates)
      ensures outcome == ListError ==> totalDates == old(totalDates) && completedDates == old(completedDates)
      ensures outcome == Done ==> notification == NewUnits(old(db.disk), db.disk, inputs, walk)
      ensures outcome == Done && ValidStore(old(db.disk)) ==> Announced(notification, old(db.disk), db.disk, inputs)
      ensures outcome != Done ==> notification == old(notification)
      ensures outcome == Done || outcome == NothingChanged ==> RanThrough(tr, view.atList)
      ensures db.NoFaultSince(old(db.tick)) ==>
                db.disk == AfterRun(old(db.disk), inputs) && outcome == OutcomeOf(old(db.disk), inputs)
    {
      hide P.Steps, P.Enabled, P.Next, SoundWorld, SoundReply, Evolves, AfterList, DatesOutcome, NewUnits;
      hide Reaches, Extends, Wrote, Trace.Valid, RanThrough, TodoOf, Leaves, Reports, Announced, ValidStore;
      ghost var c0 := db.commits;
      StandStill(c0, tr0);
      var asked := GetMark(db.disk);
      var reply := inputs.list(asked);
      WorldAtList(inputs, view, tr0.Last().server, asked);
      ghost var tr1 := Moved(tr0, view.atList);
      ThenMoved(c0, tr0, c0, tr0, tr1);
      if reply.ListFailed? {
        SetStatus(StatusFromKind(reply.kind), reply.message);
        var noted := db.SetLastError(reply.message);
        tr := Noted(tr1, db.disk);
        ThenWrote(c0, tr0, c0, tr1, db.commits, noted, db.version, tr);
        outcome := ListError;
        EndedEarly(outcome, old(db.disk), db.disk, inputs, status, message, totalDates, completedDates);
        return;
      }
      WorldFromList(inputs, view, tr0.Last().server);
      outcome, tr := FollowList(db, inputs, reply, walk, view, tr1);
      ThenReached(c0, tr0, c0, tr1, db.commits, tr);
    }

    /**
     * One pass. Its states, from before it to after it, form a path of the
     * protocol, so every commit in between keeps what the protocol keeps. Whichever
     * statements fail, the tables it leaves are those of its first store with the
     * dates it counts as completed replaced, and a pass that fails leaves the mark.
     * When no statement fails it computes exactly AfterRun.
     */
    method RunSynchronization(db: D.Database, inputs: Inputs, walk: N.Snapshot -> seq<int>,
                              ghost view: View, ghost tr0: Trace)
        returns (outcome: Outcome, ghost base: Store, ghost tr: Trace)
      requires db.Valid() && FileShape(db)
      requires tr0.Valid() && tr0.Last().phase == P.Idle && tr0.Last().store == db.disk
      requires SoundWorld(inputs, view, tr0.Last().server)
      requires forall m :: N.Walks(walk(m), m)
      modifies this
      modifies db`tick, db`work, db`disk, db`commits, db`inTransaction, db`version, db`isOpen
      ensures db.Valid() && FileShape(db) && db.tick >= old(db.tick)
      ensures tr.Valid() && Reaches(old(db.commits), tr0, db.commits, tr)
      ensures tr.Last().phase == P.Idle && tr.Last().store == db.disk
      ensures clearRequested == (old(clearRequested) && outcome == NoDatabase)
      ensures outcome == NoDatabase <==> !Opens(old(db.isOpen), old(db.version), db.faults, old(db.tick))
      ensures outcome == NoDatabase ==> base == old(db.disk)
      ensures outcome != NoDatabase ==>
                base == BaseOf(old(db.disk), old(db.version), old(db.isOpen), old(clearRequested),
                               db.faults, old(db.tick))
      ensures Leaves(outcome, base, db.disk, inputs, completedDates)
      ensures Reports(outcome, base, inputs, status, message, totalDates, completedDates)
      ensures outcome in {NoDatabase, NoKey, ListError} ==>
                totalDates == old(totalDates) && completedDates == old(completedDates)
      ensures outcome == Done ==> notification == NewUnits(base, db.disk, inputs, walk)
      ensures outcome == Done && ValidStore(base) ==> Announced(notification, base, db.disk, inputs)
      ensures outcome != Done ==> notification == old(notification)
      ensures outcome == Done || outcome == NothingChanged ==> RanThrough(tr, view.atList)
      ensures db.NoFaultSince(old(db.tick)) ==>
                && base == Prepared(old(db.disk), old(db.version), old(clearRequested))
                && db.disk == AfterRun(base, inputs) && outcome == OutcomeOf(base, inputs)
    {
      hide P.Steps, P.Enabled, P.Next, SoundWorld, SoundReply, Evolves, NewUnits, Prepared;
      hide AfterList, DatesOutcome, Reaches, Extends, Wrote, Trace.Valid, RanThrough, StopsAt, TodoOf, Processed;
      hide BaseOf, Opens, Clears, OpenFailedText, NoKeyText, Leaves, Reports, Announced, ValidStore;
      ghost var c0 := db.commits;
      SetStatus(Syncing, "Updating\U{2026}");
      var ready;
      ready, tr := Prepare(db, tr0);
      base := db.disk;
      if !ready {
        outcome := NoDatabase;
        EndedEarly(outcome, base, db.disk, inputs, status, message, totalDates, completedDates);
        return;
      }
      if !inputs.hasKey {
        SetStatus(MissingApiKey, NoKeyText());
        outcome := NoKey;
        EndedEarly(outcome, base, db.disk, inputs, status, message, totalDates, completedDates);
        return;
      }
      ghost var c1, tr1 := db.commits, tr;
      outcome, tr := AskForChanges(db, inputs, walk, view, tr1);
      ThenReached(c0, tr0, c1, tr1, db.commits, tr);
    }
  }
}
