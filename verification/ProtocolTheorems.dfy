// What the protocol guarantees over whole behaviours, and exactly where it does not.
module ProtocolTheorems {
  import opened Text
  import opened Aggregator
  import opened Store
  import opened Ledger
  import opened Migrations
  import opened Protocol

  // --- What the history variables say ---------------------------------------------------

  ghost predicate ReplacesAt(s: State, a: Action, d: string) {
    a.Replace? && s.phase.Fetched? && s.phase.next < |s.phase.run.todo| && s.phase.run.todo[s.phase.next] == d
  }

  /** d was replaced by a committed transaction and the cache has not been emptied since. */
  ghost predicate ReplacedSinceClear(ss: seq<State>, acts: seq<Action>, k: nat, d: string)
    requires |ss| == |acts| + 1 && k < |ss|
  {
    exists i | 0 <= i < k :: ReplacesAt(ss[i], acts[i], d) && forall j | i < j < k :: !acts[j].Clear?
  }

  lemma DoneStep(s: State, a: Action, d: string)
    requires Enabled(s, a)
    ensures d in Next(s, a).done <==> ReplacesAt(s, a, d) || (d in s.done && !a.Clear?)
  {}

  lemma {:induction false} DoneMeansReplaced(ss: seq<State>, acts: seq<Action>, k: nat, d: string)
    requires Behaviour(ss, acts) && k < |ss|
    ensures d in ss[k].done <==> ReplacedSinceClear(ss, acts, k, d)
  {
    hide Enabled, Next;
    if k > 0 {
      var p := k - 1;
      DoneMeansReplaced(ss, acts, p, d);
      StepAt(ss, acts, p);
      DoneStep(ss[p], acts[p], d);
      if ReplacedSinceClear(ss, acts, p, d) && !acts[p].Clear? {
        var i :| 0 <= i < p && ReplacesAt(ss[i], acts[i], d) && forall j | i < j < p :: !acts[j].Clear?;
        assert forall j | i < j < k :: !acts[j].Clear?;
      }
      if ReplacedSinceClear(ss, acts, k, d) && !ReplacesAt(ss[p], acts[p], d) {
        var i :| 0 <= i < k && ReplacesAt(ss[i], acts[i], d) && forall j | i < j < k :: !acts[j].Clear?;
        assert i < p;
      }
    }
  }

  /** A resumed backfill skipped d after it had changed, and d was neither replaced nor cleared since. */
  ghost predicate SkippedWhileChanged(ss: seq<State>, acts: seq<Action>, k: nat, d: string)
    requires |ss| == |acts| + 1 && k < |ss|
  {
    exists i | 0 <= i < k :: SkipAt(ss, acts, i, d) && Untouched(ss, acts, i, k, d)
  }

  ghost predicate Untouched(ss: seq<State>, acts: seq<Action>, i: nat, k: nat, d: string)
    requires |ss| == |acts| + 1 && k < |ss|
  {
    forall j | i < j < k :: !acts[j].Clear? && !ReplacesAt(ss[j], acts[j], d)
  }

  lemma ExposedStep(s: State, a: Action, d: string)
    requires Enabled(s, a)
    ensures d in Next(s, a).exposed <==>
            (a.List? && d in NewlyExposed(s)) || (d in s.exposed && !a.Clear? && !ReplacesAt(s, a, d))
  {}

  lemma {:induction false} ExposedMeansSkipped(ss: seq<State>, acts: seq<Action>, k: nat, d: string)
    requires Behaviour(ss, acts) && k < |ss|
    ensures d in ss[k].exposed <==> SkippedWhileChanged(ss, acts, k, d)
  {
    hide Enabled, Next;
    if k > 0 {
      ExposedMeansSkipped(ss, acts, k - 1, d);
      StepAt(ss, acts, k - 1);
      ExposedStep(ss[k - 1], acts[k - 1], d);
      SkippedStep(ss, acts, k, d);
    }
  }

  // The witness of a skip, whose list comes before position k.
  ghost predicate SkipAt(ss: seq<State>, acts: seq<Action>, i: nat, d: string)
    requires |ss| == |acts| + 1
  {
    i < |acts| && acts[i].List? && d in NewlyExposed(ss[i])
  }

  lemma SkippedStep(ss: seq<State>, acts: seq<Action>, k: nat, d: string)
    requires |ss| == |acts| + 1 && 0 < k < |ss|
    ensures SkippedWhileChanged(ss, acts, k, d) <==>
            SkipAt(ss, acts, k - 1, d)
            || (SkippedWhileChanged(ss, acts, k - 1, d)
                && !acts[k - 1].Clear? && !ReplacesAt(ss[k - 1], acts[k - 1], d))
  {}

  // --- The two clocks --------------------------------------------------------------------

  ghost predicate ListsAt(s: State, a: Action) {
    a.List? && IsInitial(s.store)
  }

  /** A version-1 file is given a cursor. */
  ghost predicate SeedsAt(s: State, a: Action) {
    a.Upgrade? && Seeded(s.store).cursor != ""
  }

  lemma ClockStep(s: State, a: Action)
    requires Enabled(s, a) && (a.Upgrade? ==> s.store.cursor == "")
    ensures Next(s, a).lastList ==
            if ListsAt(s, a) then s.server.clock else if SeedsAt(s, a) then s.firstList else s.lastList
    ensures Next(s, a).firstList == if ListsAt(s, a) && s.store.daily == [] then s.server.clock else s.firstList
  {}

  /**
   * lastList is the server's clock at the last list an initial run took, or, after a
   * version-1 file was given its cursor, at the first list over that cache.
   */
  lemma {:induction false} LastListIs(ss: seq<State>, acts: seq<Action>, k: nat)
    requires Behaviour(ss, acts) && k < |ss|
    ensures (ss[k].lastList == 0 && forall j | 0 <= j < k :: !ListsAt(ss[j], acts[j]) && !SeedsAt(ss[j], acts[j]))
            || exists i | 0 <= i < k ::
                 && (ListsAt(ss[i], acts[i]) || SeedsAt(ss[i], acts[i]))
                 && ss[k].lastList == (if ListsAt(ss[i], acts[i]) then ss[i].server.clock else ss[i].firstList)
                 && forall j | i < j < k :: !ListsAt(ss[j], acts[j]) && !SeedsAt(ss[j], acts[j])
  {
    hide Enabled, Next, ListsAt, SeedsAt;
    if k > 0 {
      var p := k - 1;
      LastListIs(ss, acts, p);
      StepAt(ss, acts, p);
      UpgradeFindsNoCursor(ss[p], acts[p]);
      ClockStep(ss[p], acts[p]);
      if !ListsAt(ss[p], acts[p]) && !SeedsAt(ss[p], acts[p]) && ss[p].lastList != 0 {
        var i :| 0 <= i < p && (ListsAt(ss[i], acts[i]) || SeedsAt(ss[i], acts[i]))
                 && ss[p].lastList == (if ListsAt(ss[i], acts[i]) then ss[i].server.clock else ss[i].firstList)
                 && forall j | i < j < p :: !ListsAt(ss[j], acts[j]) && !SeedsAt(ss[j], acts[j]);
        assert forall j | i < j < k :: !ListsAt(ss[j], acts[j]) && !SeedsAt(ss[j], acts[j]);
      }
    }
  }

  lemma UpgradeFindsNoCursor(s: State, a: Action)
    requires Enabled(s, a)
    ensures a.Upgrade? ==> s.store.cursor == ""
  {}

  /** firstList is the server's clock at the last list an initial run took over an empty table. */
  lemma {:induction false} FirstListIs(ss: seq<State>, acts: seq<Action>, k: nat)
    requires Behaviour(ss, acts) && k < |ss|
    ensures (ss[k].firstList == 0 && forall j | 0 <= j < k :: !(ListsAt(ss[j], acts[j]) && ss[j].store.daily == []))
            || exists i | 0 <= i < k ::
                 && ListsAt(ss[i], acts[i]) && ss[i].store.daily == [] && ss[k].firstList == ss[i].server.clock
                 && forall j | i < j < k :: !(ListsAt(ss[j], acts[j]) && ss[j].store.daily == [])
  {
    hide Enabled, Next, ListsAt;
    if k > 0 {
      var p := k - 1;
      FirstListIs(ss, acts, p);
      StepAt(ss, acts, p);
      UpgradeFindsNoCursor(ss[p], acts[p]);
      ClockStep(ss[p], acts[p]);
      if !(ListsAt(ss[p], acts[p]) && ss[p].store.daily == []) && ss[p].firstList != 0 {
        var i :| 0 <= i < p && ListsAt(ss[i], acts[i]) && ss[i].store.daily == []
                 && ss[p].firstList == ss[i].server.clock
                 && forall j | i < j < p :: !(ListsAt(ss[j], acts[j]) && ss[j].store.daily == []);
        assert forall j | i < j < k :: !(ListsAt(ss[j], acts[j]) && ss[j].store.daily == []);
      }
    }
  }

  // --- No lost update ----------------------------------------------------------------------

  /**
   * In every reachable state a date whose cached rows are not the aggregate of the
   * server's records has an event above the mark, so that the next list reports it,
   * save the dates a resumed backfill skipped although they had changed. At or below
   * the cursor of a backfill that event is newer than the last list: the next list
   * of the backfill will skip the date, and on record.
   */
  lemma NoLostUpdate(ss: seq<State>, acts: seq<Action>, k: nat, d: string)
    requires Behaviour(ss, acts) && k < |ss|
    requires !Fresh(ss[k], d)
    ensures SkippedWhileChanged(ss, acts, k, d) || HasEvent(ss[k].server, d, Floor(ss[k], d))
    ensures SkippedWhileChanged(ss, acts, k, d)
            || HasEvent(ss[k].server, d, MarkValue(GetMark(ss[k].store)))
  {
    var s := ss[k];
    BehaviourInv(ss, acts, k);
    ExposedMeansSkipped(ss, acts, k, d);
    assert Excused(s, d, Floor(s, d));
    MarkZero();
    if HasEvent(s.server, d, Floor(s, d)) {
      EventsWeaken(s.server, d, Floor(s, d), MarkValue(GetMark(s.store)));
    }
  }

  /** No list of an initial run found an event, since the list before, at or below its cursor. */
  ghost predicate Quiet(ss: seq<State>, acts: seq<Action>)
    requires Behaviour(ss, acts)
  {
    forall i | 0 <= i < |acts| && acts[i].List? :: NewlyExposed(ss[i]) == {}
  }

  lemma QuietExposesNothing(ss: seq<State>, acts: seq<Action>, k: nat)
    requires Behaviour(ss, acts) && Quiet(ss, acts) && k < |ss|
    ensures ss[k].exposed == {}
  {
    forall d ensures d !in ss[k].exposed {
      ExposedMeansSkipped(ss, acts, k, d);
    }
  }

  /** Under the hypothesis nothing is ever lost, and what is stale lies above the cursor. */
  lemma NoLostUpdateWhenQuiet(ss: seq<State>, acts: seq<Action>, k: nat, d: string)
    requires Behaviour(ss, acts) && Quiet(ss, acts) && k < |ss|
    requires !Fresh(ss[k], d)
    ensures HasEvent(ss[k].server, d, MarkValue(GetMark(ss[k].store)))
    ensures IsInitial(ss[k].store) && NewlyExposed(ss[k]) == {} ==> !Skips(ss[k].store.cursor, d)
  {
    var s := ss[k];
    QuietExposesNothing(ss, acts, k);
    NoLostUpdate(ss, acts, k, d);
    ExposedMeansSkipped(ss, acts, k, d);
    if IsInitial(s.store) && Skips(s.store.cursor, d) {
      var e :| e in s.server.log && e.date == d && e.stamp > s.lastList;
      assert e.date in NewlyExposed(s);
    }
  }

  /** While the mark is "0" every date known to the last list, up to the cursor, was replaced. */
  lemma BackfillPrefixIsDone(ss: seq<State>, acts: seq<Action>, k: nat, d: string)
    requires Behaviour(ss, acts) && k < |ss|
    requires IsInitial(ss[k].store) && Skips(ss[k].store.cursor, d)
    requires EventBy(ss[k].server, d, ss[k].lastList)
    ensures ReplacedSinceClear(ss, acts, k, d) || SkippedWhileChanged(ss, acts, k, d)
  {
    BehaviourInv(ss, acts, k);
    DoneMeansReplaced(ss, acts, k, d);
    ExposedMeansSkipped(ss, acts, k, d);
    assert Accounted(ss[k], d);
  }

  /**
   * Only a clear brings the mark back to "0", and it nulls the cursor: a cursor left
   * beside a newer mark is never consulted.
   */
  lemma MarkReturnsToZeroOnlyByClear(ss: seq<State>, acts: seq<Action>, k: nat)
    requires Behaviour(ss, acts) && k < |acts|
    requires !IsInitial(ss[k].store) && IsInitial(ss[k + 1].store)
    ensures acts[k].Clear? && ss[k + 1].store.cursor == ""
  {
    BehaviourInv(ss, acts, k);
    assert ss[k + 1] == Next(ss[k], acts[k]);
  }

  /** So a cursor that outlives its backfill is not consulted before a clear has nulled it. */
  lemma {:induction false} LeftoverCursorIsNotConsulted(ss: seq<State>, acts: seq<Action>, i: nat, k: nat)
    requires Behaviour(ss, acts) && i <= k < |ss|
    requires !IsInitial(ss[i].store) && IsInitial(ss[k].store)
    ensures exists j :: i <= j < k && acts[j].Clear? && ss[j + 1].store.cursor == ""
    decreases k
  {
    hide Enabled, Next, IsInitial;
    if IsInitial(ss[k - 1].store) {
      LeftoverCursorIsNotConsulted(ss, acts, i, k - 1);
    } else {
      MarkReturnsToZeroOnlyByClear(ss, acts, k - 1);
    }
  }

  /** The cursor a version-1 file is given stands for dates replaced, with or without rows. */
  lemma SeededCursorIsDone(ss: seq<State>, acts: seq<Action>, k: nat, d: string)
    requires Behaviour(ss, acts) && k < |acts| && acts[k].Upgrade? && IsInitial(ss[k].store)
    requires Skips(ss[k + 1].store.cursor, d) && EventBy(ss[k].server, d, ss[k].firstList)
    ensures ReplacedSinceClear(ss, acts, k + 1, d) || SkippedWhileChanged(ss, acts, k + 1, d)
  {
    StepAt(ss, acts, k);
    BackfillPrefixIsDone(ss, acts, k + 1, d);
  }

  // --- Exactly what a completed run loses ------------------------------------------------------

  /** Stale, and no later list will report it. */
  ghost predicate Lost(s: State, d: string) {
    !Fresh(s, d) && !HasEvent(s.server, d, MarkValue(GetMark(s.store)))
  }

  ghost predicate StaleAtList(run: Run, d: string) {
    DateRows(run.base, d) != ToDaily(d, Aggregated(Records(run.listed, d)))
  }

  /** The run has gone through all its dates; its final writes may have failed. */
  ghost predicate WentThrough(s: State, run: Run) {
    s.phase == Marked(run) || s.phase == Finished(run)
  }

  /**
   * Once a run has gone through its dates, whatever mark is then in force, a date is
   * lost if and only if the run left it out, it was stale then, and no event lies
   * above the mark; and what a run leaves out while stale is exactly what a resumed
   * backfill skipped by its cursor although it had changed.
   */
  lemma CompletedRunLosesExactly(ss: seq<State>, acts: seq<Action>, k: nat, run: Run, d: string)
    requires Behaviour(ss, acts) && k < |ss| && WentThrough(ss[k], run)
    ensures Lost(ss[k], d) <==>
            d !in run.todo && StaleAtList(run, d)
            && !HasEvent(ss[k].server, d, MarkValue(GetMark(ss[k].store)))
    ensures Lost(ss[k], d) <==>
            SkippedWhileChanged(ss, acts, k, d) && StaleAtList(run, d)
            && !HasEvent(ss[k].server, d, MarkValue(GetMark(ss[k].store)))
  {
    var s := ss[k];
    BehaviourInv(ss, acts, k);
    ExposedMeansSkipped(ss, acts, k, d);
    AllSettled(run, d);
    assert run.todo[..|run.todo|] == run.todo;
    assert Excused(s, d, run.listed.clock);
    if HasEvent(s.server, d, run.listed.clock) {
      EventsWeaken(s.server, d, run.listed.clock, MarkValue(GetMark(s.store)));
    }
  }

  /** So it loses nothing if and only if every date skipped like that was right, or will be reported. */
  lemma CompletedRunLosesNothingIff(ss: seq<State>, acts: seq<Action>, k: nat, run: Run)
    requires Behaviour(ss, acts) && k < |ss| && WentThrough(ss[k], run)
    ensures (forall d :: !Lost(ss[k], d)) <==>
            (forall d | SkippedWhileChanged(ss, acts, k, d) && StaleAtList(run, d) ::
               HasEvent(ss[k].server, d, MarkValue(GetMark(ss[k].store))))
  {
    forall d ensures Lost(ss[k], d) <==>
        SkippedWhileChanged(ss, acts, k, d) && StaleAtList(run, d)
        && !HasEvent(ss[k].server, d, MarkValue(GetMark(ss[k].store)))
    {
      CompletedRunLosesExactly(ss, acts, k, run, d);
    }
  }

  // --- Convergence -------------------------------------------------------------------------

  lemma NothingAfterNow(sv: Server, d: string)
    requires ValidServer(sv)
    ensures !HasEvent(sv, d, sv.clock)
  {}

  /**
   * A run that goes through its dates, none included, before the server changes makes
   * every date right it was not made to skip.
   */
  lemma Convergence(ss: seq<State>, acts: seq<Action>, k: nat, run: Run, d: string)
    requires Behaviour(ss, acts) && k < |ss|
    requires WentThrough(ss[k], run) && ss[k].server == run.listed
    ensures Fresh(ss[k], d) || SkippedWhileChanged(ss, acts, k, d)
  {
    BehaviourInv(ss, acts, k);
    ExposedMeansSkipped(ss, acts, k, d);
    AllSettled(run, d);
    assert Excused(ss[k], d, run.listed.clock);
    NothingAfterNow(run.listed, d);
  }

  /**
   * A second such run against the same server changes no date, save those that were
   * skipped while changed and not repaired since, at the end of either run.
   */
  lemma SecondRunChangesNothing(ss: seq<State>, acts: seq<Action>, j: nat, first: Run, k: nat, second: Run, d: string)
    requires Behaviour(ss, acts) && j < |ss| && k < |ss|
    requires WentThrough(ss[j], first) && ss[j].server == first.listed
    requires WentThrough(ss[k], second) && ss[k].server == second.listed == first.listed
    ensures DateRows(ss[j].store, d) == DateRows(ss[k].store, d)
            || SkippedWhileChanged(ss, acts, j, d) || SkippedWhileChanged(ss, acts, k, d)
  {
    hide Enabled, Next;
    Convergence(ss, acts, j, first, d);
    Convergence(ss, acts, k, second, d);
  }

  /** With no such date left at either end the whole table is as the first run left it. */
  lemma SecondRunKeepsTable(ss: seq<State>, acts: seq<Action>, j: nat, first: Run, k: nat, second: Run)
    requires Behaviour(ss, acts) && j < |ss| && k < |ss|
    requires WentThrough(ss[j], first) && ss[j].server == first.listed
    requires WentThrough(ss[k], second) && ss[k].server == second.listed == first.listed
    requires forall d :: !SkippedWhileChanged(ss, acts, j, d) && !SkippedWhileChanged(ss, acts, k, d)
    ensures SameDaily(ss[j].store, ss[k].store)
    ensures multiset(ss[j].store.daily) == multiset(ss[k].store.daily)
  {
    hide Enabled, Next;
    forall d ensures DateRows(ss[j].store, d) == DateRows(ss[k].store, d) {
      SecondRunChangesNothing(ss, acts, j, first, k, second, d);
    }
    SameDailySameTable(ss[j].store, ss[k].store);
  }

  // --- Resuming is as good as never having stopped ------------------------------------------

  ghost predicate Unchanging(ss: seq<State>, sv: Server) {
    forall k | 0 <= k < |ss| :: ss[k].server == sv
  }

  predicate InInitialRun(p: Phase) {
    !p.Idle? && p.run.initial
  }

  // Against one server all lists of a backfill are taken at the same moment.
  ghost predicate OneList(s: State) {
    && s.exposed == {}
    && (IsInitial(s.store) && s.store.cursor != "" ==> s.lastList == s.server.clock)
    && (IsInitial(s.store) && s.store.daily != [] ==> s.firstList == s.server.clock)
    && (InInitialRun(s.phase) ==> s.lastList == s.firstList == s.server.clock)
  }

  lemma OneListStep(s: State, a: Action)
    requires Inv(s) && Enabled(s, a) && OneList(s)
    requires Next(s, a).server == s.server
    ensures OneList(Next(s, a))
  {
    if a.List? {
      assert NewlyExposed(s) == {};
    }
  }

  lemma {:induction false} UnchangingOneList(ss: seq<State>, acts: seq<Action>, sv: Server, k: nat)
    requires Behaviour(ss, acts) && Unchanging(ss, sv) && k < |ss|
    ensures OneList(ss[k])
  {
    hide Inv, Enabled, Next;
    if k > 0 {
      UnchangingOneList(ss, acts, sv, k - 1);
      BehaviourInv(ss, acts, k - 1);
      StepAt(ss, acts, k - 1);
      OneListStep(ss[k - 1], acts[k - 1]);
    }
  }

  /** The server answers every backfill's request with the mark m. */
  ghost predicate Answers(ss: seq<State>, acts: seq<Action>, m: string)
    requires |ss| == |acts| + 1
  {
    forall i | 0 <= i < |acts| && acts[i].List? && IsInitial(ss[i].store) :: acts[i].mark == m
  }

  /**
   * An initial run has stored its last date by position i; it then writes the mark
   * and at j nulls the cursor, both with success, and has not ended at k.
   */
  ghost predicate EndsBackfill(ss: seq<State>, acts: seq<Action>, i: nat, j: nat, k: nat, run: Run)
    requires |ss| == |acts| + 1
  {
    && i < j < k < |ss| && run.initial && ss[i].phase == Listed(run, |run.todo|)
    && acts[i] == SetMark(true) && acts[j] == DropCursor(true)
    && (forall n | i < n < j :: !acts[n].DropCursor?)
    && (forall n | i < n < k :: !acts[n].Stop?)
  }

  // While the mark is "0" it is not the empty text, and a backfill carries the server's answer.
  ghost predicate AnswerKept(s: State, m: string) {
    s.store.mark != "" && (InInitialRun(s.phase) ==> s.phase.run.newMark == m)
  }

  lemma AnswerStep(s: State, a: Action, m: string)
    requires Enabled(s, a) && AnswerKept(s, m) && (a.List? && IsInitial(s.store) ==> a.mark == m)
    ensures AnswerKept(Next(s, a), m)
  {}

  lemma {:induction false} AnswerIsKept(ss: seq<State>, acts: seq<Action>, m: string, k: nat)
    requires Behaviour(ss, acts) && Answers(ss, acts, m) && k < |ss|
    ensures AnswerKept(ss[k], m)
  {
    hide Enabled, Next, IsInitial;
    if k > 0 {
      AnswerIsKept(ss, acts, m, k - 1);
      StepAt(ss, acts, k - 1);
      AnswerStep(ss[k - 1], acts[k - 1], m);
    }
  }

  // The phases from the last date on allow little else than the final writes.
  lemma TailStep(s: State, a: Action, run: Run)
    requires Enabled(s, a) && !a.Stop?
    ensures s.phase == Listed(run, |run.todo|) && a == SetMark(true) ==>
              && Next(s, a).phase == Marked(run)
              && Next(s, a).store.mark == if run.newMark != "" then run.newMark else s.store.mark
    ensures s.phase == Marked(run) && !a.DropCursor? ==>
              Next(s, a).phase == Marked(run) && Next(s, a).store.mark == s.store.mark
    ensures s.phase == Marked(run) && run.initial && a == DropCursor(true) ==>
              && Next(s, a).phase == Finished(run)
              && Next(s, a).store.mark == s.store.mark && Next(s, a).store.cursor == ""
    ensures s.phase == Finished(run) ==>
              && Next(s, a).phase == Finished(run)
              && Next(s, a).store.mark == s.store.mark && Next(s, a).store.cursor == s.store.cursor
  {}

  lemma {:induction false} TailWritten(ss: seq<State>, acts: seq<Action>, i: nat, j: nat, k: nat, run: Run, n: nat)
    requires Behaviour(ss, acts) && EndsBackfill(ss, acts, i, j, k, run) && i < n <= k
    ensures ss[n].phase == if n <= j then Marked(run) else Finished(run)
    ensures ss[n].store.mark == if run.newMark != "" then run.newMark else ss[i].store.mark
    ensures n > j ==> ss[n].store.cursor == ""
    decreases n
  {
    hide Enabled, Next;
    StepAt(ss, acts, n - 1);
    TailStep(ss[n - 1], acts[n - 1], run);
    if n > i + 1 {
      TailWritten(ss, acts, i, j, k, run, n - 1);
    }
  }

  /** The mark a backfill leaves: the server's answer, or "0" if that is empty. */
  function FinalMark(m: string): string {
    if m == "" then "0" else m
  }

  /**
   * Against an unchanging server, whatever interruptions, failures, clears and
   * upgrades came before it, a backfill that writes its mark and nulls its cursor
   * leaves what any other leaves: the same table, mark and cursor.
   */
  lemma ResumeEquivalence(ss: seq<State>, acts: seq<Action>, i: nat, j: nat, k: nat, run: Run,
                          ss': seq<State>, acts': seq<Action>, i': nat, j': nat, k': nat, run': Run,
                          sv: Server, m: string)
    requires Behaviour(ss, acts) && Unchanging(ss, sv) && Answers(ss, acts, m)
    requires EndsBackfill(ss, acts, i, j, k, run)
    requires Behaviour(ss', acts') && Unchanging(ss', sv) && Answers(ss', acts', m)
    requires EndsBackfill(ss', acts', i', j', k', run')
    ensures SameDaily(ss[k].store, ss'[k'].store)
    ensures multiset(ss[k].store.daily) == multiset(ss'[k'].store.daily)
    ensures ss[k].store.mark == ss'[k'].store.mark && ss[k].store.cursor == ss'[k'].store.cursor
  {
    hide Answers, Enabled, Next;
    BackfillIsExact(ss, acts, i, j, k, run, sv, m);
    BackfillIsExact(ss', acts', i', j', k', run', sv, m);
    SameDailySameTable(ss[k].store, ss'[k'].store);
  }

  /** And that is the aggregate of the server's records, the mark it hands out, and no cursor. */
  lemma BackfillIsExact(ss: seq<State>, acts: seq<Action>, i: nat, j: nat, k: nat, run: Run, sv: Server, m: string)
    requires Behaviour(ss, acts) && Unchanging(ss, sv) && Answers(ss, acts, m)
    requires EndsBackfill(ss, acts, i, j, k, run)
    ensures forall d :: DateRows(ss[k].store, d) == ToDaily(d, Aggregated(Records(sv, d)))
    ensures ss[k].store.mark == FinalMark(m) && ss[k].store.cursor == ""
  {
    hide Enabled, Next;
    TailWritten(ss, acts, i, j, k, run, k);
    AnswerIsKept(ss, acts, m, i);
    BehaviourInv(ss, acts, i);
    AllDatesRight(ss, acts, k, run, sv);
  }

  lemma AllDatesRight(ss: seq<State>, acts: seq<Action>, k: nat, run: Run, sv: Server)
    requires Behaviour(ss, acts) && Unchanging(ss, sv) && k < |ss|
    requires ss[k].phase == Finished(run) && run.initial
    ensures forall d :: DateRows(ss[k].store, d) == ToDaily(d, Aggregated(Records(sv, d)))
  {
    var s := ss[k];
    BehaviourInv(ss, acts, k);
    UnchangingOneList(ss, acts, sv, k);
    forall d ensures DateRows(s.store, d) == ToDaily(d, Aggregated(Records(sv, d))) {
      AllSettled(run, d);
      assert Excused(s, d, run.listed.clock);
      NothingAfterNow(sv, d);
    }
  }

  // --- The hypothesis is needed ------------------------------------------------------------

  function Sale(net: int): SalesRecord {
    SalesRecord("Package", "Steam", 7, "", net, net, 0)
  }

  // A server that has seen `n` sales of one date, one event each.
  function Busy(n: nat): Server {
    Server(map["d" := seq(n, i requires 0 <= i < n => Entry(i + 1, Sale(1)))],
           set i | 1 <= i <= n :: Event(i, "d"), n)
  }

  lemma BusyEvolves(m: nat, n: nat)
    requires m <= n
    ensures Evolves(Busy(m), Busy(n))
    ensures ValidServer(Busy(n))
    ensures n > 0 ==> HasEvent(Busy(n), "d", 0)
  {
    assert forall k: nat :: ValidServer(Busy(k)) by {
      forall k: nat ensures ValidServer(Busy(k)) {
        assert k > 0 ==> Event(1, "d") in Busy(k).log;
      }
    }
    if m < n {
      assert Event(n, "d") in Busy(n).log;
      assert HasEvent(Busy(n), "d", m);
    }
  }

  /** An interrupted backfill whose only date changes before it resumes. */
  function LosingActions(): seq<Action> {
    [Change(Busy(1)), List(["d"], "1"), Fetch(Busy(1), [Sale(1)]), Replace(""), Checkpoint(true), Stop,
     Change(Busy(2)), List(["d"], "2"), SetMark(true), DropCursor(true)]
  }

  ghost function StartState(): State {
    State(Server(map["d" := []], {}, 0), FRESH_STORE, Idle, 0, 0, {}, {})
  }

  lemma SingleDate()
    ensures Sort(["d"]) == ["d"]
    ensures ToProcess(["d"], true, "") == ["d"] && ToProcess(["d"], true, "d") == []
    ensures MarkValue("1") == 1 && MarkValue("2") == 2
  {}

  lemma FirstFetch()
    ensures Records(Busy(1), "d") == [Sale(1)]
    ensures Aggregated([Sale(1)]) == [SalesRow(7, "", 1, 1, 0)]
  {}

  ghost function FirstRun(): Run {
    Run(true, ["d"], "1", Busy(1), FRESH_STORE)
  }

  lemma LosingList() returns (ss: seq<State>)
    ensures Steps(ss, LosingActions()[..2]) && |ss| == 3 && ss[0] == StartState() && Start(ss[0])
    ensures ss[2] == State(Busy(1), FRESH_STORE, Listed(FirstRun(), 0), 1, 1, {}, {})
  {
    var acts := LosingActions()[..2];
    SingleDate();
    BusyEvolves(1, 1);
    var s0 := StartState();
    assert Evolves(s0.server, Busy(1)) by {
      assert Event(1, "d") in Busy(1).log;
      assert HasEvent(Busy(1), "d", 0);
    }
    var s1 := Next(s0, acts[0]);
    assert NewlyExposed(s1) == {};
    ss := [s0, s1, Next(s1, acts[1])];
  }

  lemma LosingFetch(s2: State)
    requires s2 == State(Busy(1), FRESH_STORE, Listed(FirstRun(), 0), 1, 1, {}, {})
    ensures Enabled(s2, Fetch(Busy(1), [Sale(1)]))
    ensures Next(s2, Fetch(Busy(1), [Sale(1)])) == s2.(phase := Fetched(FirstRun(), 0, [SalesRow(7, "", 1, 1, 0)]))
  {
    FirstFetch();
    BusyEvolves(1, 1);
    hide Aggregated, Records, Evolves;
  }

  lemma LosingStore(s2: State) returns (ss: seq<State>)
    requires s2 == State(Busy(1), FRESH_STORE, Listed(FirstRun(), 0), 1, 1, {}, {})
    ensures Steps(ss, LosingActions()[2..6]) && |ss| == 5 && ss[0] == s2
    ensures ss[4].phase == Idle && ss[4].server == Busy(1)
    ensures ss[4].store.mark == "0" && ss[4].store.cursor == "d"
    ensures DateRows(ss[4].store, "d") == [DailyRow("d", 7, 1, 0, 1)]
  {
    hide Busy, Sale, Without, UpsertAll, FetchedBetween, Aggregated, Select;
    var acts := LosingActions()[2..6];
    LosingFetch(s2);
    var s3 := Next(s2, acts[0]);
    var s4 := Next(s3, acts[1]);
    ReplacedIsUpdate(s3.store, "d", s3.phase.rows, "", "d");
    var s5 := Next(s4, acts[2]);
    ss := [s2, s3, s4, s5, Next(s5, acts[3])];
  }

  lemma StepsConcat(ss: seq<State>, acts: seq<Action>, ss': seq<State>, acts': seq<Action>)
    requires Steps(ss, acts) && Steps(ss', acts') && ss[|acts|] == ss'[0]
    ensures Steps(ss[..|acts|] + ss', acts + acts')
  {
    var all, as' := ss[..|acts|] + ss', acts + acts';
    forall i | 0 <= i < |as'| ensures Enabled(all[i], as'[i]) && all[i + 1] == Next(all[i], as'[i]) {
      if i < |acts| {
        assert all[i] == ss[i] && all[i + 1] == ss[i + 1] && as'[i] == acts[i];
      } else {
        assert all[i] == ss'[i - |acts|] && all[i + 1] == ss'[i + 1 - |acts|] && as'[i] == acts'[i - |acts|];
      }
    }
  }

  lemma SecondAggregate()
    ensures ToDaily("d", Aggregated(Records(Busy(2), "d"))) == [DailyRow("d", 7, 2, 0, 2)]
  {
    FirstFetch();
    var r := Sale(1);
    assert Records(Busy(2), "d") == [r] + [r];
    KnownApp([r], r, 0);
  }

  // The resumed backfill skips the date and installs the new mark.
  lemma ResumeAndMark(s7: State) returns (ss: seq<State>)
    requires s7.phase == Idle && s7.server == Busy(2) && s7.store.mark == "0" && s7.store.cursor == "d"
    ensures Steps(ss, [List(["d"], "2"), SetMark(true), DropCursor(true)]) && |ss| == 4 && ss[0] == s7
    ensures ss[3].server == Busy(2) && ss[3].store.daily == s7.store.daily && ss[3].store.mark == "2"
  {
    SingleDate();
    BusyEvolves(2, 2);
    var s8 := Next(s7, List(["d"], "2"));
    assert s8.phase.run.todo == [];
    var s9 := Next(s8, SetMark(true));
    ss := [s7, s8, s9, Next(s9, DropCursor(true))];
  }

  lemma LosingResume(s6: State) returns (ss: seq<State>)
    requires s6.phase == Idle && s6.server == Busy(1)
    requires s6.store.mark == "0" && s6.store.cursor == "d"
    requires DateRows(s6.store, "d") == [DailyRow("d", 7, 1, 0, 1)]
    ensures Steps(ss, LosingActions()[6..]) && |ss| == 5 && ss[0] == s6
    ensures Lost(ss[4], "d")
  {
    BusyEvolves(1, 2);
    var s7 := Next(s6, Change(Busy(2)));
    var tail := ResumeAndMark(s7);
    StepsConcat([s6, s7], [Change(Busy(2))], tail, [List(["d"], "2"), SetMark(true), DropCursor(true)]);
    ss := [s6, s7][..1] + tail;
    assert LosingActions()[6..] == [Change(Busy(2))] + [List(["d"], "2"), SetMark(true), DropCursor(true)];
    LostNow(ss[4]);
  }

  lemma LostNow(s: State)
    requires s.server == Busy(2) && s.store.mark == "2"
    requires DateRows(s.store, "d") == [DailyRow("d", 7, 1, 0, 1)]
    ensures Lost(s, "d")
  {
    SingleDate();
    SecondAggregate();
  }

  /** Without the hypothesis a date can be lost for good: a concrete behaviour. */
  lemma ResumedBackfillCanLoseADate()
    ensures exists ss, acts, k: nat :: Behaviour(ss, acts) && k < |ss| && Lost(ss[k], "d")
                                       && SkippedWhileChanged(ss, acts, k, "d")
  {
    var acts := LosingActions();
    var listed := LosingList();
    var stored := LosingStore(listed[2]);
    StepsConcat(listed, acts[..2], stored, acts[2..6]);
    var half := listed[..2] + stored;
    var tail := LosingResume(half[6]);
    StepsConcat(half, acts[..2] + acts[2..6], tail, acts[6..]);
    assert acts[..2] + acts[2..6] + acts[6..] == acts;
    var ss := half[..6] + tail;
    assert Behaviour(ss, acts);
    assert ss[10] == tail[4];
    NoLostUpdate(ss, acts, 10, "d");
  }
}
