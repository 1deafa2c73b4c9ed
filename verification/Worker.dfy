// The worker thread and its events (Run, ComputeWaitMs, Request*, Stop in
// src/sync/SalesSyncService.cpp) as interleaved steps of two threads: the UI
// thread sets events and the clear flag, the worker waits and runs.
module Worker {

  /** Where the worker stands. `work` is how many further steps a pass will take. */
  datatype Pc =
    | Startup
    | Beginning // woken: the next step starts a pass
    | Opening(work: nat) // a pass has started
    | Clearing(work: nat) // database open, clear flag not yet read
    | Working(work: nat)
    | Waiting
    | Exited

  datatype State = State(
    pc: Pc,
    stop: bool, // manual-reset event
    manual: bool, settings: bool, // auto-reset events
    clear: bool, // atomic flag
    clearUnsignalled: bool, // the UI has stored the flag and not yet set the event
    // history
    unserved: bool, // a request's SetEvent has returned and no pass has started since
    runsAfterStop: nat, // passes started after stop was set
    stored: nat, taken: nat) // stores of the flag; exchanges that found it set

  datatype Action =
    // UI thread
    | AskManual | AskSettings | StoreClear | SignalClear | AskStop
    // worker thread
    | Start(stale: bool) // the startup decision
    | Wake // WaitForMultipleObjects returns because of an event
    | Timeout // ... or because the deadline has passed
    | BeginRun(work: nat)
    | OpenDb(ok: bool)
    | TakeClear // clearCacheRequested_.exchange(false)
    | Work

  predicate IsWorker(a: Action) {
    !(a.AskManual? || a.AskSettings? || a.StoreClear? || a.SignalClear? || a.AskStop?)
  }

  predicate Enabled(s: State, a: Action) {
    match a
    case AskManual => !s.clearUnsignalled
    case AskSettings => !s.clearUnsignalled
    case StoreClear => !s.clearUnsignalled
    case SignalClear => s.clearUnsignalled
    case AskStop => !s.clearUnsignalled
    case Start(_) => s.pc.Startup?
    case Wake => s.pc.Waiting? && (s.stop || s.manual || s.settings)
    case Timeout => s.pc.Waiting? && !s.stop && !s.manual && !s.settings
    case BeginRun(_) => s.pc.Beginning?
    case OpenDb(_) => s.pc.Opening?
    case TakeClear => s.pc.Clearing?
    case Work => s.pc.Working?
  }

  function Next(s: State, a: Action): State
    requires Enabled(s, a)
  {
    match a
    case AskManual => s.(manual := true, unserved := true)
    case AskSettings => s.(settings := true, unserved := true)
    case StoreClear => s.(clear := true, clearUnsignalled := true, stored := s.stored + 1)
    case SignalClear => s.(manual := true, clearUnsignalled := false, unserved := true)
    case AskStop => s.(stop := true)
    case Start(stale) => s.(pc := if stale then Beginning else Waiting)
    case Wake => // the lowest signalled handle wins, and an auto-reset event is consumed
      if s.stop then s.(pc := Exited)
      else if s.manual then s.(pc := Beginning, manual := false)
      else s.(pc := Beginning, settings := false)
    case Timeout => s.(pc := Beginning)
    case BeginRun(work) =>
      s.(pc := Opening(work), unserved := false,
         runsAfterStop := if s.stop then s.runsAfterStop + 1 else s.runsAfterStop)
    case OpenDb(ok) => s.(pc := if ok then Clearing(s.pc.work) else Waiting)
    case TakeClear =>
      s.(pc := Working(s.pc.work), clear := false, taken := if s.clear then s.taken + 1 else s.taken)
    case Work => s.(pc := if s.pc.work == 0 then Waiting else Working(s.pc.work - 1))
  }

  const INITIAL := State(Startup, false, false, false, false, false, false, 0, 0, 0)

  ghost predicate Run(ss: seq<State>, acts: seq<Action>) {
    && |ss| == |acts| + 1 && ss[0] == INITIAL
    && forall i | 0 <= i < |acts| :: Enabled(ss[i], acts[i]) && ss[i + 1] == Next(ss[i], acts[i])
  }

  lemma StepAt(ss: seq<State>, acts: seq<Action>, i: nat)
    requires Run(ss, acts) && i < |acts|
    ensures Enabled(ss[i], acts[i]) && ss[i + 1] == Next(ss[i], acts[i])
  {}

  // --- Invariant ------------------------------------------------------------------------

  predicate Inv(s: State) {
    // an unserved request is still visible to the worker
    && (s.unserved ==> s.manual || s.settings || s.pc.Beginning?)
    // at most the pass already on its way starts after stop
    && (!s.stop ==> s.runsAfterStop == 0)
    && s.runsAfterStop + (if s.pc.Startup? || s.pc.Beginning? then 1 else 0) <= 1
    && (s.pc.Exited? ==> s.stop)
    // the flag is set exactly while the latest store has not been taken
    && s.taken + (if s.clear then 1 else 0) <= s.stored
  }

  lemma StepInv(s: State, a: Action)
    requires Inv(s) && Enabled(s, a)
    ensures Inv(Next(s, a))
  {}

  lemma {:induction false} RunInv(ss: seq<State>, acts: seq<Action>, k: nat)
    requires Run(ss, acts) && k < |ss|
    ensures Inv(ss[k])
  {
    if k > 0 {
      RunInv(ss, acts, k - 1);
      StepAt(ss, acts, k - 1);
      StepInv(ss[k - 1], acts[k - 1]);
    }
  }

  // --- No lost wake-ups ----------------------------------------------------------------

  /** Worker steps from s to the start of the next pass, when an event is waiting. */
  function Distance(pc: Pc): nat {
    match pc
    case Startup => 3
    case Beginning => 1
    case Opening(work) => work + 5
    case Clearing(work) => work + 4
    case Working(work) => work + 3
    case Waiting => 2
    case Exited => 0
  }

  /** The worker is never stuck while a request waits. */
  lemma NeverStuck(s: State)
    requires Inv(s) && s.unserved && !s.stop
    ensures exists a :: IsWorker(a) && Enabled(s, a)
  {
    var a :=
      match s.pc
      case Startup => Start(true)
      case Beginning => BeginRun(0)
      case Opening(_) => OpenDb(true)
      case Clearing(_) => TakeClear
      case Working(_) => Work
      case Waiting => Wake
      case Exited => AskStop;
    assert IsWorker(a) && Enabled(s, a);
  }

  lemma Approach(s: State, a: Action)
    requires Inv(s) && s.unserved && Enabled(s, a) && !Next(s, a).stop && !a.BeginRun?
    ensures Next(s, a).unserved
    ensures Distance(Next(s, a).pc) <= Distance(s.pc) - (if IsWorker(a) then 1 else 0)
  {}

  lemma StopStays(s: State, a: Action)
    requires Enabled(s, a)
    ensures s.stop ==> Next(s, a).stop
  {}

  function WorkerSteps(acts: seq<Action>): nat {
    if acts == [] then 0 else WorkerSteps(acts[..|acts| - 1]) + (if IsWorker(acts[|acts| - 1]) then 1 else 0)
  }

  lemma {:induction false} CloserByEachStep(ss: seq<State>, acts: seq<Action>, i: nat, j: nat)
    requires Run(ss, acts) && i <= j < |ss| && ss[i].unserved
    requires !ss[j].stop && forall k | i <= k < j :: !acts[k].BeginRun?
    ensures ss[j].unserved && WorkerSteps(acts[i..j]) + Distance(ss[j].pc) <= Distance(ss[i].pc)
    decreases j
  {
    hide Enabled, Next, Inv, IsWorker, Distance;
    if i < j {
      var p := j - 1;
      StepAt(ss, acts, p);
      StopStays(ss[p], acts[p]);
      CloserByEachStep(ss, acts, i, p);
      RunInv(ss, acts, p);
      Approach(ss[p], acts[p]);
      assert acts[i..j][..p - i] == acts[i..p];
    }
  }

  /**
   * After a manual, settings or clear request has set its event, a pass starts
   * within Distance worker steps, whatever the interleaving, unless stop is set.
   */
  lemma NoLostWakeUp(ss: seq<State>, acts: seq<Action>, i: nat, j: nat)
    requires Run(ss, acts) && i < j < |ss|
    requires acts[i] in {AskManual, AskSettings, SignalClear}
    requires WorkerSteps(acts[i + 1..j]) >= Distance(ss[i + 1].pc)
    ensures ss[j].stop || exists k :: i < k < j && acts[k].BeginRun?
  {
    StepAt(ss, acts, i);
    if !ss[j].stop && forall k | i < k < j :: !acts[k].BeginRun? {
      CloserByEachStep(ss, acts, i + 1, j);
      RunInv(ss, acts, j);
    }
  }

  // --- No pass without a cause --------------------------------------------------------------

  function Begins(acts: seq<Action>): nat {
    if acts == [] then 0 else Begins(acts[..|acts| - 1]) + (if acts[|acts| - 1].BeginRun? then 1 else 0)
  }

  /** Events set, deadlines passed, and the startup decision to run. */
  function Causes(acts: seq<Action>): nat {
    if acts == [] then 0
    else
      Causes(acts[..|acts| - 1])
      + (match acts[|acts| - 1]
         case AskManual => 1
         case AskSettings => 1
         case SignalClear => 1
         case Timeout => 1
         case Start(stale) => if stale then 1 else 0
         case _ => 0)
  }

  // Causes that have not led to a pass yet.
  function Pending(s: State): nat {
    (if s.manual then 1 else 0) + (if s.settings then 1 else 0) + (if s.pc.Beginning? then 1 else 0)
  }

  lemma CauseStep(s: State, a: Action)
    requires Enabled(s, a)
    ensures Pending(Next(s, a)) + (if a.BeginRun? then 1 else 0) <= Pending(s) + Causes([a])
  {
    assert [a][..0] == [];
  }

  /** Each signal, deadline or startup leads to one pass at most: an event is used up by the wake-up it causes. */
  lemma {:induction false} NoPassWithoutCause(ss: seq<State>, acts: seq<Action>, k: nat)
    requires Run(ss, acts) && k < |ss|
    ensures Begins(acts[..k]) + Pending(ss[k]) <= Causes(acts[..k])
  {
    hide Enabled, Next, Pending;
    if k == 0 {
      assert Pending(INITIAL) == 0 by { NothingPending(); }
    } else {
      NoPassWithoutCause(ss, acts, k - 1);
      StepAt(ss, acts, k - 1);
      CauseStep(ss[k - 1], acts[k - 1]);
      assert acts[..k][..k - 1] == acts[..k - 1];
      assert [acts[k - 1]][..0] == [];
    }
  }

  lemma NothingPending()
    ensures Pending(INITIAL) == 0
  {}

  // --- Stop ----------------------------------------------------------------------------

  function BeginsAfterStop(ss: seq<State>, acts: seq<Action>, k: nat): nat
    requires k <= |acts| && |ss| == |acts| + 1
  {
    if k == 0 then 0
    else BeginsAfterStop(ss, acts, k - 1) + (if acts[k - 1].BeginRun? && ss[k - 1].stop then 1 else 0)
  }

  /** At most one pass starts after stop is set. */
  lemma {:induction false} AtMostOneRunAfterStop(ss: seq<State>, acts: seq<Action>, k: nat)
    requires Run(ss, acts) && k < |ss|
    ensures BeginsAfterStop(ss, acts, k) == ss[k].runsAfterStop <= 1
  {
    RunInv(ss, acts, k);
    if k > 0 {
      AtMostOneRunAfterStop(ss, acts, k - 1);
      StepAt(ss, acts, k - 1);
    }
  }

  /** Once stopped, each worker step brings the exit closer; only the pass on its way still runs. */
  function ExitDistance(s: State, work: nat): nat {
    match s.pc
    case Startup => work + 7
    case Beginning => work + 6
    case Opening(w) => w + 5
    case Clearing(w) => w + 4
    case Working(w) => w + 3
    case Waiting => 1
    case Exited => 0
  }

  lemma StoppingEnds(s: State, a: Action, work: nat)
    requires Inv(s) && s.stop && Enabled(s, a)
    requires a.BeginRun? ==> a.work <= work
    ensures ExitDistance(Next(s, a), work) + (if IsWorker(a) then 1 else 0) <= ExitDistance(s, work)
    ensures Next(s, a).stop
  {}

  lemma {:induction false} CloserToExit(ss: seq<State>, acts: seq<Action>, i: nat, j: nat, work: nat)
    requires Run(ss, acts) && i <= j < |ss| && ss[i].stop
    requires forall k | i <= k < j && acts[k].BeginRun? :: acts[k].work <= work
    ensures ss[j].stop && WorkerSteps(acts[i..j]) + ExitDistance(ss[j], work) <= ExitDistance(ss[i], work)
    decreases j
  {
    hide Enabled, Next, Inv, IsWorker, ExitDistance;
    if i < j {
      var p := j - 1;
      StepAt(ss, acts, p);
      CloserToExit(ss, acts, i, p, work);
      RunInv(ss, acts, p);
      assert acts[i..j][..p - i] == acts[i..p];
      StoppingEnds(ss[p], acts[p], work);
    }
  }

  /**
   * Stop is bounded, so the join returns: after it is set the worker has exited within
   * ExitDistance of its own steps, and until then it always has a step to take.
   */
  lemma StopIsBounded(ss: seq<State>, acts: seq<Action>, i: nat, j: nat, work: nat)
    requires Run(ss, acts) && i <= j < |ss| && ss[i].stop
    requires forall k | i <= k < j && acts[k].BeginRun? :: acts[k].work <= work
    ensures WorkerSteps(acts[i..j]) >= ExitDistance(ss[i], work) ==> ss[j].pc.Exited?
    ensures !ss[j].pc.Exited? ==> exists a :: IsWorker(a) && Enabled(ss[j], a)
  {
    CloserToExit(ss, acts, i, j, work);
    var s := ss[j];
    var a :=
      match s.pc
      case Startup => Start(true)
      case Beginning => BeginRun(0)
      case Opening(_) => OpenDb(true)
      case Clearing(_) => TakeClear
      case Working(_) => Work
      case Waiting => Wake
      case Exited => AskStop;
    assert IsWorker(a) || s.pc.Exited?;
  }

  // --- The clear flag --------------------------------------------------------------------

  /** A stored flag stays set until an exchange takes it; nothing else resets it. */
  lemma {:induction false} ClearSurvives(ss: seq<State>, acts: seq<Action>, i: nat, j: nat)
    requires Run(ss, acts) && i <= j < |ss| && ss[i].clear
    ensures ss[j].clear || exists k :: i <= k < j && acts[k].TakeClear? && ss[k].clear
    decreases j
  {
    if i < j {
      ClearSurvives(ss, acts, i, j - 1);
      StepAt(ss, acts, j - 1);
      if !ss[j - 1].clear {
        var k :| i <= k < j - 1 && acts[k].TakeClear? && ss[k].clear;
        assert i <= k < j;
      }
    }
  }

  function Takes(ss: seq<State>, acts: seq<Action>, i: nat, j: nat): nat
    requires i <= j <= |acts| && |ss| == |acts| + 1
    decreases j
  {
    if j == i then 0
    else Takes(ss, acts, i, j - 1) + (if acts[j - 1].TakeClear? && ss[j - 1].clear then 1 else 0)
  }

  function Stores(acts: seq<Action>, i: nat, j: nat): nat
    requires i <= j <= |acts|
    decreases j
  {
    if j == i then 0 else Stores(acts, i, j - 1) + (if acts[j - 1].StoreClear? then 1 else 0)
  }

  /** Between two moments with no further store a pending clear is carried out at most once, exactly once if gone. */
  lemma {:induction false} ClearTakenOnce(ss: seq<State>, acts: seq<Action>, i: nat, j: nat)
    requires Run(ss, acts) && i <= j < |ss|
    requires Stores(acts, i, j) == 0
    ensures Takes(ss, acts, i, j) + (if ss[j].clear then 1 else 0) == (if ss[i].clear then 1 else 0)
    decreases j
  {
    if i < j {
      ClearTakenOnce(ss, acts, i, j - 1);
      StepAt(ss, acts, j - 1);
    }
  }

  lemma OpeningStep(s: State, a: Action)
    requires Enabled(s, a) && Next(s, a).pc.Opening?
    ensures a.BeginRun? || s.pc.Opening?
    ensures !a.TakeClear? && (s.clear ==> Next(s, a).clear)
  {}

  lemma StoreStep(s: State, a: Action)
    requires Enabled(s, a) && (a.StoreClear? || s.clear) && !(a.TakeClear? && s.clear)
    ensures Next(s, a).clear
  {}

  // Only a start of a pass leads to the opening of the database, and nothing is taken before it is open.
  lemma {:induction false} OpeningKeepsClear(ss: seq<State>, acts: seq<Action>, i: nat, p: nat)
    requires Run(ss, acts) && i < p < |ss| && acts[i].BeginRun? && ss[p].pc.Opening?
    requires forall k | i < k < p :: !acts[k].BeginRun?
    ensures Takes(ss, acts, i, p) == 0 && (ss[i].clear ==> ss[p].clear)
    decreases p
  {
    hide Enabled, Next;
    StepAt(ss, acts, p - 1);
    OpeningStep(ss[p - 1], acts[p - 1]);
    if i < p - 1 {
      OpeningKeepsClear(ss, acts, i, p - 1);
    }
  }

  lemma FailedOpenStep(s: State)
    requires Enabled(s, OpenDb(false))
    ensures s.pc.Opening? && Next(s, OpenDb(false)) == s.(pc := Waiting)
  {}

  // What was stored and not taken is still there.
  lemma {:induction false} StoredIsKept(ss: seq<State>, acts: seq<Action>, i: nat, j: nat)
    requires Run(ss, acts) && i <= j < |ss|
    requires Stores(acts, i, j) > 0 && Takes(ss, acts, i, j) == 0
    ensures ss[j].clear
    decreases j
  {
    hide Enabled, Next;
    StepAt(ss, acts, j - 1);
    if Stores(acts, i, j - 1) > 0 {
      StoredIsKept(ss, acts, i, j - 1);
    }
    StoreStep(ss[j - 1], acts[j - 1]);
  }

  /**
   * A pass that cannot open the database takes no clear request, from its start to
   * the worker's return to waiting and whatever the UI does meanwhile: a request
   * pending at its start, or stored during it, is pending at its end.
   */
  lemma FailedOpenKeepsClear(ss: seq<State>, acts: seq<Action>, i: nat, m: nat)
    requires Run(ss, acts) && i < m < |acts| && acts[i].BeginRun? && acts[m] == OpenDb(false)
    requires forall k | i < k < m :: !acts[k].BeginRun?
    ensures ss[m + 1].pc.Waiting?
    ensures Takes(ss, acts, i, m + 1) == 0
    ensures ss[i].clear || Stores(acts, i, m + 1) > 0 ==> ss[m + 1].clear
  {
    StepAt(ss, acts, m);
    FailedOpenStep(ss[m]);
    hide Enabled, Next;
    OpeningKeepsClear(ss, acts, i, m);
    if Stores(acts, i, m + 1) > 0 {
      StoredIsKept(ss, acts, i, m + 1);
    }
  }

  /**
   * A clear request is followed by a pass that starts later; and that pass finds the
   * flag set unless an earlier exchange, after the store, has taken it.
   */
  lemma ClearIsServed(ss: seq<State>, acts: seq<Action>, i: nat, m: nat, j: nat)
    requires Run(ss, acts) && i < m < j < |ss|
    requires acts[i].StoreClear? && acts[m].SignalClear?
    requires WorkerSteps(acts[m + 1..j]) >= Distance(ss[m + 1].pc)
    ensures ss[j].stop
            || exists k :: m < k < j && acts[k].BeginRun?
                           && (ss[k].clear || exists t :: i < t < k && acts[t].TakeClear? && ss[t].clear)
  {
    NoLostWakeUp(ss, acts, m, j);
    StepAt(ss, acts, i);
    if !ss[j].stop {
      var k :| m < k < j && acts[k].BeginRun?;
      ClearSurvives(ss, acts, i + 1, k);
    }
  }

  // --- The deadline ------------------------------------------------------------------------

  const INFINITE: nat := 0xFFFF_FFFF // also the largest DWORD

  predicate IsInterval(minutes: nat) {
    minutes in {0, 15, 30, 60, 120, 360}
  }

  function ResetDeadline(minutes: nat, now: nat): nat {
    if minutes == 0 then 0 else now + minutes * 60_000
  }

  function ComputeWaitMs(minutes: nat, deadline: nat, now: nat): nat {
    if minutes == 0 then INFINITE
    else if now >= deadline then 0
    else if deadline - now > INFINITE then INFINITE else deadline - now
  }

  /**
   * The wait in figures. After a pass that ended at `passed` under an interval of
   * `earlier` minutes, it ends exactly when these have gone by, and from then on it is
   * none; a change to another interval does not move that moment. After manual mode
   * the next wait under an interval is none. In manual mode it is unlimited.
   */
  lemma WaitIsExact(minutes: nat, earlier: nat, passed: nat, now: nat)
    requires IsInterval(minutes) && IsInterval(earlier) && passed <= now
    ensures var wait := ComputeWaitMs(minutes, ResetDeadline(earlier, passed), now);
            && (minutes != 0 && earlier != 0 && now < passed + earlier * 60_000 ==>
                  0 < wait < 0xFFFF_FFFF && now + wait == passed + earlier * 60_000)
            && (minutes != 0 && (earlier == 0 || passed + earlier * 60_000 <= now) ==> wait == 0)
            && (minutes == 0 ==> wait == 0xFFFF_FFFF)
  {}

  /**
   * The clamp to the largest DWORD is never mistaken for "wait for ever": with any
   * two settings, before and after a change, the wait is unlimited only in manual
   * mode, and otherwise ends no later than one interval after the last pass.
   */
  lemma WaitIsBounded(minutes: nat, earlier: nat, passed: nat, now: nat)
    requires IsInterval(minutes) && IsInterval(earlier) && passed <= now
    ensures ComputeWaitMs(minutes, ResetDeadline(earlier, passed), now) == INFINITE <==> minutes == 0
    ensures minutes != 0 ==>
              now + ComputeWaitMs(minutes, ResetDeadline(earlier, passed), now) <=
              (if now >= passed + earlier * 60_000 then now else passed + earlier * 60_000)
  {}
}
