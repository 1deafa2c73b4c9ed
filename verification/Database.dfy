// One SQLite connection (src/storage/Database.cpp), statement by statement.
// Any statement may fail: `faults(i)` says whether the i-th one does. COMMIT and
// ROLLBACK always succeed. `disk` is what a crash leaves behind.
module Database {
  import opened Aggregator
  import opened Store

  predicate HasKey(t: seq<DailyRow>, d: string, app: int) {
    exists i | 0 <= i < |t| :: t[i].date == d && t[i].app == app
  }

  /** A database file as a commit leaves it. */
  datatype Committed = Committed(store: Store, version: nat)

  /** None of the `count` statements from number `start` on fails. */
  ghost predicate AllSucceed(faults: nat -> bool, start: nat, count: nat) {
    forall i | start <= i < start + count :: !faults(i)
  }

  /** BEGIN IMMEDIATE, two deletions and an update. */
  const CLEAR_STATEMENTS: nat := 4

  class Database {
    var isOpen: bool
    var version: nat // schema_version, 0 while the table is absent
    var disk: Store // the last committed state
    var work: Store // what this connection sees
    var inTransaction: bool
    var tick: nat // statements executed so far
    ghost var commits: seq<Committed> // every state committed so far, the last being `disk`
    const faults: nat -> bool

    ghost predicate Valid()
      reads this
    {
      !inTransaction && work == disk
    }

    /** No statement with a number from `start` up to now has failed. */
    ghost predicate NoFaultSince(start: nat)
      reads this
    {
      forall i | start <= i < tick :: !faults(i)
    }

    constructor (faults: nat -> bool, version: nat, store: Store)
      ensures Valid() && !isOpen && disk == store && this.version == version && this.faults == faults
      ensures tick == 0 && commits == []
    {
      this.faults, this.version, this.commits := faults, version, [];
      isOpen, disk, work, inTransaction, tick := false, store, store, false, 0;
    }

    method Statement() returns (ok: bool)
      modifies this`tick
      ensures tick == old(tick) + 1 && ok == !faults(old(tick))
    {
      ok := !faults(tick);
      tick := tick + 1;
    }

    /** BEGIN IMMEDIATE; refused inside a transaction. */
    method Begin() returns (ok: bool)
      requires Valid()
      modifies this`tick, this`inTransaction
      ensures tick == old(tick) + 1 && ok == !faults(old(tick))
      ensures inTransaction == ok
    {
      ok := Statement();
      inTransaction := ok;
    }

    method Rollback()
      modifies this`work, this`inTransaction
      ensures Valid()
    {
      work, inTransaction := disk, false;
    }

    method Commit()
      modifies this`disk, this`inTransaction, this`commits
      ensures Valid() && disk == old(work) && commits == old(commits) + [Committed(disk, version)]
    {
      disk, inTransaction, commits := work, false, commits + [Committed(work, version)];
    }

    /** INSERT INTO daily_product_sales under its primary and foreign key. */
    method InsertDaily(row: DailyRow) returns (ok: bool)
      modifies this`tick, this`work
      ensures tick == old(tick) + 1
      ensures ok == (!faults(old(tick)) && !HasKey(old(work.daily), row.date, row.app)
                     && HasProduct(old(work.products), row.app))
      ensures work == if ok then old(work).(daily := old(work.daily) + [row]) else old(work)
    {
      ok := Statement();
      ok := ok && !HasKey(work.daily, row.date, row.app) && HasProduct(work.products, row.app);
      if ok {
        work := work.(daily := work.daily + [row]);
      }
    }

    /** One turn of the insert loop: upsert the product, insert the daily row. */
    method StoreRow(date: string, row: SalesRow, nowUtc: string) returns (ok: bool)
      modifies this`tick, this`work
      ensures old(tick) < tick
      ensures ok ==> exists r, p :: Holds(r, date, row) && Names(p, row, nowUtc)
                                    && work == old(work).(daily := old(work.daily) + [r],
                                                          products := Upsert(old(work.products), p))
      ensures ok <==> NoFaultSince(old(tick)) && !HasKey(old(work.daily), date, row.app)
      ensures ok ==> work == WithRow(old(work), date, row, nowUtc)
    {
      ok := Statement();
      if !ok {
        assert faults(old(tick));
        return;
      }
      work := work.(products := Upsert(work.products, ProductFor(row, nowUtc)));
      ok := InsertDaily(DailyRow(date, row.app, row.gross, row.returned, row.net));
    }

    /** DELETE the date's rows and prepare the two statements of the loop. */
    method DeleteDate(date: string) returns (ok: bool)
      modifies this`tick, this`work
      ensures old(tick) < tick
      ensures ok <==> NoFaultSince(old(tick))
      ensures ok ==> work == old(work).(daily := Without(old(work.daily), date))
    {
      ok := Statement();
      if ok {
        ok := Statement();
      }
      if ok {
        work := work.(daily := Without(work.daily, date));
        ok := Statement();
      }
      if ok {
        ok := Statement();
      }
      assert !ok ==> faults(tick - 1);
    }

    /** Replaces one date in a single transaction, rolled back on any error. */
    method ReplaceDate(date: string, rows: seq<SalesRow>, nowUtc: string) returns (ok: bool)
      requires Valid()
      modifies this`tick, this`work, this`disk, this`inTransaction, this`commits
      ensures Valid() && tick >= old(tick)
      ensures commits == if ok then old(commits) + [Committed(disk, version)] else old(commits)
      ensures disk == if ok then Replaced(old(disk), date, rows, nowUtc) else old(disk)
      ensures ok ==> Replaces(old(disk), disk, date, rows, nowUtc)
      ensures ok <==> isOpen && DistinctApps(rows) && NoFaultSince(old(tick))
    {
      hide Replaces;
      if !isOpen {
        return false;
      }
      ok := Begin();
      if !ok {
        assert faults(old(tick));
        return;
      }
      ok := DeleteDate(date);
      if !ok {
        Rollback();
        return;
      }
      assert ToDaily(date, rows[..0]) == [];
      for k := 0 to |rows|
        invariant tick > old(tick) && disk == old(disk) && commits == old(commits) && ok
        invariant work == Replaced(old(disk), date, rows[..k], nowUtc)
        invariant NoFaultSince(old(tick)) && DistinctApps(rows[..k])
      {
        ReplacedStep(disk, date, rows, nowUtc, k);
        KeyClash(disk, date, rows, nowUtc, k);
        DistinctStep(rows, k);
        ok := StoreRow(date, rows[k], nowUtc);
        if !ok {
          Rollback();
          return;
        }
      }
      assert rows[..|rows|] == rows;
      ReplacedReplaces(disk, date, rows, nowUtc);
      Commit();
    }

    /** Empties the cache and resets the progress columns in one transaction. */
    method ClearAllSales() returns (ok: bool)
      requires Valid()
      modifies this`tick, this`work, this`disk, this`inTransaction, this`commits
      ensures Valid() && tick >= old(tick)
      ensures commits == if ok then old(commits) + [Committed(disk, version)] else old(commits)
      ensures disk == if ok then Cleared(old(disk)) else old(disk)
      ensures ok ==> disk == old(disk).(daily := [], products := [], mark := "0", synced := "", cursor := "")
      ensures ok <==> isOpen && NoFaultSince(old(tick))
      ensures ok <==> isOpen && AllSucceed(faults, old(tick), CLEAR_STATEMENTS)
    {
      if !isOpen {
        return false;
      }
      ok := Begin();
      if !ok {
        assert faults(old(tick));
        return;
      }
      ok := Statement();
      if ok {
        work := work.(daily := []);
        ok := Statement();
      }
      if ok {
        work := work.(products := []);
        ok := Statement();
      }
      if !ok {
        assert faults(tick - 1);
        Rollback();
        return;
      }
      work := work.(mark := "0", synced := "", cursor := "");
      Commit();
    }

    /** UPDATE sync_state SET ... outside any transaction commits by itself. */
    method SetState(updated: Store) returns (ok: bool)
      requires Valid()
      modifies this`tick, this`work, this`disk, this`commits
      ensures Valid() && tick == old(tick) + 1 && ok == !faults(old(tick))
      ensures commits == if ok then old(commits) + [Committed(disk, version)] else old(commits)
      ensures disk == if ok then updated else old(disk)
    {
      ok := Statement();
      if ok {
        work, disk, commits := updated, updated, commits + [Committed(updated, version)];
      }
    }

    method SetChangedDatesHighwatermark(mark: string) returns (ok: bool)
      requires Valid()
      modifies this`tick, this`work, this`disk, this`commits
      ensures Valid() && tick == old(tick) + 1 && ok == !faults(old(tick))
      ensures commits == if ok then old(commits) + [Committed(disk, version)] else old(commits)
      ensures disk == if ok then old(disk).(mark := mark) else old(disk)
    {
      ok := SetState(disk.(mark := mark));
    }

    method SetBackfillCursor(date: string) returns (ok: bool)
      requires Valid()
      modifies this`tick, this`work, this`disk, this`commits
      ensures Valid() && tick == old(tick) + 1 && ok == !faults(old(tick))
      ensures commits == if ok then old(commits) + [Committed(disk, version)] else old(commits)
      ensures disk == if ok then old(disk).(cursor := date) else old(disk)
    {
      ok := SetState(disk.(cursor := date));
    }

    method SetLastSuccessfulCheckUtc(utc: string) returns (ok: bool)
      requires Valid()
      modifies this`tick, this`work, this`disk, this`commits
      ensures Valid() && tick == old(tick) + 1 && ok == !faults(old(tick))
      ensures commits == if ok then old(commits) + [Committed(disk, version)] else old(commits)
      ensures disk == if ok then old(disk).(checked := utc) else old(disk)
    {
      ok := SetState(disk.(checked := utc));
    }

    method SetLastSuccessfulSyncUtc(utc: string) returns (ok: bool)
      requires Valid()
      modifies this`tick, this`work, this`disk, this`commits
      ensures Valid() && tick == old(tick) + 1 && ok == !faults(old(tick))
      ensures commits == if ok then old(commits) + [Committed(disk, version)] else old(commits)
      ensures disk == if ok then old(disk).(synced := utc) else old(disk)
    {
      ok := SetState(disk.(synced := utc));
    }

    method SetLastError(message: string) returns (ok: bool)
      requires Valid()
      modifies this`tick, this`work, this`disk, this`commits
      ensures Valid() && tick == old(tick) + 1 && ok == !faults(old(tick))
      ensures commits == if ok then old(commits) + [Committed(disk, version)] else old(commits)
      ensures disk == if ok then old(disk).(error := message) else old(disk)
    {
      ok := SetState(disk.(error := message));
    }
  }

  function WithRow(st: Store, d: string, row: SalesRow, now: string): Store {
    st.(daily := st.daily + [DailyRow(d, row.app, row.gross, row.returned, row.net)],
        products := Upsert(st.products, ProductFor(row, now)))
  }

  // The loop of ReplaceDate extends the replacement by one row ...
  lemma ReplacedStep(st: Store, d: string, rows: seq<SalesRow>, now: string, k: nat)
    requires k < |rows|
    ensures Replaced(st, d, rows[..k + 1], now) == WithRow(Replaced(st, d, rows[..k], now), d, rows[k], now)
  {
    assert rows[..k + 1][..k] == rows[..k];
    assert ToDaily(d, rows[..k + 1]) ==
           ToDaily(d, rows[..k]) + [DailyRow(d, rows[k].app, rows[k].gross, rows[k].returned, rows[k].net)];
    assert Without(st.daily, d) + ToDaily(d, rows[..k + 1]) ==
           Replaced(st, d, rows[..k], now).daily
           + [DailyRow(d, rows[k].app, rows[k].gross, rows[k].returned, rows[k].net)];
  }

  lemma DistinctStep(rows: seq<SalesRow>, k: nat)
    requires k < |rows| && DistinctApps(rows[..k])
    ensures DistinctApps(rows[..k + 1]) <==> !HasApp(rows[..k], rows[k].app)
    ensures DistinctApps(rows) ==> DistinctApps(rows[..k + 1])
  {}

  // ... and meets the primary key exactly when the row's app came up before.
  lemma KeyClash(st: Store, d: string, rows: seq<SalesRow>, now: string, k: nat)
    requires k < |rows|
    ensures HasKey(Replaced(st, d, rows[..k], now).daily, d, rows[k].app) <==>
            HasApp(rows[..k], rows[k].app)
  {
    var kept, added := Without(st.daily, d), ToDaily(d, rows[..k]);
    WithoutMembers(st.daily, d);
    assert forall i | 0 <= i < |kept| :: kept[i] in kept;
    if HasApp(rows[..k], rows[k].app) {
      var i :| 0 <= i < k && rows[..k][i].app == rows[k].app;
      assert (kept + added)[|kept| + i] == added[i];
    }
    if HasKey(kept + added, d, rows[k].app) {
      var i :| 0 <= i < |kept + added| && (kept + added)[i].date == d && (kept + added)[i].app == rows[k].app;
      assert i >= |kept|;
      assert added[i - |kept|] == (kept + added)[i];
      assert rows[..k][i - |kept|].app == rows[k].app;
    }
  }
}
