// Schema steps (src/storage/Migrations.cpp), each in a transaction of its own.
// A version-1 file has no cursor column; its `cursor` is "".
module Migrations {
  import opened Text
  import opened Store
  import D = Database

  const TARGET_SCHEMA_VERSION: nat := 2

  /** SELECT MAX(financial_date). */
  function MaxDate(t: seq<DailyRow>): string {
    if t == [] then ""
    else
      var m, last := MaxDate(t[..|t| - 1]), t[|t| - 1].date;
      if LexLe(m, last) then last else m
  }

  lemma {:induction false} MaxDateIsMax(t: seq<DailyRow>)
    ensures forall r | r in t :: LexLe(r.date, MaxDate(t))
    ensures t != [] ==> exists r :: r in t && r.date == MaxDate(t)
  {
    if t != [] {
      var front, last := t[..|t| - 1], t[|t| - 1];
      MaxDateIsMax(front);
      assert t == front + [last];
      var m := MaxDate(front);
      LexTotal(m, last.date);
      LexRefl(last.date);
      forall r | r in t ensures LexLe(r.date, MaxDate(t)) {
        if r in front && LexLe(m, last.date) {
          LexTrans(r.date, m, last.date);
        }
      }
      assert last in t;
      if !LexLe(m, last.date) {
        assert front != [];
        var r :| r in front && r.date == m;
        assert r in t;
      }
    }
  }

  /** Version 2: a backfill in progress resumes after the newest stored date. */
  function Seeded(st: Store): Store {
    if st.mark == "0" && st.daily != [] then st.(cursor := MaxDate(st.daily)) else st
  }

  /** The database after bringing version `v` up to `w`. */
  function Upgraded(st: Store, v: nat, w: nat): Store {
    var one := if v < 1 <= w then FRESH_STORE else st;
    if v < 2 <= w then Seeded(one) else one
  }

  /** A schema script: what each of its statements does to the file. */
  type Script = seq<Store -> Store>

  /** The file after the first k statements. */
  function Applied(script: Script, st: Store, k: nat): Store
    requires k <= |script|
  {
    if k == 0 then st else script[k - 1](Applied(script, st, k - 1))
  }

  // Statements that leave what the model keeps of a file as it is.
  function Same(st: Store): Store { st }

  function InsertState(st: Store): Store { FRESH_STORE }

  function AddCursor(st: Store): Store { st.(cursor := "") }

  /** Four tables, two indices, the one row of sync_state, and the version. */
  function SchemaV1(): Script {
    [Same, Same, Same, Same, Same, Same, InsertState, Same]
  }

  /** The new column, NULL at first; its seeding; the version. */
  function SchemaV2(): Script {
    [AddCursor, Seeded, Same]
  }

  lemma SchemasApplied(st: Store)
    ensures Applied(SchemaV1(), st, |SchemaV1()|) == FRESH_STORE
    ensures st.cursor == "" ==> Applied(SchemaV2(), st, |SchemaV2()|) == Seeded(st)
  {
    hide Seeded;
    assert Applied(SchemaV1(), st, 7) == FRESH_STORE;
    var script := SchemaV2();
    assert Applied(script, st, 1) == AddCursor(st);
    assert Applied(script, st, 2) == Seeded(AddCursor(st));
  }

  /** The statements it takes to connect and to bring a file up to date. */
  function StatementsToOpen(version: nat): nat {
    1 + (if version < 1 then 9 else 0) + (if version < 2 then 4 else 0)
  }

  /** One schema script inside a transaction; its outcome is all or nothing. */
  method ApplyStep(db: D.Database, script: Script, version: nat) returns (ok: bool)
    requires db.Valid()
    modifies db`tick, db`work, db`disk, db`inTransaction, db`version, db`commits
    ensures db.Valid()
    ensures db.tick > old(db.tick) && ok == db.NoFaultSince(old(db.tick))
    ensures ok == D.AllSucceed(db.faults, old(db.tick), 1 + |script|)
    ensures ok ==> db.tick == old(db.tick) + 1 + |script|
    ensures db.disk == if ok then Applied(script, old(db.disk), |script|) else old(db.disk)
    ensures db.version == if ok then version else old(db.version)
    ensures db.commits == if ok then old(db.commits) + [D.Committed(db.disk, version)] else old(db.commits)
  {
    ok := db.Begin();
    if !ok {
      assert db.faults(old(db.tick));
      return;
    }
    for k := 0 to |script|
      invariant db.tick == old(db.tick) + 1 + k && db.NoFaultSince(old(db.tick))
      invariant db.disk == old(db.disk) && db.version == old(db.version) && db.commits == old(db.commits)
      invariant db.work == Applied(script, old(db.disk), k)
    {
      ok := db.Statement();
      if !ok {
        assert db.faults(db.tick - 1);
        db.Rollback();
        return;
      }
      db.work := script[k](db.work);
    }
    db.version := version;
    db.Commit();
    ok := true;
  }

  /** A file before migration holds nothing, or has no cursor yet. */
  ghost predicate WellFormed(st: Store, version: nat) {
    (version == 0 ==> st == FRESH_STORE) && (version == 1 ==> st.cursor == "")
  }

  /** Going up at all, a well-formed file is seeded; the empty schema is what it stood for. */
  lemma UpgradedIsSeeded(st: Store, v: nat, w: nat)
    requires WellFormed(st, v) && v < w <= TARGET_SCHEMA_VERSION
    ensures Upgraded(st, v, w) == Seeded(st)
  {}

  /**
   * What bringing a file from a version up to date means for it. An empty file gets
   * the empty cache. A version-1 file gets a cursor: in mid-backfill, with rows stored,
   * the newest date that has one, and else none. A newer file is left alone.
   */
  ghost predicate Migrated(was: Store, now: Store, version: nat) {
    if version == 0 then now == Store([], [], "0", "", "", "", "")
    else if version == 1 then
      && now == was.(cursor := now.cursor)
      && (if was.mark == "0" && was.daily != [] then
            && (exists r :: r in was.daily && r.date == now.cursor)
            && (forall r | r in was.daily :: LexLe(r.date, now.cursor))
          else now.cursor == "")
    else now == was
  }

  lemma UpgradedIsMigrated(st: Store, version: nat)
    requires WellFormed(st, version)
    ensures Migrated(st, Upgraded(st, version, if version < 2 then 2 else version), version)
  {
    hide MaxDate;
    MaxDateIsMax(st.daily);
  }

  /** What migrating adds to the commits: the empty schema on the way, the final state. */
  ghost predicate CommitsOf(before: seq<D.Committed>, after: seq<D.Committed>, version: nat, disk: Store) {
    && before <= after
    && forall k | |before| <= k < |after| ::
         && WellFormed(after[k].store, after[k].version)
         && (after[k].store == disk || (version == 0 && after[k].store == FRESH_STORE))
  }

  /**
   * Ends at the target or at the last step that applied; an up-to-date or newer
   * file is left alone without executing anything.
   */
  method ApplyMigrations(db: D.Database) returns (ok: bool)
    requires db.Valid() && WellFormed(db.disk, db.version)
    modifies db`tick, db`work, db`disk, db`inTransaction, db`version, db`commits
    ensures db.Valid() && db.tick >= old(db.tick)
    ensures old(db.version) <= db.version && (db.version > old(db.version) ==> db.version <= TARGET_SCHEMA_VERSION)
    ensures db.disk == Upgraded(old(db.disk), old(db.version), db.version)
    ensures ok <==> db.version >= TARGET_SCHEMA_VERSION
    ensures ok ==> db.version >= 2 && Migrated(old(db.disk), db.disk, old(db.version))
    ensures ok <==> db.NoFaultSince(old(db.tick))
    ensures ok <==> D.AllSucceed(db.faults, old(db.tick), StatementsToOpen(old(db.version)) - 1)
    ensures ok ==> db.tick == old(db.tick) + StatementsToOpen(old(db.version)) - 1
    ensures CommitsOf(old(db.commits), db.commits, old(db.version), db.disk)
    ensures db.version == old(db.version) ==> db.commits == old(db.commits)
    ensures !ok ==> db.disk == old(db.disk)
    ensures WellFormed(db.disk, db.version)
  {
    var version := db.version;
    SchemasApplied(db.disk);
    SchemasApplied(FRESH_STORE);
    UpgradedIsMigrated(db.disk, version);
    if version < 1 {
      var stepped := ApplyStep(db, SchemaV1(), 1);
      if !stepped {
        return false;
      }
      version := 1;
    }
    if version < 2 {
      var stepped := ApplyStep(db, SchemaV2(), 2);
      if !stepped {
        return false;
      }
      version := 2;
    }
    ok := version >= TARGET_SCHEMA_VERSION;
  }

  /** Open: connect, migrate, and close again when the schema cannot be brought up to date. */
  method Open(db: D.Database) returns (ok: bool)
    requires db.Valid() && WellFormed(db.disk, db.version)
    modifies db`tick, db`work, db`disk, db`inTransaction, db`version, db`commits, db`isOpen
    ensures db.Valid() && db.tick >= old(db.tick) && db.isOpen == ok
    ensures db.disk == Upgraded(old(db.disk), old(db.version), db.version)
    ensures ok ==> db.version >= TARGET_SCHEMA_VERSION
    ensures ok ==> db.version >= 2 && Migrated(old(db.disk), db.disk, old(db.version))
    ensures ok <==> db.NoFaultSince(old(db.tick))
    ensures ok <==> D.AllSucceed(db.faults, old(db.tick), StatementsToOpen(old(db.version)))
    ensures ok ==> db.tick == old(db.tick) + StatementsToOpen(old(db.version))
    ensures CommitsOf(old(db.commits), db.commits, old(db.version), db.disk)
    ensures db.version == old(db.version) ==> db.commits == old(db.commits)
    ensures !ok ==> db.disk == old(db.disk)
    ensures old(db.version) <= db.version && WellFormed(db.disk, db.version)
    ensures db.version > old(db.version) ==> db.version <= TARGET_SCHEMA_VERSION
  {
    db.isOpen := false;
    ok := db.Statement();
    assert !ok ==> db.faults(old(db.tick));
    if ok {
      ok := ApplyMigrations(db);
      db.isOpen := ok;
    }
  }

  /** Interrupted migrations taken up again end where an uninterrupted one ends. */
  lemma UpgradeInStages(st: Store, v: nat, mid: nat, w: nat)
    requires v <= mid <= w
    ensures Upgraded(Upgraded(st, v, mid), mid, w) == Upgraded(st, v, w)
  {}
}
