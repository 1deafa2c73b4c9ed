// Raw line items to one row per product (src/sync/SalesAggregator.cpp).
module Aggregator {

  datatype SalesRecord = SalesRecord(
    lineItemType: string, packageSaleType: string,
    app: int, name: string, net: int, gross: int, returned: int)

  /** One aggregated row of a financial date, ready to be stored. */
  datatype SalesRow = SalesRow(app: int, name: string, net: int, gross: int, returned: int)

  /** Steam store package sales with a product identity; everything else is dropped. */
  predicate Counts(r: SalesRecord) {
    r.lineItemType == "Package" && r.packageSaleType == "Steam" && r.app != 0
  }

  predicate CountsFor(r: SalesRecord, app: int) {
    Counts(r) && r.app == app
  }

  // --- Specification: each figure of a product, read off the records alone -----

  datatype Figure = Net | Gross | Returned

  function FigureOf(r: SalesRecord, f: Figure): int {
    match f
    case Net => r.net
    case Gross => r.gross
    case Returned => r.returned
  }

  function Contribution(r: SalesRecord, app: int, f: Figure): int {
    if CountsFor(r, app) then FigureOf(r, f) else 0
  }

  /** The sum of one figure over the counted records of one product. */
  function Total(rs: seq<SalesRecord>, app: int, f: Figure): int {
    if rs == [] then 0
    else Total(rs[..|rs| - 1], app, f) + Contribution(rs[|rs| - 1], app, f)
  }

  /** The last non-empty name among the counted records of one product. */
  function NameOf(rs: seq<SalesRecord>, app: int): string {
    if rs == [] then ""
    else
      var last := rs[|rs| - 1];
      if CountsFor(last, app) && last.name != "" then last.name
      else NameOf(rs[..|rs| - 1], app)
  }

  /** The products of the counted records in order of first appearance. */
  function Apps(rs: seq<SalesRecord>): seq<int> {
    if rs == [] then []
    else
      var before := Apps(rs[..|rs| - 1]);
      var last := rs[|rs| - 1];
      if Counts(last) && last.app !in before then before + [last.app] else before
  }

  function RowOf(rs: seq<SalesRecord>, app: int): SalesRow {
    SalesRow(app, NameOf(rs, app), Total(rs, app, Net), Total(rs, app, Gross), Total(rs, app, Returned))
  }

  function Aggregated(rs: seq<SalesRecord>): seq<SalesRow> {
    seq(|Apps(rs)|, i requires 0 <= i < |Apps(rs)| => RowOf(rs, Apps(rs)[i]))
  }

  ghost predicate DistinctApps(rows: seq<SalesRow>) {
    forall i, j | 0 <= i < j < |rows| :: rows[i].app != rows[j].app
  }

  lemma {:induction false} AppsAreDistinctAndCounted(rs: seq<SalesRecord>)
    ensures forall i, j | 0 <= i < j < |Apps(rs)| :: Apps(rs)[i] != Apps(rs)[j]
    ensures forall a :: a in Apps(rs) <==> exists r :: r in rs && CountsFor(r, a)
  {
    if rs != [] {
      var front, last := rs[..|rs| - 1], rs[|rs| - 1];
      AppsAreDistinctAndCounted(front);
      assert rs == front + [last];
      forall a ensures a in Apps(rs) <==> exists r :: r in rs && CountsFor(r, a) {
        if a in Apps(rs) && a !in Apps(front) {
          assert last in rs && CountsFor(last, a);
        }
        if r :| r in rs && CountsFor(r, a) {
          assert r in front || r == last;
        }
      }
    }
  }

  /** No two rows share an app, and no row is without identity: the primary key cannot clash. */
  lemma {:induction false} AggregatedIsKeyed(rs: seq<SalesRecord>)
    ensures DistinctApps(Aggregated(rs))
    ensures forall row | row in Aggregated(rs) :: row.app != 0
  {
    AppsAreDistinctAndCounted(rs);
    forall row | row in Aggregated(rs) ensures row.app != 0 {
      assert row.app in Apps(rs);
    }
  }

  // --- The loop ---------------------------------------------------------------

  /** Groups in one pass through an index map, exactly as the source does. */
  method AggregateDate(records: seq<SalesRecord>) returns (rows: seq<SalesRow>)
    ensures rows == Aggregated(records)
  {
    rows := [];
    var indexByApp: map<int, nat> := map[];
    for k := 0 to |records|
      invariant rows == Aggregated(records[..k])
      invariant forall a :: a in indexByApp <==> a in Apps(records[..k])
      invariant forall a | a in indexByApp ::
          indexByApp[a] < |rows| && Apps(records[..k])[indexByApp[a]] == a
    {
      var rec := records[k];
      ghost var done := records[..k];
      assert records[..k + 1] == done + [rec];
      if !Counts(rec) {
        SkippedRecord(done, rec);
        continue;
      }
      if rec.app !in indexByApp {
        NewApp(done, rec);
        indexByApp := indexByApp[rec.app := |rows|];
        rows := rows + [SalesRow(rec.app, rec.name, rec.net, rec.gross, rec.returned)];
      } else {
        var i := indexByApp[rec.app];
        KnownApp(done, rec, i);
        rows := rows[i := Accumulate(rows[i], rec)];
      }
    }
    assert records[..|records|] == records;
  }

  // The update of a row that exists already; a nameless record keeps the name.
  function Accumulate(row: SalesRow, rec: SalesRecord): SalesRow {
    SalesRow(row.app, if rec.name != "" then rec.name else row.name,
             row.net + rec.net, row.gross + rec.gross, row.returned + rec.returned)
  }

  // How one more record changes the row of any product.
  lemma {:induction false} RowStep(rs: seq<SalesRecord>, rec: SalesRecord, app: int)
    ensures RowOf(rs + [rec], app) ==
            if CountsFor(rec, app) then Accumulate(RowOf(rs, app), rec) else RowOf(rs, app)
  {}

  lemma {:induction false} AppsStep(rs: seq<SalesRecord>, rec: SalesRecord)
    ensures Apps(rs + [rec]) ==
            if Counts(rec) && rec.app !in Apps(rs) then Apps(rs) + [rec.app] else Apps(rs)
  {}

  lemma {:induction false} SkippedRecord(rs: seq<SalesRecord>, rec: SalesRecord)
    requires !Counts(rec)
    ensures Apps(rs + [rec]) == Apps(rs) && Aggregated(rs + [rec]) == Aggregated(rs)
  {}

  lemma {:induction false} NewApp(rs: seq<SalesRecord>, rec: SalesRecord)
    requires Counts(rec) && rec.app !in Apps(rs)
    ensures Apps(rs + [rec]) == Apps(rs) + [rec.app]
    ensures Aggregated(rs + [rec]) ==
            Aggregated(rs) + [SalesRow(rec.app, rec.name, rec.net, rec.gross, rec.returned)]
  {
    AppsStep(rs, rec);
    AppsAreDistinctAndCounted(rs);
    AbsentApp(rs, rec.app);
    RowStep(rs, rec, rec.app);
    forall i | 0 <= i < |Apps(rs)| ensures Aggregated(rs + [rec])[i] == Aggregated(rs)[i] {
      RowStep(rs, rec, Apps(rs)[i]);
      assert Apps(rs)[i] in Apps(rs);
    }
  }

  lemma {:induction false} KnownApp(rs: seq<SalesRecord>, rec: SalesRecord, i: nat)
    requires Counts(rec) && i < |Apps(rs)| && Apps(rs)[i] == rec.app
    ensures Apps(rs + [rec]) == Apps(rs)
    ensures Aggregated(rs + [rec]) == Aggregated(rs)[i := Accumulate(Aggregated(rs)[i], rec)]
  {
    AppsStep(rs, rec);
    AppsAreDistinctAndCounted(rs);
    forall j | 0 <= j < |Apps(rs)|
      ensures Aggregated(rs + [rec])[j] == Aggregated(rs)[i := Accumulate(Aggregated(rs)[i], rec)][j]
    {
      RowStep(rs, rec, Apps(rs)[j]);
    }
  }

  /**
   * What each further record does to the rows: a record of another line-item or
   * package type, or without an app id, nothing; the first record of an app adds a row
   * with its own figures at the end; a later one adds its figures to that app's row
   * and, if it has a name, renames it.
   */
  lemma {:induction false} AggregateGrows(rs: seq<SalesRecord>, rec: SalesRecord)
    ensures var rows, more := Aggregated(rs), Aggregated(rs + [rec]);
            if rec.lineItemType != "Package" || rec.packageSaleType != "Steam" || rec.app == 0 then more == rows
            else if forall i | 0 <= i < |rows| :: rows[i].app != rec.app then
              more == rows + [SalesRow(rec.app, rec.name, rec.net, rec.gross, rec.returned)]
            else exists i | 0 <= i < |rows| :: rows[i].app == rec.app && |more| == |rows| && GrownAt(rows, more, rec, i)
    ensures Aggregated([]) == []
  {
    var rows := Aggregated(rs);
    if !Counts(rec) {
      SkippedRecord(rs, rec);
    } else if rec.app !in Apps(rs) {
      NewApp(rs, rec);
      assert forall i | 0 <= i < |rows| :: rows[i].app == Apps(rs)[i] && Apps(rs)[i] in Apps(rs);
    } else {
      var i :| 0 <= i < |Apps(rs)| && Apps(rs)[i] == rec.app;
      KnownApp(rs, rec, i);
      assert rows[i].app == rec.app && GrownAt(rows, Aggregated(rs + [rec]), rec, i);
    }
  }

  /** Row i has taken in the record, the others are as they were. */
  ghost predicate GrownAt(rows: seq<SalesRow>, more: seq<SalesRow>, rec: SalesRecord, i: nat)
    requires i < |rows| == |more|
  {
    && more[i].app == rec.app && more[i].net == rows[i].net + rec.net
    && more[i].gross == rows[i].gross + rec.gross && more[i].returned == rows[i].returned + rec.returned
    && more[i].name == (if rec.name != "" then rec.name else rows[i].name)
    && forall j | 0 <= j < |rows| && j != i :: more[j] == rows[j]
  }

  /** Net units of the records that count, whatever their product. */
  function NetOfCounted(rs: seq<SalesRecord>): int {
    if rs == [] then 0
    else
      var last := rs[|rs| - 1];
      NetOfCounted(rs[..|rs| - 1])
      + (if last.lineItemType == "Package" && last.packageSaleType == "Steam" && last.app != 0 then last.net else 0)
  }

  function NetOfRows(rows: seq<SalesRow>): int {
    if rows == [] then 0 else NetOfRows(rows[..|rows| - 1]) + rows[|rows| - 1].net
  }

  lemma {:induction false} NetOfUpdate(rows: seq<SalesRow>, i: nat, row: SalesRow)
    requires i < |rows|
    ensures NetOfRows(rows[i := row]) == NetOfRows(rows) + row.net - rows[i].net
  {
    var front := rows[..|rows| - 1];
    if i == |rows| - 1 {
      assert rows[i := row][..|rows| - 1] == front;
    } else {
      NetOfUpdate(front, i, row);
      assert rows[i := row][..|rows| - 1] == front[i := row];
    }
  }

  /** No net unit is lost or invented: the rows hold the net units of the counted records. */
  lemma {:induction false} RowsHoldNet(rs: seq<SalesRecord>)
    ensures NetOfRows(Aggregated(rs)) == NetOfCounted(rs)
  {
    if rs != [] {
      var front, rec := rs[..|rs| - 1], rs[|rs| - 1];
      var rows, more := Aggregated(front), Aggregated(rs);
      RowsHoldNet(front);
      AggregateGrows(front, rec);
      assert rs == front + [rec];
      hide Aggregated, Apps;
      if rec.lineItemType == "Package" && rec.packageSaleType == "Steam" && rec.app != 0 {
        if forall i | 0 <= i < |rows| :: rows[i].app != rec.app {
          assert more[..|more| - 1] == rows;
        } else {
          var i :| 0 <= i < |rows| && rows[i].app == rec.app && |more| == |rows| && GrownAt(rows, more, rec, i);
          NetOfUpdate(rows, i, more[i]);
          assert more == rows[i := more[i]];
        }
      }
    }
  }

  lemma {:induction false} AbsentApp(rs: seq<SalesRecord>, app: int)
    requires forall r | r in rs :: !CountsFor(r, app)
    ensures RowOf(rs, app) == SalesRow(app, "", 0, 0, 0)
  {
    if rs != [] {
      var front := rs[..|rs| - 1];
      assert forall r | r in front :: r in rs;
      AbsentApp(front, app);
    }
  }

  // --- Pages ------------------------------------------------------------------

  lemma {:induction false} TotalConcat(a: seq<SalesRecord>, b: seq<SalesRecord>, app: int, f: Figure)
    ensures Total(a + b, app, f) == Total(a, app, f) + Total(b, app, f)
  {
    if b == [] {
      assert a + b == a;
    } else {
      var front := b[..|b| - 1];
      assert (a + b)[..|a + b| - 1] == a + front;
      TotalConcat(a, front, app, f);
    }
  }

  lemma {:induction false} NameConcat(a: seq<SalesRecord>, b: seq<SalesRecord>, app: int)
    ensures NameOf(a + b, app) == if NameOf(b, app) != "" then NameOf(b, app) else NameOf(a, app)
  {
    if b == [] {
      assert a + b == a;
    } else {
      NameConcat(a, b[..|b| - 1], app);
      assert (a + b)[..|a + b| - 1] == a + b[..|b| - 1];
    }
  }

  /** First-seen order of two pages: the second page adds only what the first lacked. */
  function Added(known: seq<int>, more: seq<int>): seq<int> {
    if more == [] then known
    else
      var before := Added(known, more[..|more| - 1]);
      if more[|more| - 1] in before then before else before + [more[|more| - 1]]
  }

  lemma {:induction false} AddedMembers(known: seq<int>, more: seq<int>)
    ensures forall a :: a in Added(known, more) <==> a in known || a in more
  {
    if more != [] {
      AddedMembers(known, more[..|more| - 1]);
      assert more == more[..|more| - 1] + [more[|more| - 1]];
    }
  }

  lemma AddedAppend(known: seq<int>, more: seq<int>, a: int)
    ensures Added(known, more + [a]) ==
            if a in known || a in more then Added(known, more) else Added(known, more) + [a]
  {
    AddedMembers(known, more);
    assert (more + [a])[..|more|] == more;
  }

  lemma {:induction false} AppsConcat(a: seq<SalesRecord>, b: seq<SalesRecord>)
    ensures Apps(a + b) == Added(Apps(a), Apps(b))
  {
    if b == [] {
      assert a + b == a;
    } else {
      hide Counts, Apps, Added;
      var front, last := b[..|b| - 1], b[|b| - 1];
      AppsConcat(a, front);
      assert a + b == (a + front) + [last] && b == front + [last];
      AppsStep(a + front, last);
      AppsStep(front, last);
      AddedMembers(Apps(a), Apps(front));
      AddedAppend(Apps(a), Apps(front), last.app);
    }
  }

  ghost predicate HasApp(rows: seq<SalesRow>, app: int) {
    exists i | 0 <= i < |rows| :: rows[i].app == app
  }

  /** The row of an app, or the neutral row when there is none. */
  ghost function RowFor(rows: seq<SalesRow>, app: int): SalesRow {
    if HasApp(rows, app) then
      var i :| 0 <= i < |rows| && rows[i].app == app;
      rows[i]
    else SalesRow(app, "", 0, 0, 0)
  }

  ghost function AppColumn(rows: seq<SalesRow>): seq<int> {
    seq(|rows|, i requires 0 <= i < |rows| => rows[i].app)
  }

  ghost function Combined(x: SalesRow, y: SalesRow): SalesRow {
    SalesRow(x.app, if y.name != "" then y.name else x.name,
             x.net + y.net, x.gross + y.gross, x.returned + y.returned)
  }

  /** Merging two page aggregates knows nothing of the records behind them. */
  ghost function Merged(x: seq<SalesRow>, y: seq<SalesRow>): seq<SalesRow> {
    var apps := Added(AppColumn(x), AppColumn(y));
    seq(|apps|, i requires 0 <= i < |apps| => Combined(RowFor(x, apps[i]), RowFor(y, apps[i])))
  }

  lemma {:induction false} RowForAggregated(rs: seq<SalesRecord>, app: int)
    ensures RowFor(Aggregated(rs), app) == RowOf(rs, app)
    ensures AppColumn(Aggregated(rs)) == Apps(rs)
  {
    AppsAreDistinctAndCounted(rs);
    if app in Apps(rs) {
      var i :| 0 <= i < |Apps(rs)| && Apps(rs)[i] == app;
      assert Aggregated(rs)[i].app == app;
    } else {
      AbsentApp(rs, app);
      assert forall i | 0 <= i < |Apps(rs)| :: Apps(rs)[i] in Apps(rs);
    }
  }

  /** Aggregating all pages at once is merging the aggregates of the pages. */
  lemma {:induction false} AggregateOfPages(a: seq<SalesRecord>, b: seq<SalesRecord>)
    ensures Aggregated(a + b) == Merged(Aggregated(a), Aggregated(b))
  {
    AppsConcat(a, b);
    RowForAggregated(a, 0);
    RowForAggregated(b, 0);
    var apps := Apps(a + b);
    forall i | 0 <= i < |apps|
      ensures Aggregated(a + b)[i] == Merged(Aggregated(a), Aggregated(b))[i]
    {
      RowForAggregated(a, apps[i]);
      RowForAggregated(b, apps[i]);
      TotalConcat(a, b, apps[i], Net);
      TotalConcat(a, b, apps[i], Gross);
      TotalConcat(a, b, apps[i], Returned);
      NameConcat(a, b, apps[i]);
    }
  }

  // --- Order of records ---------------------------------------------------------

  lemma {:induction false} TotalWithout(rs: seq<SalesRecord>, i: nat, app: int, f: Figure)
    requires i < |rs|
    ensures Total(rs, app, f) == Total(rs[..i] + rs[i + 1..], app, f) + Contribution(rs[i], app, f)
  {
    var front, tail := rs[..i], rs[i + 1..];
    assert rs == (front + [rs[i]]) + tail;
    TotalConcat(front + [rs[i]], tail, app, f);
    assert (front + [rs[i]])[..i] == front;
    TotalConcat(front, tail, app, f);
  }

  lemma RemoveAt<T>(s: seq<T>, i: nat)
    requires i < |s|
    ensures multiset(s[..i] + s[i + 1..]) == multiset(s) - multiset{s[i]}
  {
    assert s == s[..i] + [s[i]] + s[i + 1..];
  }

  /** The totals depend on which records arrive, not on their order. */
  lemma {:induction false} TotalsIgnoreOrder(a: seq<SalesRecord>, b: seq<SalesRecord>, app: int, f: Figure)
    requires multiset(a) == multiset(b)
    ensures Total(a, app, f) == Total(b, app, f)
    decreases |a|
  {
    assert |a| == |multiset(a)| == |multiset(b)| == |b|;
    if a != [] {
      var i := |a| - 1;
      assert a[i] in multiset(b);
      var j :| 0 <= j < |b| && b[j] == a[i];
      RemoveAt(a, i);
      RemoveAt(b, j);
      TotalsIgnoreOrder(a[..i] + a[i + 1..], b[..j] + b[j + 1..], app, f);
      TotalWithout(a, i, app, f);
      TotalWithout(b, j, app, f);
    }
  }

  /** Nor does the set of products. */
  lemma AppsIgnoreOrder(a: seq<SalesRecord>, b: seq<SalesRecord>)
    requires multiset(a) == multiset(b)
    ensures forall app :: app in Apps(a) <==> app in Apps(b)
  {
    AppsAreDistinctAndCounted(a);
    AppsAreDistinctAndCounted(b);
    assert forall r :: r in a <==> r in multiset(a);
    assert forall r :: r in b <==> r in multiset(b);
  }
}
