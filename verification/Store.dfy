// The tables of sales.db and what each statement of src/storage/Database.cpp
// means for them. Tables are sequences in insertion order, so their keys are
// invariants to be kept, not a matter of representation.
module Store {
  import opened Text
  import Decimal
  import opened Aggregator

  datatype DailyRow = DailyRow(date: string, app: int, gross: int, returned: int, net: int)

  datatype Product = Product(app: int, name: string, lastSeen: string)

  /** A committed database: the three tables, sync_state having its one row. NULL text is "". */
  datatype Store = Store(
    daily: seq<DailyRow>, products: seq<Product>,
    mark: string, checked: string, synced: string, error: string, cursor: string)

  /** What migration leaves in an empty file. */
  const FRESH_STORE := Store([], [], "0", "", "", "", "")

  // --- WHERE clauses on financial_date ------------------------------------------

  datatype Window = OnDate(date: string) | Between(first: string, last: string) | Lifetime

  predicate InWindow(date: string, w: Window) {
    match w
    case OnDate(d) => date == d
    case Between(first, last) => LexLe(first, date) && LexLe(date, last)
    case Lifetime => true
  }

  function Select(t: seq<DailyRow>, w: Window): seq<DailyRow> {
    if t == [] then []
    else
      var front, last := t[..|t| - 1], t[|t| - 1];
      if InWindow(last.date, w) then Select(front, w) + [last] else Select(front, w)
  }

  function Without(t: seq<DailyRow>, d: string): seq<DailyRow> {
    if t == [] then []
    else
      var front, last := t[..|t| - 1], t[|t| - 1];
      if last.date != d then Without(front, d) + [last] else Without(front, d)
  }

  lemma {:induction false} SelectConcat(a: seq<DailyRow>, b: seq<DailyRow>, w: Window)
    ensures Select(a + b, w) == Select(a, w) + Select(b, w)
  {
    if b == [] {
      assert a + b == a;
    } else {
      SelectConcat(a, b[..|b| - 1], w);
      assert (a + b)[..|a + b| - 1] == a + b[..|b| - 1];
    }
  }

  lemma {:induction false} SelectMembers(t: seq<DailyRow>, w: Window)
    ensures forall r :: r in Select(t, w) <==> r in t && InWindow(r.date, w)
  {
    if t != [] {
      SelectMembers(t[..|t| - 1], w);
      assert t == t[..|t| - 1] + [t[|t| - 1]];
    }
  }

  lemma {:induction false} SelectNothing(t: seq<DailyRow>, w: Window)
    requires forall i | 0 <= i < |t| :: !InWindow(t[i].date, w)
    ensures Select(t, w) == []
  {
    if t != [] {
      SelectNothing(t[..|t| - 1], w);
    }
  }

  lemma {:induction false} SelectEverything(t: seq<DailyRow>, w: Window)
    requires forall i | 0 <= i < |t| :: InWindow(t[i].date, w)
    ensures Select(t, w) == t
  {
    if t != [] {
      SelectEverything(t[..|t| - 1], w);
    }
  }

  lemma {:induction false} WithoutMembers(t: seq<DailyRow>, d: string)
    ensures forall r :: r in Without(t, d) <==> r in t && r.date != d
  {
    if t != [] {
      WithoutMembers(t[..|t| - 1], d);
      assert t == t[..|t| - 1] + [t[|t| - 1]];
    }
  }

  lemma {:induction false} SelectWithout(t: seq<DailyRow>, d: string, e: string)
    ensures Select(Without(t, d), OnDate(e)) == if d == e then [] else Select(t, OnDate(e))
  {
    if t != [] {
      var front, last := t[..|t| - 1], t[|t| - 1];
      SelectWithout(front, d, e);
      if last.date != d {
        assert (Without(front, d) + [last])[..|Without(front, d)|] == Without(front, d);
      }
    }
  }

  // --- Rows of one date -----------------------------------------------------------

  function ToDaily(d: string, rows: seq<SalesRow>): seq<DailyRow> {
    seq(|rows|, i requires 0 <= i < |rows| =>
      DailyRow(d, rows[i].app, rows[i].gross, rows[i].returned, rows[i].net))
  }

  /** The cached rows of a financial date. */
  function DateRows(st: Store, d: string): seq<DailyRow> {
    Select(st.daily, OnDate(d))
  }

  // --- Products ---------------------------------------------------------------------

  /** INSERT ... ON CONFLICT(app_id) DO UPDATE. */
  function Upsert(ps: seq<Product>, p: Product): (r: seq<Product>)
    ensures forall a :: HasProduct(r, a) <==> HasProduct(ps, a) || a == p.app
  {
    if ps == [] then
      assert [p][0].app == p.app;
      [p]
    else if ps[0].app == p.app then
      var r := [p] + ps[1..];
      assert r[0].app == p.app;
      assert forall a :: HasProduct(r, a) <==> HasProduct(ps, a) || a == p.app by {
        assert forall i | 1 <= i < |ps| :: r[i] == ps[i];
      }
      r
    else
      var rest := Upsert(ps[1..], p);
      var r := [ps[0]] + rest;
      assert forall a :: HasProduct(r, a) <==> HasProduct(ps, a) || a == p.app by {
        HasProductHead(r);
        HasProductHead(ps);
        assert r[1..] == rest;
      }
      r
  }

  predicate HasProduct(ps: seq<Product>, app: int) {
    exists i | 0 <= i < |ps| :: ps[i].app == app
  }

  lemma HasProductHead(ps: seq<Product>)
    requires ps != []
    ensures forall a :: HasProduct(ps, a) <==> ps[0].app == a || HasProduct(ps[1..], a)
  {}

  ghost predicate UniqueProducts(ps: seq<Product>) {
    forall i, j | 0 <= i < j < |ps| :: ps[i].app != ps[j].app
  }

  lemma {:induction false} UpsertUnique(ps: seq<Product>, p: Product)
    requires UniqueProducts(ps)
    ensures UniqueProducts(Upsert(ps, p))
  {
    if ps != [] && ps[0].app != p.app {
      var rest := Upsert(ps[1..], p);
      UpsertUnique(ps[1..], p);
      forall j | 0 <= j < |rest| ensures rest[j].app != ps[0].app {
        assert HasProduct(rest, rest[j].app);
        if HasProduct(ps[1..], rest[j].app) {
          var i :| 0 <= i < |ps[1..]| && ps[1..][i].app == rest[j].app;
          assert ps[i + 1].app == rest[j].app;
        }
      }
    }
  }

  /** The name a row is stored under: a nameless product shows its id. */
  function ProductFor(row: SalesRow, now: string): Product {
    Product(row.app, if row.name == "" then "App " + Decimal.SignedText(row.app) else row.name, now)
  }

  function UpsertAll(ps: seq<Product>, rows: seq<SalesRow>, now: string): seq<Product> {
    if rows == [] then ps
    else Upsert(UpsertAll(ps, rows[..|rows| - 1], now), ProductFor(rows[|rows| - 1], now))
  }

  lemma {:induction false} UpsertAllKeys(ps: seq<Product>, rows: seq<SalesRow>, now: string)
    ensures forall a :: HasProduct(UpsertAll(ps, rows, now), a) <==> HasProduct(ps, a) || HasApp(rows, a)
    ensures UniqueProducts(ps) ==> UniqueProducts(UpsertAll(ps, rows, now))
  {
    if rows != [] {
      var front, last := rows[..|rows| - 1], rows[|rows| - 1];
      UpsertAllKeys(ps, front, now);
      if UniqueProducts(ps) {
        UpsertUnique(UpsertAll(ps, front, now), ProductFor(last, now));
      }
      forall a ensures HasApp(rows, a) <==> HasApp(front, a) || a == last.app {
        if HasApp(front, a) {
          var i :| 0 <= i < |front| && front[i].app == a;
          assert rows[i].app == a;
        }
        if a == last.app {
          assert rows[|rows| - 1].app == a;
        }
        if HasApp(rows, a) && a != last.app {
          var i :| 0 <= i < |rows| && rows[i].app == a;
          assert front[i].app == a;
        }
      }
    }
  }

  /** The catalogue entry of an app. */
  function ProductOf(ps: seq<Product>, app: int): (p: Product)
    requires HasProduct(ps, app)
    ensures p in ps && p.app == app
  {
    if ps[0].app == app then ps[0]
    else
      HasProductHead(ps);
      ProductOf(ps[1..], app)
  }

  lemma {:induction false} UpsertSets(ps: seq<Product>, p: Product, app: int)
    requires app == p.app || HasProduct(ps, app)
    ensures ProductOf(Upsert(ps, p), app) == if app == p.app then p else ProductOf(ps, app)
  {
    if ps != [] && ps[0].app != p.app {
      HasProductHead(ps);
      if ps[0].app != app {
        UpsertSets(ps[1..], p, app);
      }
    }
  }

  // Up to a row's position no row changes the entry of an app that comes up only later.
  lemma {:induction false} UpsertAllElse(ps: seq<Product>, rows: seq<SalesRow>, now: string, app: int)
    requires HasProduct(ps, app) && !HasApp(rows, app)
    ensures HasProduct(UpsertAll(ps, rows, now), app)
    ensures ProductOf(UpsertAll(ps, rows, now), app) == ProductOf(ps, app)
  {
    if rows != [] {
      var front := rows[..|rows| - 1];
      assert forall i | 0 <= i < |front| :: front[i] == rows[i];
      UpsertAllElse(ps, front, now, app);
      assert HasApp(rows, rows[|rows| - 1].app);
      UpsertSets(UpsertAll(ps, front, now), ProductFor(rows[|rows| - 1], now), app);
    }
  }

  /** After a replacement an app carries the name and time of its row, and other apps what they had. */
  lemma {:induction false} NamesComeFromTheRows(ps: seq<Product>, rows: seq<SalesRow>, now: string, app: int)
    requires DistinctApps(rows) && (HasProduct(ps, app) || HasApp(rows, app))
    ensures HasProduct(UpsertAll(ps, rows, now), app)
    ensures forall i | 0 <= i < |rows| && rows[i].app == app ::
              ProductOf(UpsertAll(ps, rows, now), app) == ProductFor(rows[i], now)
    ensures !HasApp(rows, app) ==> ProductOf(UpsertAll(ps, rows, now), app) == ProductOf(ps, app)
  {
    UpsertAllKeys(ps, rows, now);
    if !HasApp(rows, app) {
      UpsertAllElse(ps, rows, now, app);
    } else {
      var front, last := rows[..|rows| - 1], rows[|rows| - 1];
      UpsertAllKeys(ps, front, now);
      UpsertSets(UpsertAll(ps, front, now), ProductFor(last, now), app);
      if last.app != app {
        var i :| 0 <= i < |rows| && rows[i].app == app;
        assert front[i].app == app;
        NamesComeFromTheRows(ps, front, now, app);
        assert forall j | 0 <= j < |front| :: front[j] == rows[j];
      }
    }
  }

  // --- Constraints --------------------------------------------------------------------

  ghost predicate PrimaryKey(t: seq<DailyRow>) {
    forall i, j | 0 <= i < j < |t| :: t[i].date != t[j].date || t[i].app != t[j].app
  }

  ghost predicate ForeignKey(t: seq<DailyRow>, ps: seq<Product>) {
    forall i | 0 <= i < |t| :: HasProduct(ps, t[i].app)
  }

  ghost predicate ValidStore(st: Store) {
    PrimaryKey(st.daily) && UniqueProducts(st.products) && ForeignKey(st.daily, st.products)
  }

  // --- Committed writes -----------------------------------------------------------------

  /** All rows of date d replaced by `rows`, their products upserted. */
  function Replaced(st: Store, d: string, rows: seq<SalesRow>, now: string): Store {
    st.(daily := Without(st.daily, d) + ToDaily(d, rows),
        products := UpsertAll(st.products, rows, now))
  }

  function Cleared(st: Store): Store {
    st.(daily := [], products := [], mark := "0", synced := "", cursor := "")
  }

  /** An empty stored mark reads as "0". */
  function GetMark(st: Store): string {
    if st.mark == "" then "0" else st.mark
  }

  /** A replacement is a map update at one date. */
  lemma ReplacedIsUpdate(st: Store, d: string, rows: seq<SalesRow>, now: string, e: string)
    ensures DateRows(Replaced(st, d, rows, now), e) ==
            if e == d then ToDaily(d, rows) else DateRows(st, e)
  {
    SelectConcat(Without(st.daily, d), ToDaily(d, rows), OnDate(e));
    SelectWithout(st.daily, d, e);
    if e == d {
      SelectEverything(ToDaily(d, rows), OnDate(e));
    } else {
      SelectNothing(ToDaily(d, rows), OnDate(e));
    }
  }

  /** The rows selected are those whose date is meant: that date, or first to last inclusive. */
  lemma SelectedAre(t: seq<DailyRow>, d: string, first: string, last: string)
    ensures forall r :: r in Select(t, OnDate(d)) <==> r in t && r.date == d
    ensures forall r :: r in Select(t, Between(first, last)) <==> r in t && LexLe(first, r.date) && LexLe(r.date, last)
    ensures Select(t, Lifetime) == t
  {
    SelectMembers(t, OnDate(d));
    SelectMembers(t, Between(first, last));
    SelectEverything(t, Lifetime);
  }

  /** A row of the table and the row it was stored from. */
  predicate Holds(r: DailyRow, d: string, row: SalesRow) {
    r.date == d && r.app == row.app && r.gross == row.gross && r.returned == row.returned && r.net == row.net
  }

  /** A catalogue entry and the row it was last written from. */
  predicate Names(p: Product, row: SalesRow, now: string) {
    && p.app == row.app && p.lastSeen == now
    && p.name == (if row.name != "" then row.name else "App " + Decimal.SignedText(row.app))
  }

  /** The date has one row for each given one, holding its figures; other dates have what they had. */
  ghost predicate DateBecomes(was: Store, now: Store, d: string, rows: seq<SalesRow>) {
    && |DateRows(now, d)| == |rows|
    && (forall i | 0 <= i < |rows| :: Holds(DateRows(now, d)[i], d, rows[i]))
    && forall e | e != d :: DateRows(now, e) == DateRows(was, e)
  }

  /** Each given row's product carries its name; other products are the old ones, with what they had. */
  ghost predicate CatalogueTakes(was: seq<Product>, now: seq<Product>, rows: seq<SalesRow>, utc: string) {
    && (forall i | 0 <= i < |rows| ::
          HasProduct(now, rows[i].app) && Names(ProductOf(now, rows[i].app), rows[i], utc))
    && (forall a | !HasApp(rows, a) :: HasProduct(now, a) <==> HasProduct(was, a))
    && (forall a | HasProduct(was, a) && !HasApp(rows, a) :: ProductOf(now, a) == ProductOf(was, a))
  }

  /** One date has been replaced, and nothing else but the catalogue is touched. */
  ghost predicate Replaces(was: Store, now: Store, d: string, rows: seq<SalesRow>, utc: string) {
    && now == was.(daily := now.daily, products := now.products)
    && DateBecomes(was, now, d, rows)
    && CatalogueTakes(was.products, now.products, rows, utc)
  }

  lemma ReplacedDate(st: Store, d: string, rows: seq<SalesRow>, now: string)
    ensures DateBecomes(st, Replaced(st, d, rows, now), d, rows)
  {
    var r := Replaced(st, d, rows, now);
    ReplacedIsUpdate(st, d, rows, now, d);
    forall e | e != d ensures DateRows(r, e) == DateRows(st, e) {
      ReplacedIsUpdate(st, d, rows, now, e);
    }
  }

  lemma ReplacedNames(ps: seq<Product>, rows: seq<SalesRow>, now: string)
    requires DistinctApps(rows)
    ensures CatalogueTakes(ps, UpsertAll(ps, rows, now), rows, now)
  {
    hide UpsertAll, DistinctApps;
    var r := UpsertAll(ps, rows, now);
    UpsertAllKeys(ps, rows, now);
    forall i | 0 <= i < |rows| ensures HasProduct(r, rows[i].app) && Names(ProductOf(r, rows[i].app), rows[i], now) {
      assert HasApp(rows, rows[i].app);
      NamesComeFromTheRows(ps, rows, now, rows[i].app);
    }
    hide HasProduct, HasApp, ProductFor;
    forall a | HasProduct(ps, a) && !HasApp(rows, a) ensures ProductOf(r, a) == ProductOf(ps, a) {
      NamesComeFromTheRows(ps, rows, now, a);
    }
  }

  lemma ReplacedReplaces(st: Store, d: string, rows: seq<SalesRow>, now: string)
    requires DistinctApps(rows)
    ensures Replaces(st, Replaced(st, d, rows, now), d, rows, now)
  {
    ReplacedDate(st, d, rows, now);
    ReplacedNames(st.products, rows, now);
    hide DateBecomes, CatalogueTakes;
  }

  lemma {:induction false} WithoutKeepsKey(t: seq<DailyRow>, d: string)
    requires PrimaryKey(t)
    ensures PrimaryKey(Without(t, d))
  {
    if t != [] {
      var front, last := t[..|t| - 1], t[|t| - 1];
      WithoutKeepsKey(front, d);
      WithoutMembers(front, d);
      var w := Without(front, d);
      forall i | 0 <= i < |w| ensures w[i].date != last.date || w[i].app != last.app {
        assert w[i] in w;
        var j :| 0 <= j < |front| && front[j] == w[i];
        assert t[j] == w[i];
      }
    }
  }

  /** Replacing a date by rows with distinct apps keeps every table constraint. */
  lemma ReplacedIsValid(st: Store, d: string, rows: seq<SalesRow>, now: string)
    requires ValidStore(st) && DistinctApps(rows)
    ensures ValidStore(Replaced(st, d, rows, now))
  {
    var kept, added := Without(st.daily, d), ToDaily(d, rows);
    WithoutKeepsKey(st.daily, d);
    WithoutMembers(st.daily, d);
    UpsertAllKeys(st.products, rows, now);
    assert forall i | 0 <= i < |kept| :: kept[i] in kept;
    forall i | 0 <= i < |kept| ensures HasProduct(st.products, kept[i].app) {
      var j :| 0 <= j < |st.daily| && st.daily[j] == kept[i];
    }
    assert forall i | 0 <= i < |rows| :: HasApp(rows, rows[i].app);
  }

  /** Two databases with the same rows on every date hold the same table. */
  ghost predicate SameDaily(a: Store, b: Store) {
    forall d :: DateRows(a, d) == DateRows(b, d)
  }

  lemma {:induction false} CountOnDate(t: seq<DailyRow>, r: DailyRow)
    ensures multiset(t)[r] == multiset(Select(t, OnDate(r.date)))[r]
  {
    if t != [] {
      var front, last := t[..|t| - 1], t[|t| - 1];
      CountOnDate(front, r);
      assert t == front + [last];
      assert multiset(t) == multiset(front) + multiset{last};
      if last.date == r.date {
        var s := Select(front, OnDate(r.date));
        assert multiset(s + [last]) == multiset(s) + multiset{last};
      }
    }
  }

  lemma SameDailySameTable(a: Store, b: Store)
    requires SameDaily(a, b)
    ensures multiset(a.daily) == multiset(b.daily)
  {
    forall r ensures multiset(a.daily)[r] == multiset(b.daily)[r] {
      CountOnDate(a.daily, r);
      CountOnDate(b.daily, r);
      assert DateRows(a, r.date) == DateRows(b, r.date);
    }
  }
}
