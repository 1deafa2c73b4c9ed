// The read side of src/storage/Database.cpp: per-product views and scalar sums.
module Views {
  import opened Text
  import opened Aggregator
  import opened Store

  datatype ProductUnits = ProductUnits(app: int, name: string, units: int)

  // --- Scalar sums -------------------------------------------------------------------

  /** SELECT COALESCE(SUM(net_units_sold), 0). */
  function NetSum(t: seq<DailyRow>): int {
    if t == [] then 0 else NetSum(t[..|t| - 1]) + t[|t| - 1].net
  }

  function SumOver(st: Store, w: Window): int {
    NetSum(Select(st.daily, w))
  }

  function SumForDate(st: Store, d: string): int { SumOver(st, OnDate(d)) }

  function SumForRange(st: Store, first: string, last: string): int { SumOver(st, Between(first, last)) }

  function SumLifetime(st: Store): int { SumOver(st, Lifetime) }

  // --- Per-product views ---------------------------------------------------------------

  function Matches(t: seq<DailyRow>, app: int): seq<DailyRow> {
    if t == [] then []
    else
      var front, last := t[..|t| - 1], t[|t| - 1];
      if last.app == app then Matches(front, app) + [last] else Matches(front, app)
  }

  /** One product LEFT JOINed with the day's rows: a row per match, or one row of zero units. */
  function JoinRows(p: Product, matches: seq<DailyRow>): seq<ProductUnits> {
    if matches == [] then [ProductUnits(p.app, p.name, 0)]
    else seq(|matches|, i requires 0 <= i < |matches| => ProductUnits(p.app, p.name, matches[i].net))
  }

  function LeftJoin(ps: seq<Product>, t: seq<DailyRow>): seq<ProductUnits> {
    if ps == [] then []
    else JoinRows(ps[0], Matches(t, ps[0].app)) + LeftJoin(ps[1..], t)
  }

  /** JOIN and GROUP BY product: only products with a row appear, with the sum of their rows. */
  function GroupJoin(ps: seq<Product>, t: seq<DailyRow>): seq<ProductUnits> {
    if ps == [] then []
    else
      var m := Matches(t, ps[0].app);
      (if m == [] then [] else [ProductUnits(ps[0].app, ps[0].name, NetSum(m))]) + GroupJoin(ps[1..], t)
  }

  // ORDER BY units DESC, display_name COLLATE NOCASE.

  function FoldCase(s: string): (r: string)
    ensures |r| == |s|
  {
    seq(|s|, i requires 0 <= i < |s| =>
      if 'A' <= s[i] <= 'Z' then (s[i] as int + 32) as char else s[i])
  }

  predicate Before(a: ProductUnits, b: ProductUnits) {
    a.units > b.units || (a.units == b.units && LexLe(FoldCase(a.name), FoldCase(b.name)))
  }

  function InsertUnits(x: ProductUnits, s: seq<ProductUnits>): (r: seq<ProductUnits>)
    ensures multiset(r) == multiset{x} + multiset(s)
  {
    if s == [] || Before(x, s[0]) then [x] + s
    else
      assert s == [s[0]] + s[1..];
      [s[0]] + InsertUnits(x, s[1..])
  }

  function OrderBy(s: seq<ProductUnits>): (r: seq<ProductUnits>)
    ensures multiset(r) == multiset(s)
  {
    if s == [] then []
    else
      assert s == [s[0]] + s[1..];
      InsertUnits(s[0], OrderBy(s[1..]))
  }

  ghost predicate Ordered(s: seq<ProductUnits>) {
    forall i, j | 0 <= i < j < |s| :: Before(s[i], s[j])
  }

  lemma {:induction false} InsertUnitsOrdered(x: ProductUnits, s: seq<ProductUnits>)
    requires Ordered(s)
    ensures Ordered(InsertUnits(x, s))
  {
    if s == [] {
    } else if Before(x, s[0]) {
      forall j | 0 <= j < |s| ensures Before(x, s[j]) {
        if j > 0 && x.units == s[j].units {
          LexTrans(FoldCase(x.name), FoldCase(s[0].name), FoldCase(s[j].name));
        }
      }
    } else {
      var rest := InsertUnits(x, s[1..]);
      InsertUnitsOrdered(x, s[1..]);
      LexTotal(FoldCase(x.name), FoldCase(s[0].name));
      forall j | 0 <= j < |rest| ensures Before(s[0], rest[j]) {
        assert rest[j] in multiset(rest);
        if rest[j] != x {
          assert rest[j] in s[1..];
        }
      }
    }
  }

  lemma {:induction false} OrderByOrdered(s: seq<ProductUnits>)
    ensures Ordered(OrderBy(s))
  {
    if s != [] {
      OrderByOrdered(s[1..]);
      InsertUnitsOrdered(s[0], OrderBy(s[1..]));
    }
  }

  /** Every known product with its units on one date. */
  function QueryDate(st: Store, d: string): seq<ProductUnits> {
    OrderBy(LeftJoin(st.products, Select(st.daily, OnDate(d))))
  }

  /** Products with sales in the window. */
  function QueryRange(st: Store, first: string, last: string): seq<ProductUnits> {
    OrderBy(GroupJoin(st.products, Select(st.daily, Between(first, last))))
  }

  function QueryLifetime(st: Store): seq<ProductUnits> {
    OrderBy(GroupJoin(st.products, Select(st.daily, Lifetime)))
  }

  /** The total line of the sales window. */
  function UnitsSum(s: seq<ProductUnits>): int {
    if s == [] then 0 else s[0].units + UnitsSum(s[1..])
  }

  // --- The views add up to the sums ----------------------------------------------------

  lemma {:induction false} UnitsSumConcat(a: seq<ProductUnits>, b: seq<ProductUnits>)
    ensures UnitsSum(a + b) == UnitsSum(a) + UnitsSum(b)
  {
    if a == [] {
      assert a + b == b;
    } else {
      UnitsSumConcat(a[1..], b);
      assert (a + b)[1..] == a[1..] + b;
    }
  }

  lemma {:induction false} InsertUnitsSum(x: ProductUnits, s: seq<ProductUnits>)
    ensures UnitsSum(InsertUnits(x, s)) == x.units + UnitsSum(s)
  {
    if s == [] || Before(x, s[0]) {
      assert ([x] + s)[1..] == s;
    } else {
      InsertUnitsSum(x, s[1..]);
      assert ([s[0]] + InsertUnits(x, s[1..]))[1..] == InsertUnits(x, s[1..]);
    }
  }

  lemma {:induction false} OrderBySum(s: seq<ProductUnits>)
    ensures UnitsSum(OrderBy(s)) == UnitsSum(s)
  {
    if s != [] {
      OrderBySum(s[1..]);
      InsertUnitsSum(s[0], OrderBy(s[1..]));
    }
  }

  /** Sum over the products of the net units of their rows. */
  function SumByProduct(ps: seq<Product>, t: seq<DailyRow>): int {
    if ps == [] then 0 else NetSum(Matches(t, ps[0].app)) + SumByProduct(ps[1..], t)
  }

  lemma {:induction false} JoinRowsSum(p: Product, m: seq<DailyRow>)
    ensures UnitsSum(JoinRows(p, m)) == NetSum(m)
  {
    if |m| == 1 {
      assert JoinRows(p, m)[1..] == [];
      assert m[..0] == [];
    } else if |m| > 1 {
      var front := m[..|m| - 1];
      JoinRowsSum(p, front);
      var lastUnits := ProductUnits(p.app, p.name, m[|m| - 1].net);
      assert JoinRows(p, m) == JoinRows(p, front) + [lastUnits];
      UnitsSumConcat(JoinRows(p, front), [lastUnits]);
      assert [lastUnits][1..] == [];
    }
  }

  lemma {:induction false} LeftJoinSum(ps: seq<Product>, t: seq<DailyRow>)
    ensures UnitsSum(LeftJoin(ps, t)) == SumByProduct(ps, t)
  {
    if ps != [] {
      var m := Matches(t, ps[0].app);
      LeftJoinSum(ps[1..], t);
      JoinRowsSum(ps[0], m);
      UnitsSumConcat(JoinRows(ps[0], m), LeftJoin(ps[1..], t));
    }
  }

  lemma {:induction false} GroupJoinSum(ps: seq<Product>, t: seq<DailyRow>)
    ensures UnitsSum(GroupJoin(ps, t)) == SumByProduct(ps, t)
  {
    if ps != [] {
      var m := Matches(t, ps[0].app);
      GroupJoinSum(ps[1..], t);
      if m != [] {
        var row := ProductUnits(ps[0].app, ps[0].name, NetSum(m));
        assert GroupJoin(ps, t) == [row] + GroupJoin(ps[1..], t);
        assert ([row] + GroupJoin(ps[1..], t))[1..] == GroupJoin(ps[1..], t);
      } else {
        assert GroupJoin(ps, t) == GroupJoin(ps[1..], t);
      }
    }
  }

  // What one row adds to the sum over the products.
  function Credit(ps: seq<Product>, r: DailyRow): int {
    if ps == [] then 0 else (if ps[0].app == r.app then r.net else 0) + Credit(ps[1..], r)
  }

  // Unique ids: a row is credited at most once.
  lemma {:induction false} CreditOnce(ps: seq<Product>, r: DailyRow)
    requires UniqueProducts(ps)
    ensures Credit(ps, r) == if HasProduct(ps, r.app) then r.net else 0
  {
    if ps != [] {
      HasProductHead(ps);
      CreditOnce(ps[1..], r);
      assert forall i | 0 <= i < |ps[1..]| :: ps[1..][i].app == ps[i + 1].app != ps[0].app;
    }
  }

  lemma MatchesStep(t: seq<DailyRow>, app: int)
    requires t != []
    ensures NetSum(Matches(t, app)) ==
            NetSum(Matches(t[..|t| - 1], app)) + (if t[|t| - 1].app == app then t[|t| - 1].net else 0)
  {}

  lemma {:induction false} SumByProductStep(ps: seq<Product>, t: seq<DailyRow>)
    requires t != []
    ensures SumByProduct(ps, t) == SumByProduct(ps, t[..|t| - 1]) + Credit(ps, t[|t| - 1])
  {
    if ps != [] {
      SumByProductStep(ps[1..], t);
      MatchesStep(t, ps[0].app);
    }
  }

  lemma {:induction false} NoRowsNoUnits(ps: seq<Product>)
    ensures SumByProduct(ps, []) == 0
  {
    if ps != [] {
      NoRowsNoUnits(ps[1..]);
    }
  }

  /** With unique products and no orphan rows, every row is counted under exactly one product. */
  lemma {:induction false} SumByProductIsNetSum(ps: seq<Product>, t: seq<DailyRow>)
    requires UniqueProducts(ps) && ForeignKey(t, ps)
    ensures SumByProduct(ps, t) == NetSum(t)
  {
    if t == [] {
      NoRowsNoUnits(ps);
    } else {
      SumByProductIsNetSum(ps, t[..|t| - 1]);
      SumByProductStep(ps, t);
      CreditOnce(ps, t[|t| - 1]);
    }
  }

  lemma SelectKeepsForeignKey(st: Store, w: Window)
    requires ValidStore(st)
    ensures ForeignKey(Select(st.daily, w), st.products)
  {
    SelectMembers(st.daily, w);
    var t := Select(st.daily, w);
    forall i | 0 <= i < |t| ensures HasProduct(st.products, t[i].app) {
      assert t[i] in t;
      var j :| 0 <= j < |st.daily| && st.daily[j] == t[i];
    }
  }

  /** The sales window's total line shows the tray's figure, whatever the period. */
  lemma ViewsAgreeWithSums(st: Store, d: string, first: string, last: string)
    requires ValidStore(st)
    ensures UnitsSum(QueryDate(st, d)) == SumForDate(st, d)
    ensures UnitsSum(QueryRange(st, first, last)) == SumForRange(st, first, last)
    ensures UnitsSum(QueryLifetime(st)) == SumLifetime(st)
  {
    var day, range, all := OnDate(d), Between(first, last), Lifetime;
    SelectKeepsForeignKey(st, day);
    SelectKeepsForeignKey(st, range);
    SelectKeepsForeignKey(st, all);
    OrderBySum(LeftJoin(st.products, Select(st.daily, day)));
    OrderBySum(GroupJoin(st.products, Select(st.daily, range)));
    OrderBySum(GroupJoin(st.products, Select(st.daily, all)));
    LeftJoinSum(st.products, Select(st.daily, day));
    GroupJoinSum(st.products, Select(st.daily, range));
    GroupJoinSum(st.products, Select(st.daily, all));
    SumByProductIsNetSum(st.products, Select(st.daily, day));
    SumByProductIsNetSum(st.products, Select(st.daily, range));
    SumByProductIsNetSum(st.products, Select(st.daily, all));
  }

  // --- What each view lists ----------------------------------------------------------------

  lemma {:induction false} KeyedMatches(t: seq<DailyRow>, d: string, app: int)
    requires PrimaryKey(t) && forall i | 0 <= i < |t| :: t[i].date == d
    ensures |Matches(t, app)| <= 1
    ensures Matches(t, app) == [] <==> !HasAppRow(t, app)
  {
    if t != [] {
      var front, last := t[..|t| - 1], t[|t| - 1];
      KeyedMatches(front, d, app);
      if HasAppRow(front, app) {
        var i :| 0 <= i < |front| && front[i].app == app;
        assert t[i].app == app;
      }
      if HasAppRow(t, app) && last.app != app {
        var i :| 0 <= i < |t| && t[i].app == app;
        assert front[i].app == app;
      }
    }
  }

  ghost predicate HasAppRow(t: seq<DailyRow>, app: int) {
    exists i | 0 <= i < |t| :: t[i].app == app
  }

  ghost predicate Lists(s: seq<ProductUnits>, app: int) {
    exists i | 0 <= i < |s| :: s[i].app == app
  }

  lemma {:induction false} LeftJoinLists(ps: seq<Product>, t: seq<DailyRow>)
    requires forall a :: |Matches(t, a)| <= 1
    ensures |LeftJoin(ps, t)| == |ps|
    ensures forall i | 0 <= i < |ps| ::
        LeftJoin(ps, t)[i] == ProductUnits(ps[i].app, ps[i].name, NetSum(Matches(t, ps[i].app)))
  {
    if ps != [] {
      LeftJoinLists(ps[1..], t);
      var m := Matches(t, ps[0].app);
      assert |m| == 1 ==> m[..0] == [];
      assert JoinRows(ps[0], m) == [ProductUnits(ps[0].app, ps[0].name, NetSum(m))];
    }
  }

  lemma {:induction false} KeyedSelect(t: seq<DailyRow>, d: string)
    requires PrimaryKey(t)
    ensures PrimaryKey(Select(t, OnDate(d)))
  {
    if t != [] {
      var front, last := t[..|t| - 1], t[|t| - 1];
      KeyedSelect(front, d);
      SelectMembers(front, OnDate(d));
      var s := Select(front, OnDate(d));
      forall i | 0 <= i < |s| ensures s[i].date != last.date || s[i].app != last.app {
        assert s[i] in s;
        var j :| 0 <= j < |front| && front[j] == s[i];
        assert t[j] == s[i];
      }
    }
  }

  // --- Lines of the grouped views ------------------------------------------------------------

  lemma {:induction false} GroupJoinRows(ps: seq<Product>, t: seq<DailyRow>)
    ensures forall r | r in GroupJoin(ps, t) :: Matches(t, r.app) != [] && r.units == NetSum(Matches(t, r.app))
    ensures forall r | r in GroupJoin(ps, t) :: (exists i | 0 <= i < |ps| :: ps[i].app == r.app && ps[i].name == r.name)
    ensures forall a | HasProduct(ps, a) && Matches(t, a) != [] :: exists r :: r in GroupJoin(ps, t) && r.app == a
  {
    if ps != [] {
      GroupJoinRows(ps[1..], t);
      HasProductHead(ps);
      var m := Matches(t, ps[0].app);
      var own := if m == [] then [] else [ProductUnits(ps[0].app, ps[0].name, NetSum(m))];
      var rest := GroupJoin(ps[1..], t);
      assert GroupJoin(ps, t) == own + rest;
      forall r | r in GroupJoin(ps, t)
        ensures exists i | 0 <= i < |ps| :: ps[i].app == r.app && ps[i].name == r.name
      {
        if r in rest {
          var i :| 0 <= i < |ps[1..]| && ps[1..][i].app == r.app && ps[1..][i].name == r.name;
          assert ps[i + 1].app == r.app;
        } else {
          assert r in own;
          assert ps[0].app == r.app;
        }
      }
      forall a | HasProduct(ps, a) && Matches(t, a) != []
        ensures exists r :: r in GroupJoin(ps, t) && r.app == a
      {
        if a == ps[0].app {
          assert own[0] in own + rest;
        } else {
          var r :| r in rest && r.app == a;
          assert r in own + rest;
        }
      }
    }
  }

  /** Net units of one app over the rows in a window. */
  function UnitsOf(t: seq<DailyRow>, app: int, w: Window): int {
    if t == [] then 0
    else
      var last := t[|t| - 1];
      UnitsOf(t[..|t| - 1], app, w) + (if last.app == app && InWindow(last.date, w) then last.net else 0)
  }

  ghost predicate Sold(t: seq<DailyRow>, app: int, w: Window) {
    exists r :: r in t && r.app == app && InWindow(r.date, w)
  }

  lemma MatchesGrow(t: seq<DailyRow>, app: int, w: Window)
    requires t != []
    ensures var front, last := t[..|t| - 1], t[|t| - 1];
            Matches(Select(t, w), app) ==
            Matches(Select(front, w), app) + (if last.app == app && InWindow(last.date, w) then [last] else [])
  {
    hide InWindow;
    var s := Select(t[..|t| - 1], w);
    assert (s + [t[|t| - 1]])[..|s|] == s;
  }

  lemma SoldGrows(t: seq<DailyRow>, app: int, w: Window)
    requires t != []
    ensures var last := t[|t| - 1];
            Sold(t, app, w) <==> Sold(t[..|t| - 1], app, w) || (last.app == app && InWindow(last.date, w))
  {
    hide InWindow;
    assert t == t[..|t| - 1] + [t[|t| - 1]];
  }

  lemma UnitsGrow(t: seq<DailyRow>, app: int, w: Window)
    requires t != []
    ensures var front, last := t[..|t| - 1], t[|t| - 1];
            NetSum(Matches(Select(t, w), app)) ==
            NetSum(Matches(Select(front, w), app)) + (if last.app == app && InWindow(last.date, w) then last.net else 0)
  {
    hide Matches, Select, InWindow, NetSum;
    var m, last := Matches(Select(t[..|t| - 1], w), app), t[|t| - 1];
    MatchesGrow(t, app, w);
    if last.app == app && InWindow(last.date, w) {
      NetSumAppend(m, last);
    } else {
      assert m + [] == m;
    }
  }

  lemma {:induction false} UnitsInWindow(t: seq<DailyRow>, app: int, w: Window)
    ensures NetSum(Matches(Select(t, w), app)) == UnitsOf(t, app, w)
  {
    if t != [] {
      hide Matches, Select, InWindow, NetSum;
      UnitsInWindow(t[..|t| - 1], app, w);
      UnitsGrow(t, app, w);
    }
  }

  lemma {:induction false} SoldInWindow(t: seq<DailyRow>, app: int, w: Window)
    ensures Matches(Select(t, w), app) != [] <==> Sold(t, app, w)
  {
    if t != [] {
      hide Matches, Select, Sold, InWindow;
      SoldInWindow(t[..|t| - 1], app, w);
      MatchesGrow(t, app, w);
      SoldGrows(t, app, w);
    }
  }

  lemma MatchesInWindow(t: seq<DailyRow>, app: int, w: Window)
    ensures NetSum(Matches(Select(t, w), app)) == UnitsOf(t, app, w)
    ensures Matches(Select(t, w), app) != [] <==> Sold(t, app, w)
  {
    UnitsInWindow(t, app, w);
    SoldInWindow(t, app, w);
  }

  lemma {:induction false} GroupJoinOnce(ps: seq<Product>, t: seq<DailyRow>, x: ProductUnits)
    requires UniqueProducts(ps)
    ensures x in GroupJoin(ps, t) ==> HasProduct(ps, x.app)
    ensures multiset(GroupJoin(ps, t))[x] <= 1
  {
    if ps != [] {
      GroupJoinOnce(ps[1..], t, x);
      HasProductHead(ps);
      var m := Matches(t, ps[0].app);
      var own := if m == [] then [] else [ProductUnits(ps[0].app, ps[0].name, NetSum(m))];
      assert GroupJoin(ps, t) == own + GroupJoin(ps[1..], t);
      assert forall i | 0 <= i < |ps[1..]| :: ps[1..][i].app != ps[0].app;
    }
  }

  /** Every line is a product sold in the window, with its name and its units there. */
  ghost predicate LinesAreRight(q: seq<ProductUnits>, st: Store, w: Window) {
    forall i | 0 <= i < |q| ::
      && Sold(st.daily, q[i].app, w) && q[i].units == UnitsOf(st.daily, q[i].app, w)
      && HasProduct(st.products, q[i].app) && q[i].name == ProductOf(st.products, q[i].app).name
  }

  /** Every product sold in the window has a line, and one only. */
  ghost predicate OneLineEach(q: seq<ProductUnits>, st: Store, w: Window) {
    && (forall a | Sold(st.daily, a, w) :: Lists(q, a))
    && forall i, j | 0 <= i < j < |q| :: q[i].app != q[j].app
  }

  /** Most units first; among equals, by name without regard to ASCII case. */
  ghost predicate BestFirst(q: seq<ProductUnits>) {
    forall i, j | 0 <= i < j < |q| ::
      q[i].units > q[j].units
      || (q[i].units == q[j].units && LexLe(FoldCase(q[i].name), FoldCase(q[j].name)))
  }

  lemma GroupedRow(st: Store, w: Window, r: ProductUnits)
    requires ValidStore(st) && r in GroupJoin(st.products, Select(st.daily, w))
    ensures Sold(st.daily, r.app, w) && r.units == UnitsOf(st.daily, r.app, w)
    ensures HasProduct(st.products, r.app) && r.name == ProductOf(st.products, r.app).name
  {
    GroupJoinRows(st.products, Select(st.daily, w));
    MatchesInWindow(st.daily, r.app, w);
    var i :| 0 <= i < |st.products| && st.products[i].app == r.app && st.products[i].name == r.name;
    TheProduct(st.products, i);
  }

  lemma {:induction false} TheProduct(ps: seq<Product>, i: nat)
    requires UniqueProducts(ps) && i < |ps|
    ensures HasProduct(ps, ps[i].app) && ProductOf(ps, ps[i].app) == ps[i]
  {
    if i > 0 {
      assert ps[1..][i - 1] == ps[i];
      HasProductHead(ps);
      TheProduct(ps[1..], i - 1);
    }
  }

  lemma SoldIsListed(st: Store, w: Window, a: int)
    requires ValidStore(st) && Sold(st.daily, a, w)
    ensures exists r :: r in GroupJoin(st.products, Select(st.daily, w)) && r.app == a
  {
    GroupJoinRows(st.products, Select(st.daily, w));
    MatchesInWindow(st.daily, a, w);
    var r :| r in st.daily && r.app == a && InWindow(r.date, w);
    var i :| 0 <= i < |st.daily| && st.daily[i] == r;
  }

  lemma GroupedLines(st: Store, w: Window)
    requires ValidStore(st)
    ensures var q := OrderBy(GroupJoin(st.products, Select(st.daily, w)));
            LinesAreRight(q, st, w)
  {
    hide Sold, UnitsOf, ValidStore, GroupJoin, Select, OrderBy, ProductOf, HasProduct;
    var rows := GroupJoin(st.products, Select(st.daily, w));
    var q := OrderBy(rows);
    forall i | 0 <= i < |q|
      ensures Sold(st.daily, q[i].app, w) && q[i].units == UnitsOf(st.daily, q[i].app, w)
      ensures HasProduct(st.products, q[i].app) && q[i].name == ProductOf(st.products, q[i].app).name
    {
      assert q[i] in multiset(q);
      GroupedRow(st, w, q[i]);
    }
  }

  lemma SoldHasLine(st: Store, w: Window, a: int)
    requires ValidStore(st) && Sold(st.daily, a, w)
    ensures Lists(OrderBy(GroupJoin(st.products, Select(st.daily, w))), a)
  {
    hide Sold, ValidStore, GroupJoin, Select, OrderBy;
    var rows := GroupJoin(st.products, Select(st.daily, w));
    var q := OrderBy(rows);
    SoldIsListed(st, w, a);
    var r :| r in rows && r.app == a;
    assert r in multiset(q);
    var i :| 0 <= i < |q| && q[i] == r;
  }

  lemma NoLineTwice(st: Store, w: Window, q: seq<ProductUnits>, i: nat, j: nat)
    requires ValidStore(st) && q == OrderBy(GroupJoin(st.products, Select(st.daily, w)))
    requires LinesAreRight(q, st, w) && i < j < |q|
    ensures q[i].app != q[j].app
  {
    hide Sold, UnitsOf, ValidStore, GroupJoin, Select, OrderBy, ProductOf, HasProduct;
    if q[i].app == q[j].app {
      assert q[i] == q[j];
      Twice(q, i, j);
      ProductsAreUnique(st);
      GroupJoinOnce(st.products, Select(st.daily, w), q[i]);
    }
  }

  lemma GroupedView(st: Store, w: Window)
    requires ValidStore(st)
    ensures var q := OrderBy(GroupJoin(st.products, Select(st.daily, w)));
            LinesAreRight(q, st, w) && OneLineEach(q, st, w) && BestFirst(q)
  {
    hide Sold, ValidStore, GroupJoin, Select, OrderBy, LinesAreRight, Lists;
    var rows := GroupJoin(st.products, Select(st.daily, w));
    var q := OrderBy(rows);
    OrderByOrdered(rows);
    GroupedLines(st, w);
    forall a | Sold(st.daily, a, w) ensures Lists(q, a) {
      SoldHasLine(st, w, a);
    }
    forall i, j | 0 <= i < j < |q| ensures q[i].app != q[j].app {
      NoLineTwice(st, w, q, i, j);
    }
  }

  lemma ProductsAreUnique(st: Store)
    requires ValidStore(st)
    ensures UniqueProducts(st.products)
  {}

  lemma Twice<T>(q: seq<T>, i: nat, j: nat)
    requires i < j < |q| && q[i] == q[j]
    ensures multiset(q)[q[i]] >= 2
  {
    assert q == q[..i] + [q[i]] + q[i + 1..j] + [q[j]] + q[j + 1..];
  }

  /** The day view is exactly one line per known product, with its units that day or 0. */
  lemma QueryDateListsEveryProduct(st: Store, d: string)
    requires ValidStore(st)
    ensures multiset(QueryDate(st, d)) ==
            multiset(seq(|st.products|, i requires 0 <= i < |st.products| =>
              ProductUnits(st.products[i].app, st.products[i].name,
                           UnitsOf(st.daily, st.products[i].app, OnDate(d)))))
    ensures Ordered(QueryDate(st, d)) && BestFirst(QueryDate(st, d))
  {
    hide Ordered, Before, FoldCase;
    OnePerDay(st, d);
    hide Select, Matches, UnitsOf, OrderBy, ValidStore;
    var t := DateRows(st, d);
    LeftJoinLists(st.products, t);
    forall a ensures NetSum(Matches(t, a)) == UnitsOf(st.daily, a, OnDate(d)) {
      MatchesInWindow(st.daily, a, OnDate(d));
    }
    assert LeftJoin(st.products, t) ==
           seq(|st.products|, i requires 0 <= i < |st.products| =>
             ProductUnits(st.products[i].app, st.products[i].name, UnitsOf(st.daily, st.products[i].app, OnDate(d))));
    OrderByOrdered(LeftJoin(st.products, t));
    OrderedIsBestFirst(QueryDate(st, d));
  }

  lemma OrderedIsBestFirst(q: seq<ProductUnits>)
    requires Ordered(q)
    ensures BestFirst(q)
  {
    hide LexLe, FoldCase;
  }

  // The primary key: an app has at most one row on a date.
  lemma OnePerDay(st: Store, d: string)
    requires ValidStore(st)
    ensures forall a :: |Matches(DateRows(st, d), a)| <= 1
  {
    var t := DateRows(st, d);
    KeyedSelect(st.daily, d);
    SelectMembers(st.daily, OnDate(d));
    assert forall i | 0 <= i < |t| :: t[i] in t;
    forall a ensures |Matches(t, a)| <= 1 {
      KeyedMatches(t, d, a);
    }
  }

  /** The range view: one line for each product with a sale from first to last, most units first. */
  lemma QueryRangeLists(st: Store, first: string, last: string)
    requires ValidStore(st)
    ensures var q, w := QueryRange(st, first, last), Between(first, last);
            LinesAreRight(q, st, w) && OneLineEach(q, st, w) && BestFirst(q)
    ensures forall x :: InWindow(x, Between(first, last)) <==> LexLe(first, x) && LexLe(x, last)
  {
    GroupedView(st, Between(first, last));
  }

  /** The lifetime view: the same of every product ever sold. */
  lemma QueryLifetimeLists(st: Store)
    requires ValidStore(st)
    ensures var q := QueryLifetime(st);
            LinesAreRight(q, st, Lifetime) && OneLineEach(q, st, Lifetime) && BestFirst(q)
    ensures forall x :: InWindow(x, Lifetime)
  {
    GroupedView(st, Lifetime);
  }

  // --- Ranges and dates ---------------------------------------------------------------------

  lemma NotBelow(c: string, x: string, b: string)
    requires LexLe(x, b) && LexLt(b, c)
    ensures !LexLe(c, x)
  {
    if LexLe(c, x) {
      LexTrans(c, x, b);
      LexAntisym(b, c);
    }
  }

  // A date in one of two adjacent ranges is in the whole range, and not in the other.
  lemma SplitDate(x: string, a: string, b: string, c: string, e: string)
    requires LexLe(a, b) && LexLt(b, c) && LexLe(c, e)
    requires LexLe(x, b) || LexLe(c, x)
    ensures InWindow(x, Between(a, e)) <==> InWindow(x, Between(a, b)) || InWindow(x, Between(c, e))
    ensures !(InWindow(x, Between(a, b)) && InWindow(x, Between(c, e)))
  {
    hide LexLe;
    if LexLe(x, b) {
      LexTrans(x, b, c);
      LexTrans(x, c, e);
      NotBelow(c, x, b);
    } else {
      LexTrans(b, c, x);
      LexTrans(a, b, x);
    }
  }

  lemma SelectSum(t: seq<DailyRow>, w: Window)
    requires t != []
    ensures var front, last := t[..|t| - 1], t[|t| - 1];
            NetSum(Select(t, w)) == NetSum(Select(front, w)) + (if InWindow(last.date, w) then last.net else 0)
  {
    hide InWindow;
    NetSumAppend(Select(t[..|t| - 1], w), t[|t| - 1]);
  }

  lemma {:induction false} SplitRange(t: seq<DailyRow>, a: string, b: string, c: string, e: string)
    requires LexLe(a, b) && LexLt(b, c) && LexLe(c, e)
    requires forall i | 0 <= i < |t| :: LexLe(t[i].date, b) || LexLe(c, t[i].date)
    ensures NetSum(Select(t, Between(a, e))) ==
            NetSum(Select(t, Between(a, b))) + NetSum(Select(t, Between(c, e)))
  {
    if t != [] {
      hide LexLe, LexLt, InWindow, Select, NetSum;
      SplitRange(t[..|t| - 1], a, b, c, e);
      SplitDate(t[|t| - 1].date, a, b, c, e);
      SelectSum(t, Between(a, e));
      SelectSum(t, Between(a, b));
      SelectSum(t, Between(c, e));
    }
  }

  lemma NetSumAppend(t: seq<DailyRow>, r: DailyRow)
    ensures NetSum(t + [r]) == NetSum(t) + r.net
  {}

  /** Adjacent ranges: nothing stored falls strictly between b and c. */
  lemma RangeSumsAdd(st: Store, a: string, b: string, c: string, e: string)
    requires LexLe(a, b) && LexLt(b, c) && LexLe(c, e)
    requires forall i | 0 <= i < |st.daily| :: LexLe(st.daily[i].date, b) || LexLe(c, st.daily[i].date)
    ensures SumForRange(st, a, e) == SumForRange(st, a, b) + SumForRange(st, c, e)
  {
    SplitRange(st.daily, a, b, c, e);
  }

  lemma {:induction false} WithoutSum(t: seq<DailyRow>, d: string)
    ensures NetSum(t) == NetSum(Without(t, d)) + NetSum(Select(t, OnDate(d)))
  {
    if t != [] {
      var front, last := t[..|t| - 1], t[|t| - 1];
      WithoutSum(front, d);
      NetSumAppend(Without(front, d), last);
      NetSumAppend(Select(front, OnDate(d)), last);
    }
  }

  lemma {:induction false} NetSumConcat(a: seq<DailyRow>, b: seq<DailyRow>)
    ensures NetSum(a + b) == NetSum(a) + NetSum(b)
  {
    if b == [] {
      assert a + b == a;
    } else {
      NetSumConcat(a, b[..|b| - 1]);
      assert (a + b)[..|a + b| - 1] == a + b[..|b| - 1];
    }
  }

  /** Replacing a date moves the lifetime sum by that date's change and nothing else. */
  lemma ReplacedSum(st: Store, d: string, rows: seq<SalesRow>, now: string)
    ensures SumLifetime(Replaced(st, d, rows, now)) - SumLifetime(st) ==
            NetSum(ToDaily(d, rows)) - SumForDate(st, d)
  {
    SelectEverything(st.daily, Lifetime);
    SelectEverything(Replaced(st, d, rows, now).daily, Lifetime);
    WithoutSum(st.daily, d);
    NetSumConcat(Without(st.daily, d), ToDaily(d, rows));
  }

  lemma {:induction false} NetOfHeld(t: seq<DailyRow>, rows: seq<SalesRow>)
    requires |t| == |rows| && forall i | 0 <= i < |rows| :: t[i].net == rows[i].net
    ensures NetSum(t) == NetOfRows(rows)
  {
    if t != [] {
      NetOfHeld(t[..|t| - 1], rows[..|rows| - 1]);
    }
  }

  /** A date replaced by the aggregate of its records shows the net units of those that count. */
  lemma DateShowsNet(was: Store, now: Store, d: string, records: seq<SalesRecord>, utc: string)
    requires Replaces(was, now, d, Aggregated(records), utc)
    ensures SumForDate(now, d) == NetOfCounted(records)
  {
    hide Aggregated, Select, CatalogueTakes;
    NetOfHeld(DateRows(now, d), Aggregated(records));
    RowsHoldNet(records);
  }
}
