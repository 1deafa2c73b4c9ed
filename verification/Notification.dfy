// Lifetime snapshots and the "new units" message (LifetimeSnapshot and
// BuildNotification in src/sync/SalesSyncService.cpp), and what the deltas add up to.
module Notification {
  import opened Aggregator
  import opened Store
  import opened Views
  import Decimal

  const MAX_LINES: nat := 6

  datatype AppLifetime = AppLifetime(name: string, units: int)

  type Snapshot = map<int, AppLifetime>

  function SnapshotOf(rows: seq<ProductUnits>): Snapshot {
    if rows == [] then map[]
    else
      var last := rows[|rows| - 1];
      SnapshotOf(rows[..|rows| - 1])[last.app := AppLifetime(last.name, last.units)]
  }

  method LifetimeSnapshot(st: Store) returns (snapshot: Snapshot)
    ensures snapshot == SnapshotOf(QueryLifetime(st))
  {
    var rows := QueryLifetime(st);
    snapshot := map[];
    for i := 0 to |rows|
      invariant snapshot == SnapshotOf(rows[..i])
    {
      assert rows[..i + 1][..i] == rows[..i];
      snapshot := snapshot[rows[i].app := AppLifetime(rows[i].name, rows[i].units)];
    }
    assert rows[..|rows|] == rows;
  }

  /** Lifetime net units of a product, absent products counting zero. */
  function UnitsIn(s: Snapshot, app: int): int {
    if app in s then s[app].units else 0
  }

  function Rise(before: Snapshot, after: Snapshot, app: int): int {
    UnitsIn(after, app) - UnitsIn(before, app)
  }

  // --- The message --------------------------------------------------------------------

  /** The products that rose, in the order the map happens to be walked. */
  function Risers(before: Snapshot, after: Snapshot, order: seq<int>): seq<int> {
    if order == [] then []
    else
      var front, last := Risers(before, after, order[..|order| - 1]), order[|order| - 1];
      if Rise(before, after, last) > 0 then front + [last] else front
  }

  function Line(before: Snapshot, after: Snapshot, app: int): string {
    LineText(if app in after then after[app].name else "", Decimal.Thousands(Rise(before, after, app)))
  }

  function LineText(name: string, delta: string): (r: string)
    ensures r != ""
  {
    name + ": +" + delta + "\n"
  }

  function Lines(before: Snapshot, after: Snapshot, apps: seq<int>): string {
    if apps == [] then ""
    else Lines(before, after, apps[..|apps| - 1]) + Line(before, after, apps[|apps| - 1])
  }

  function Leading(apps: seq<int>): seq<int> {
    if |apps| <= MAX_LINES then apps else apps[..MAX_LINES]
  }

  function TodayLine(todayNet: int): string {
    TodayText(Decimal.Thousands(todayNet))
  }

  function TodayText(units: string): (r: string)
    ensures r != ""
  {
    "Today: " + units + " net units"
  }

  /** Up to six product lines and today's figure; nothing when no product rose. */
  function Message(before: Snapshot, after: Snapshot, order: seq<int>, todayNet: int): string {
    var risers := Risers(before, after, order);
    if risers == [] then "" else Lines(before, after, Leading(risers)) + TodayLine(todayNet)
  }

  /** `order` walks every key of the map once. */
  ghost predicate Walks(order: seq<int>, m: Snapshot) {
    && (forall i, j | 0 <= i < j < |order| :: order[i] != order[j])
    && (forall a :: a in order <==> a in m)
  }

  method BuildNotification(before: Snapshot, after: Snapshot, order: seq<int>, todayNet: int)
      returns (body: string)
    requires Walks(order, after)
    ensures body == Message(before, after, order, todayNet)
    ensures body != "" <==> exists a :: a in after && Rise(before, after, a) > 0
  {
    hide Lines, Line, Risers, Decimal.Grouped, Decimal.Text;
    body := "";
    var lines := 0;
    NoLines(before, after, order);
    for i := 0 to |order|
      invariant lines == |Leading(Risers(before, after, order[..i]))|
      invariant body == Lines(before, after, Leading(Risers(before, after, order[..i])))
    {
      var app := order[i];
      NextLine(before, after, order, i);
      assert app in after;
      var previous := if app in before then before[app].units else 0;
      var delta := after[app].units - previous;
      assert delta == Rise(before, after, app);
      if delta > 0 && lines < MAX_LINES {
        body := body + LineText(after[app].name, Decimal.Thousands(delta));
        lines := lines + 1;
      }
    }
    assert order[..|order|] == order;
    SomeoneRose(before, after, order);
    LinesEmpty(before, after, Leading(Risers(before, after, order)));
    if body == "" {
      return;
    }
    body := body + TodayLine(todayNet);
  }

  lemma NoLines(before: Snapshot, after: Snapshot, order: seq<int>)
    ensures Lines(before, after, Leading(Risers(before, after, order[..0]))) == ""
    ensures |Leading(Risers(before, after, order[..0]))| == 0
  {}

  lemma NextLine(before: Snapshot, after: Snapshot, order: seq<int>, i: nat)
    requires i < |order| && order[i] in after
    ensures var app := order[i];
            var old' := Leading(Risers(before, after, order[..i]));
            var new' := Leading(Risers(before, after, order[..i + 1]));
            if Rise(before, after, app) > 0 && |old'| < MAX_LINES then
              && |new'| == |old'| + 1
              && Lines(before, after, new') ==
                 Lines(before, after, old') + LineText(after[app].name, Decimal.Thousands(Rise(before, after, app)))
            else new' == old'
  {
    var r := Risers(before, after, order[..i]);
    assert order[..i + 1][..i] == order[..i];
    if Rise(before, after, order[i]) > 0 {
      assert (r + [order[i]])[..|r|] == r;
      assert |r| >= MAX_LINES ==> (r + [order[i]])[..MAX_LINES] == r[..MAX_LINES];
    }
  }

  lemma SomeoneRose(before: Snapshot, after: Snapshot, order: seq<int>)
    requires Walks(order, after)
    ensures Risers(before, after, order) != [] <==> exists a :: a in after && Rise(before, after, a) > 0
  {
    RisersAre(before, after, order);
    var risers := Risers(before, after, order);
    if risers != [] {
      assert risers[0] in Risen(before, after, order);
      assert risers[0] in after && Rise(before, after, risers[0]) > 0;
    }
    forall a | a in after && Rise(before, after, a) > 0 ensures a in risers {
      assert a in Risen(before, after, order);
    }
  }

  lemma LinesEmpty(before: Snapshot, after: Snapshot, apps: seq<int>)
    ensures Lines(before, after, apps) == "" <==> apps == []
  {}

  ghost function Risen(before: Snapshot, after: Snapshot, apps: seq<int>): set<int> {
    set a | a in apps && Rise(before, after, a) > 0
  }

  lemma RisenStep(before: Snapshot, after: Snapshot, front: seq<int>, last: int)
    ensures Risen(before, after, front + [last]) ==
            Risen(before, after, front) + (if Rise(before, after, last) > 0 then {last} else {})
  {}

  lemma {:induction false} RisersAre(before: Snapshot, after: Snapshot, order: seq<int>)
    ensures forall a :: a in Risers(before, after, order) <==> a in Risen(before, after, order)
  {
    hide Rise, Risen;
    if order == [] {
      assert Risen(before, after, order) == {} by { NoneRisen(before, after); }
    } else {
      RisersAre(before, after, order[..|order| - 1]);
      RisenStep(before, after, order[..|order| - 1], order[|order| - 1]);
      assert order == order[..|order| - 1] + [order[|order| - 1]];
    }
  }

  lemma NoneRisen(before: Snapshot, after: Snapshot)
    ensures Risen(before, after, []) == {}
  {}

  lemma {:induction false} RisersCount(before: Snapshot, after: Snapshot, order: seq<int>)
    requires forall i, j | 0 <= i < j < |order| :: order[i] != order[j]
    ensures |Risers(before, after, order)| == |Risen(before, after, order)|
  {
    hide Rise;
    if order == [] {
      NoneRisen(before, after);
    } else {
      var front, last := order[..|order| - 1], order[|order| - 1];
      RisersCount(before, after, front);
      RisenStep(before, after, front, last);
      assert order == front + [last];
      assert last !in front;
    }
  }

  /** Whatever order the map is walked in, there are min(6, risers) product lines. */
  lemma LineCount(before: Snapshot, after: Snapshot, order: seq<int>)
    requires Walks(order, after)
    ensures |Leading(Risers(before, after, order))| ==
            var risers := set a | a in after && Rise(before, after, a) > 0;
            if |risers| <= 6 then |risers| else 6
  {
    RisersCount(before, after, order);
    assert Risen(before, after, order) == (set a | a in after && Rise(before, after, a) > 0);
  }

  // --- Snapshots agree with the table ---------------------------------------------------

  /** Rows that agree whenever they name the same product. */
  ghost predicate Functional(rows: seq<ProductUnits>) {
    forall i, j | 0 <= i < |rows| && 0 <= j < |rows| && rows[i].app == rows[j].app :: rows[i] == rows[j]
  }

  lemma {:induction false} SnapshotLookup(rows: seq<ProductUnits>)
    requires Functional(rows)
    ensures forall i | 0 <= i < |rows| ::
        rows[i].app in SnapshotOf(rows) && SnapshotOf(rows)[rows[i].app] == AppLifetime(rows[i].name, rows[i].units)
    ensures forall a | a in SnapshotOf(rows) :: Lists(rows, a)
  {
    if rows != [] {
      var front, last := rows[..|rows| - 1], rows[|rows| - 1];
      SnapshotLookup(front);
      forall a | a in SnapshotOf(rows) ensures Lists(rows, a) {
        if a == last.app {
          assert rows[|rows| - 1].app == a;
        } else {
          assert Lists(front, a);
          var i :| 0 <= i < |front| && front[i].app == a;
          assert rows[i].app == a;
        }
      }
    }
  }

  lemma LifetimeFunctional(st: Store)
    requires ValidStore(st)
    ensures Functional(QueryLifetime(st))
  {
    var t := Select(st.daily, Lifetime);
    var rows, sorted := GroupJoin(st.products, t), QueryLifetime(st);
    GroupJoinRows(st.products, t);
    forall i, j | 0 <= i < |sorted| && 0 <= j < |sorted| && sorted[i].app == sorted[j].app
      ensures sorted[i] == sorted[j]
    {
      assert sorted[i] in multiset(sorted) && sorted[j] in multiset(sorted);
      assert sorted[i] in rows && sorted[j] in rows;
    }
  }

  /** A snapshot holds, for every product with rows, the sum of its rows. */
  lemma SnapshotUnits(st: Store, app: int)
    requires ValidStore(st)
    ensures UnitsIn(SnapshotOf(QueryLifetime(st)), app) == NetSum(Matches(st.daily, app))
    ensures app in SnapshotOf(QueryLifetime(st)) <==> Matches(st.daily, app) != []
  {
    var t := Select(st.daily, Lifetime);
    SelectEverything(st.daily, Lifetime);
    var rows, sorted := GroupJoin(st.products, t), QueryLifetime(st);
    GroupJoinRows(st.products, t);
    LifetimeFunctional(st);
    SnapshotLookup(sorted);
    if app in SnapshotOf(sorted) {
      var i :| 0 <= i < |sorted| && sorted[i].app == app;
      assert sorted[i] in multiset(sorted);
      assert sorted[i] in rows;
    }
    if Matches(t, app) != [] {
      MatchesHaveProduct(st.products, t, app);
      var r :| r in rows && r.app == app;
      assert r in multiset(rows);
      assert r in multiset(sorted);
      var i :| 0 <= i < |sorted| && sorted[i] == r;
    }
  }

  lemma {:induction false} MatchesHaveProduct(ps: seq<Product>, t: seq<DailyRow>, app: int)
    requires ForeignKey(t, ps) && Matches(t, app) != []
    ensures HasProduct(ps, app)
  {
    if t[|t| - 1].app != app {
      MatchesHaveProduct(ps, t[..|t| - 1], app);
    }
  }

  // --- The message, read off the tables ------------------------------------------------------

  /** The product has sales afterwards, and more net units over all dates than before. */
  ghost predicate Rose(was: seq<DailyRow>, after: Store, app: int) {
    Sold(after.daily, app, Lifetime) && UnitsOf(after.daily, app, Lifetime) > UnitsOf(was, app, Lifetime)
  }

  ghost function AllRisen(was: seq<DailyRow>, after: Store): set<int> {
    set p | p in after.products && Rose(was, after, p.app) :: p.app
  }

  function NameIn(ps: seq<Product>, app: int): string {
    if HasProduct(ps, app) then ProductOf(ps, app).name else ""
  }

  /** One line a product: its name and by how much it rose. */
  function ProductLines(was: seq<DailyRow>, after: Store, apps: seq<int>): string {
    if apps == [] then ""
    else
      var app := apps[|apps| - 1];
      ProductLines(was, after, apps[..|apps| - 1])
      + (NameIn(after.products, app) + ": +"
         + Decimal.Thousands(UnitsOf(after.daily, app, Lifetime) - UnitsOf(was, app, Lifetime)) + "\n")
  }

  /** Different products that rose: six, or all if there are no more. */
  ghost predicate Shown(apps: seq<int>, was: seq<DailyRow>, after: Store) {
    && (forall i, j | 0 <= i < j < |apps| :: apps[i] != apps[j])
    && (forall i | 0 <= i < |apps| :: Rose(was, after, apps[i]))
    && |apps| == (if |AllRisen(was, after)| <= 6 then |AllRisen(was, after)| else 6)
  }

  /**
   * The message between two states of the cache: nothing unless a product rose; else
   * a line for each product shown and one with the net units of today.
   */
  ghost predicate Tells(text: string, was: seq<DailyRow>, after: Store, today: string) {
    if exists a :: Rose(was, after, a) then
      exists apps :: Shown(apps, was, after)
                     && text == ProductLines(was, after, apps)
                                + ("Today: " + Decimal.Thousands(SumForDate(after, today)) + " net units")
    else text == ""
  }

  lemma {:induction false} SumIsUnits(t: seq<DailyRow>, app: int)
    ensures NetSum(Matches(t, app)) == UnitsOf(t, app, Lifetime)
    ensures Matches(t, app) != [] <==> Sold(t, app, Lifetime)
  {
    MatchesInWindow(t, app, Lifetime);
    SelectEverything(t, Lifetime);
  }

  lemma SnapshotNames(st: Store, app: int)
    requires ValidStore(st) && app in SnapshotOf(QueryLifetime(st))
    ensures SnapshotOf(QueryLifetime(st))[app].name == NameIn(st.products, app)
  {
    hide Sold, UnitsOf, ValidStore, SnapshotOf;
    LifetimeFunctional(st);
    QueryLifetimeLists(st);
    SnapshotLookup(QueryLifetime(st));
    hide QueryLifetime, Functional;
    var q := QueryLifetime(st);
    var i :| 0 <= i < |q| && q[i].app == app;
  }

  // What the snapshots say of a product is what the tables say.
  lemma RiseIsRose(before: Store, after: Store, app: int)
    requires ValidStore(before) && ValidStore(after)
    ensures var b, a := SnapshotOf(QueryLifetime(before)), SnapshotOf(QueryLifetime(after));
            && Rise(b, a, app) == UnitsOf(after.daily, app, Lifetime) - UnitsOf(before.daily, app, Lifetime)
            && (app in a && Rise(b, a, app) > 0 <==> Rose(before.daily, after, app))
  {
    hide ValidStore, QueryLifetime, SnapshotOf, Matches, NetSum, Sold, UnitsOf;
    SnapshotUnits(before, app);
    SnapshotUnits(after, app);
    SumIsUnits(before.daily, app);
    SumIsUnits(after.daily, app);
  }

  lemma {:induction false} LinesAreProductLines(before: Store, after: Store, apps: seq<int>)
    requires ValidStore(before) && ValidStore(after)
    requires forall i | 0 <= i < |apps| :: apps[i] in SnapshotOf(QueryLifetime(after))
    ensures Lines(SnapshotOf(QueryLifetime(before)), SnapshotOf(QueryLifetime(after)), apps) ==
            ProductLines(before.daily, after, apps)
  {
    hide ValidStore, QueryLifetime, SnapshotOf, UnitsOf, Rise, NameIn, Decimal.Thousands;
    if apps != [] {
      var app := apps[|apps| - 1];
      LinesAreProductLines(before, after, apps[..|apps| - 1]);
      RiseIsRose(before, after, app);
      SnapshotNames(after, app);
    }
  }

  // The products listed are some that rose, each once.
  lemma LeadingAreShown(before: Store, after: Store, order: seq<int>)
    requires ValidStore(before) && ValidStore(after) && Walks(order, SnapshotOf(QueryLifetime(after)))
    ensures var b, a := SnapshotOf(QueryLifetime(before)), SnapshotOf(QueryLifetime(after));
            var apps := Leading(Risers(b, a, order));
            Shown(apps, before.daily, after) && forall i | 0 <= i < |apps| :: apps[i] in a
  {
    hide ValidStore, QueryLifetime, SnapshotOf, Rise, Rose, Risers;
    var b, a := SnapshotOf(QueryLifetime(before)), SnapshotOf(QueryLifetime(after));
    var risers := Risers(b, a, order);
    RisersAre(b, a, order);
    RisersDistinct(b, a, order);
    LineCount(b, a, order);
    forall app ensures app in a && Rise(b, a, app) > 0 <==> Rose(before.daily, after, app) {
      RiseIsRose(before, after, app);
    }
    forall i | 0 <= i < |risers| ensures risers[i] in a && Rise(b, a, risers[i]) > 0 {
      assert risers[i] in Risen(b, a, order);
    }
    RisenIsAllRisen(before, after);
  }

  lemma RisenIsAllRisen(before: Store, after: Store)
    requires ValidStore(before) && ValidStore(after)
    ensures var b, a := SnapshotOf(QueryLifetime(before)), SnapshotOf(QueryLifetime(after));
            (set app | app in a && Rise(b, a, app) > 0) == AllRisen(before.daily, after)
  {
    hide QueryLifetime, SnapshotOf, Rise;
    var b, a := SnapshotOf(QueryLifetime(before)), SnapshotOf(QueryLifetime(after));
    forall app ensures app in a && Rise(b, a, app) > 0 <==> app in AllRisen(before.daily, after) {
      RiseIsRose(before, after, app);
      if Rose(before.daily, after, app) {
        SoldHasProduct(after, app);
        assert ProductOf(after.products, app) in after.products;
      }
    }
  }

  lemma SoldHasProduct(st: Store, app: int)
    requires ValidStore(st) && Sold(st.daily, app, Lifetime)
    ensures HasProduct(st.products, app)
  {
    var r :| r in st.daily && r.app == app && InWindow(r.date, Lifetime);
    var i :| 0 <= i < |st.daily| && st.daily[i] == r;
  }

  lemma {:induction false} RisersAreWalked(before: Snapshot, after: Snapshot, order: seq<int>, i: nat)
    requires i < |Risers(before, after, order)|
    ensures Risers(before, after, order)[i] in order
  {
    hide Rise;
    if i < |Risers(before, after, order[..|order| - 1])| {
      RisersAreWalked(before, after, order[..|order| - 1], i);
    }
  }

  lemma {:induction false} RisersDistinct(before: Snapshot, after: Snapshot, order: seq<int>)
    requires forall i, j | 0 <= i < j < |order| :: order[i] != order[j]
    ensures var risers := Risers(before, after, order);
            forall i, j | 0 <= i < j < |risers| :: risers[i] != risers[j]
  {
    hide Rise;
    if order != [] {
      var front, last := order[..|order| - 1], order[|order| - 1];
      RisersDistinct(before, after, front);
      var risers := Risers(before, after, front);
      forall i | 0 <= i < |risers| ensures risers[i] != last {
        RisersAreWalked(before, after, front, i);
        assert risers[i] in front;
      }
    }
  }

  /** Whatever order the map is walked in, the message tells what rose between the two states. */
  lemma MessageTells(before: Store, after: Store, order: seq<int>, today: string)
    requires ValidStore(before) && ValidStore(after) && Walks(order, SnapshotOf(QueryLifetime(after)))
    ensures var b, a := SnapshotOf(QueryLifetime(before)), SnapshotOf(QueryLifetime(after));
            Tells(Message(b, a, order, SumForDate(after, today)), before.daily, after, today)
  {
    hide ValidStore, QueryLifetime, SnapshotOf, Rise, Rose, Risers, Lines, ProductLines, Shown, Walks, SumForDate;
    var b, a := SnapshotOf(QueryLifetime(before)), SnapshotOf(QueryLifetime(after));
    var apps := Leading(Risers(b, a, order));
    SomeoneRose(b, a, order);
    LeadingAreShown(before, after, order);
    LinesAreProductLines(before, after, apps);
    forall app ensures app in a && Rise(b, a, app) > 0 <==> Rose(before.daily, after, app) {
      RiseIsRose(before, after, app);
    }
  }

  function SumOfRises(ps: seq<Product>, before: Snapshot, after: Snapshot): int {
    if ps == [] then 0 else Rise(before, after, ps[0].app) + SumOfRises(ps[1..], before, after)
  }

  lemma {:induction false} RisesByProduct(ps: seq<Product>, before: Store, after: Store)
    requires ValidStore(before) && ValidStore(after)
    ensures SumOfRises(ps, SnapshotOf(QueryLifetime(before)), SnapshotOf(QueryLifetime(after))) ==
            SumByProduct(ps, after.daily) - SumByProduct(ps, before.daily)
  {
    if ps != [] {
      SnapshotUnits(before, ps[0].app);
      SnapshotUnits(after, ps[0].app);
      RisesByProduct(ps[1..], before, after);
    }
  }

  /**
   * The per-product deltas of two snapshots add up to the change of the lifetime
   * sum, as long as no product was forgotten in between.
   */
  lemma RisesAddUp(before: Store, after: Store)
    requires ValidStore(before) && ValidStore(after)
    requires forall a | HasProduct(before.products, a) :: HasProduct(after.products, a)
    ensures SumOfRises(after.products, SnapshotOf(QueryLifetime(before)), SnapshotOf(QueryLifetime(after))) ==
            SumLifetime(after) - SumLifetime(before)
  {
    RisesByProduct(after.products, before, after);
    SumByProductIsNetSum(after.products, after.daily);
    SumByProductIsNetSum(after.products, before.daily);
    SelectEverything(before.daily, Lifetime);
    SelectEverything(after.daily, Lifetime);
  }
}
