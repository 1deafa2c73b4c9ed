// Following the max_id cursor over the pages of one date
// (GetAllDetailedSalesForDate in src/steam/SteamFinancialClient.cpp).
module SteamClient {
  import opened Aggregator
  import opened Ledger
  import Decimal

  const MAX_PAGES_PER_DATE: nat := 10_000

  datatype Page = Page(records: seq<SalesRecord>, maxId: string, hasMaxId: bool)

  /** Classes of request outcome; all but Success fail the request. */
  datatype ResultKind = Success | Offline | Auth | RateLimited | ServerError | TooLarge | Parse | Other

  datatype PageReply = GotPage(page: Page) | PageFailed(kind: ResultKind, message: string)

  /** What the i-th request of a fetch is answered, given the cursor it carries. */
  type Serve = (nat, string) -> PageReply

  datatype FetchResult = Fetched(records: seq<SalesRecord>) | FetchFailed(kind: ResultKind, message: string)

  function Prepend(records: seq<SalesRecord>, r: FetchResult): FetchResult {
    match r
    case Fetched(rest) => Fetched(records + rest)
    case FetchFailed(kind, message) => FetchFailed(kind, message)
  }

  /** The records of the requests from number `page` on, the cursor standing at `requested`. */
  function PagesFrom(serve: Serve, page: nat, requested: string): FetchResult
    decreases MAX_PAGES_PER_DATE - page
  {
    if page >= MAX_PAGES_PER_DATE then Fetched([])
    else
      match serve(page, requested)
      case PageFailed(kind, message) => FetchFailed(kind, message)
      case GotPage(p) =>
        if !p.hasMaxId || p.maxId == requested then Fetched(p.records)
        else Prepend(p.records, PagesFrom(serve, page + 1, p.maxId))
  }

  lemma PrependTwice(a: seq<SalesRecord>, b: seq<SalesRecord>, r: FetchResult)
    ensures Prepend(a, Prepend(b, r)) == Prepend(a + b, r)
    ensures Prepend(a, Fetched(b)) == Fetched(a + b)
  {}

  // One request more.
  lemma PageStep(serve: Serve, page: nat, requested: string, out: seq<SalesRecord>)
    requires page < MAX_PAGES_PER_DATE
    ensures Prepend(out, PagesFrom(serve, page, requested)) ==
            match serve(page, requested)
            case PageFailed(kind, message) => FetchFailed(kind, message)
            case GotPage(p) =>
              if !p.hasMaxId || p.maxId == requested then Fetched(out + p.records)
              else Prepend(out + p.records, PagesFrom(serve, page + 1, p.maxId))
  {
    var reply := serve(page, requested);
    if reply.GotPage? {
      PrependTwice(out, reply.page.records, PagesFrom(serve, page + 1, reply.page.maxId));
    }
  }

  lemma PagesEnd(serve: Serve, requested: string, out: seq<SalesRecord>)
    ensures Prepend(out, PagesFrom(serve, MAX_PAGES_PER_DATE, requested)) == Fetched(out)
  {
    assert out + [] == out;
  }

  lemma PagesBegin(r: FetchResult)
    ensures Prepend([], r) == r
  {
    if r.Fetched? {
      assert [] + r.records == r.records;
    }
  }

  /** The last of the requests was refused, and for that reason. */
  ghost predicate RefusedAt(serve: Serve, requests: nat, kind: ResultKind, message: string) {
    exists i: nat, c: string {:trigger serve(i, c)} :: i + 1 == requests && serve(i, c) == PageFailed(kind, message)
  }

  /** The loop. It ends against any server whatever, within the cap on requests. */
  method GetAllDetailedSalesForDate(serve: Serve)
      returns (result: FetchResult, requests: nat)
    ensures result == PagesFrom(serve, 0, "0")
    ensures requests <= 10_000
    ensures result.FetchFailed? ==> RefusedAt(serve, requests, result.kind, result.message)
  {
    hide PagesFrom, Prepend;
    var out := [];
    var requested := "0";
    requests := 0;
    PagesBegin(PagesFrom(serve, 0, "0"));
    for page := 0 to MAX_PAGES_PER_DATE
      invariant PagesFrom(serve, 0, "0") == Prepend(out, PagesFrom(serve, page, requested))
      invariant requests == page
    {
      PageStep(serve, page, requested, out);
      var reply := serve(page, requested);
      requests := requests + 1;
      if reply.PageFailed? {
        return FetchFailed(reply.kind, reply.message), requests;
      }
      out := out + reply.page.records;
      if !reply.page.hasMaxId || reply.page.maxId == requested {
        return Fetched(out), requests;
      }
      requested := reply.page.maxId;
    }
    PagesEnd(serve, requested, out);
    return Fetched(out), requests;
  }

  // --- The documented paging contract of the service --------------------------------------

  function After(es: seq<Entry>, id: nat): seq<Entry> {
    if es == [] || es[0].id > id then es else After(es[1..], id)
  }

  function Min(a: nat, b: nat): nat { if a < b then a else b }

  /** The next `size` entries past the cursor; the cursor itself when none remain. */
  function LedgerPage(es: seq<Entry>, cursor: string, size: nat): Page {
    var rest := After(es, Decimal.Value(cursor));
    var block := rest[..Min(size, |rest|)];
    Page(Payload(block), if block == [] then cursor else Decimal.Text(block[|block| - 1].id), true)
  }

  /** Every request is either refused or answered from the ledger as it is at that moment. */
  ghost predicate ServedFrom(serve: Serve, ledgers: nat -> seq<Entry>, sizes: nat -> nat) {
    forall i, c {:trigger serve(i, c)} | 0 <= i < MAX_PAGES_PER_DATE ::
      && sizes(i) > 0
      && (serve(i, c).GotPage? ==> serve(i, c).page == LedgerPage(ledgers(i), c, sizes(i)))
  }

  /** How many entries the requests from number `page` on can carry. */
  ghost function Capacity(sizes: nat -> nat, page: nat): nat
    decreases MAX_PAGES_PER_DATE - page
  {
    if page >= MAX_PAGES_PER_DATE then 0 else sizes(page) + Capacity(sizes, page + 1)
  }

  lemma {:induction false} AfterPrefix(es: seq<Entry>, k: nat, id: nat)
    requires SortedIds(es) && k <= |es|
    requires k > 0 ==> es[k - 1].id <= id
    requires k < |es| ==> id < es[k].id
    ensures After(es, id) == es[k..]
  {
    if k > 0 {
      assert es[0].id <= es[k - 1].id;
      assert es[1..][k - 1..] == es[k..];
      AfterPrefix(es[1..], k - 1, id);
    }
  }

  // The page past entry k.
  lemma PageAt(es: seq<Entry>, k: nat, requested: string, size: nat)
    requires SortedIds(es) && k <= |es| && size > 0
    requires Decimal.Value(requested) == LastId(es, k)
    ensures var p := LedgerPage(es, requested, size);
            var b := Min(size, |es| - k);
            && p.hasMaxId && p.records == Payload(es[k..k + b])
            && (p.maxId == requested <==> k == |es|)
            && Decimal.Value(p.maxId) == LastId(es, k + b)
  {
    hide Decimal.Value, Decimal.Text;
    AfterPrefix(es, k, Decimal.Value(requested));
    var b := Min(size, |es| - k);
    assert es[k..][..b] == es[k..k + b];
    if b > 0 {
      Decimal.TextValue(es[k + b - 1].id);
    }
  }

  function LastId(es: seq<Entry>, k: nat): nat
    requires k <= |es|
  {
    if k == 0 then 0 else es[k - 1].id
  }

  lemma PayloadSplit(es: seq<Entry>, i: nat, j: nat, k: nat)
    requires i <= j <= k <= |es|
    ensures Payload(es[i..j]) + Payload(es[j..k]) == Payload(es[i..k])
  {}

  // The fetch resumed at entry k of an unchanging ledger.
  lemma {:induction false} PagesFromLedger(
      serve: Serve, es: seq<Entry>, sizes: nat -> nat, page: nat, k: nat, requested: string)
    requires ServedFrom(serve, _ => es, sizes) && SortedIds(es)
    requires page <= MAX_PAGES_PER_DATE && k <= |es|
    requires Decimal.Value(requested) == LastId(es, k)
    ensures PagesFrom(serve, page, requested).Fetched? ==>
              PagesFrom(serve, page, requested).records ==
              Payload(es[k..Min(|es|, k + Capacity(sizes, page))])
    decreases MAX_PAGES_PER_DATE - page
  {
    hide LedgerPage, After, LastId, SortedIds;
    if page < MAX_PAGES_PER_DATE && serve(page, requested).GotPage? {
      var b := Min(sizes(page), |es| - k);
      PageAt(es, k, requested, sizes(page));
      if k < |es| {
        PagesFromLedger(serve, es, sizes, page + 1, k + b, serve(page, requested).page.maxId);
        PayloadSplit(es, k, k + b, Min(|es|, k + Capacity(sizes, page)));
      }
    }
  }

  /**
   * Against an unchanging ledger a successful fetch returns, once each and in id
   * order, exactly as many entries as the capped requests can carry; so it is
   * complete if and only if the date fits into them.
   */
  lemma PaginationIsComplete(serve: Serve, es: seq<Entry>, sizes: nat -> nat)
    requires ServedFrom(serve, _ => es, sizes) && SortedIds(es)
    requires PagesFrom(serve, 0, "0").Fetched?
    ensures PagesFrom(serve, 0, "0").records == Payload(es[..Min(|es|, Capacity(sizes, 0))])
    ensures PagesFrom(serve, 0, "0").records == Payload(es) <==> |es| <= Capacity(sizes, 0)
  {
    assert Decimal.Value("0") == 0 by { assert "0"[..0] == ""; }
    PagesFromLedger(serve, es, sizes, 0, 0, "0");
    var n := Min(|es|, Capacity(sizes, 0));
    assert es[0..n] == es[..n];
    if n == |es| {
      assert es[..n] == es;
    } else {
      assert |Payload(es[..n])| != |Payload(es)|;
    }
  }

  // Every request can carry an entry.
  lemma {:induction false} CapacityAtLeast(serve: Serve, es: seq<Entry>, sizes: nat -> nat, page: nat)
    requires ServedFrom(serve, _ => es, sizes) && page <= 10_000
    ensures Capacity(sizes, page) >= 10_000 - page
    decreases 10_000 - page
  {
    hide LedgerPage;
    if page < 10_000 {
      CapacityAtLeast(serve, es, sizes, page + 1);
      var _ := serve(page, "");
    }
  }

  /** A date of up to 10,000 entries comes back whole, whatever the size of the pages. */
  lemma TenThousandFit(serve: Serve, es: seq<Entry>, sizes: nat -> nat)
    requires ServedFrom(serve, _ => es, sizes) && SortedIds(es) && |es| <= 10_000
    requires PagesFrom(serve, 0, "0").Fetched?
    ensures PagesFrom(serve, 0, "0").records == Payload(es)
  {
    hide PagesFrom, ServedFrom, Capacity;
    CapacityAtLeast(serve, es, sizes, 0);
    PaginationIsComplete(serve, es, sizes);
  }

  /** The successive states of one date's ledger. */
  ghost function EntriesAt(during: nat -> Server, d: string): nat -> seq<Entry> {
    (i: nat) => Entries(during(i), d)
  }

  ghost predicate Throughout(a: Server, during: nat -> Server, b: Server) {
    forall i: nat | i < MAX_PAGES_PER_DATE :: Evolves(a, during(i)) && Evolves(during(i), b)
  }

  lemma Undisturbed(a: Server, s: Server, b: Server, d: string)
    requires Evolves(a, s) && Evolves(s, b) && !HasEvent(b, d, a.clock)
    ensures Entries(s, d) == Entries(a, d)
  {}

  /**
   * A fetch whose pages were served while the server went from a to b, with room
   * for the whole date, is a possibly torn read: whole unless the date changed.
   */
  lemma FetchIsTornAtWorst(
      serve: Serve, a: Server, b: Server, during: nat -> Server, sizes: nat -> nat, d: string)
    requires Evolves(a, b) && Throughout(a, during, b)
    requires ServedFrom(serve, EntriesAt(during, d), sizes)
    requires |Entries(a, d)| <= Capacity(sizes, 0)
    requires PagesFrom(serve, 0, "0").Fetched?
    ensures FetchedBetween(a, b, d, PagesFrom(serve, 0, "0").records)
  {
    if !HasEvent(b, d, a.clock) {
      var es := Entries(a, d);
      forall i: nat | i < MAX_PAGES_PER_DATE ensures EntriesAt(during, d)(i) == es {
        Undisturbed(a, during(i), b, d);
      }
      assert ServedFrom(serve, _ => es, sizes);
      PaginationIsComplete(serve, es, sizes);
    }
  }
}
