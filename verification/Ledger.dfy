// The remote side of the replication: a ledger of line items per financial date
// that keeps changing, with a change event for every date touched.
module Ledger {
  import opened Aggregator
  import Decimal

  datatype Entry = Entry(id: nat, rec: SalesRecord)

  datatype Event = Event(stamp: nat, date: string)

  datatype Server = Server(ledger: map<string, seq<Entry>>, log: set<Event>, clock: nat)

  function Payload(es: seq<Entry>): seq<SalesRecord> {
    seq(|es|, i requires 0 <= i < |es| => es[i].rec)
  }

  function Entries(sv: Server, d: string): seq<Entry> {
    if d in sv.ledger then sv.ledger[d] else []
  }

  function Records(sv: Server, d: string): seq<SalesRecord> {
    Payload(Entries(sv, d))
  }

  ghost predicate HasEvent(sv: Server, d: string, above: nat) {
    exists e :: e in sv.log && e.date == d && e.stamp > above
  }

  /** Ids are positive and ascend along a date. */
  ghost predicate SortedIds(es: seq<Entry>) {
    && (forall i | 0 <= i < |es| :: es[i].id > 0)
    && (forall i, j | 0 <= i < j < |es| :: es[i].id < es[j].id)
  }

  /** Stamps lie in (0, clock], and a date with records has an event. */
  ghost predicate ValidServer(sv: Server) {
    && (forall e | e in sv.log :: 0 < e.stamp <= sv.clock)
    && (forall d | Entries(sv, d) != [] :: HasEvent(sv, d, 0))
    && (forall d :: SortedIds(Entries(sv, d)))
  }

  /**
   * Any number of server-side changes: events are only added, each with a stamp
   * above every earlier moment, and a date without a new event is unchanged.
   */
  ghost predicate Evolves(a: Server, b: Server) {
    && ValidServer(a) && ValidServer(b)
    && a.log <= b.log && a.clock <= b.clock
    && (forall e | e in b.log && e !in a.log :: e.stamp > a.clock)
    && (forall d | !HasEvent(b, d, a.clock) :: Entries(b, d) == Entries(a, d))
  }

  lemma EvolvesRefl(a: Server)
    requires ValidServer(a)
    ensures Evolves(a, a)
  {}

  lemma EventsPersist(a: Server, b: Server, d: string, above: nat)
    requires Evolves(a, b) && HasEvent(a, d, above)
    ensures HasEvent(b, d, above)
  {}

  lemma EventsWeaken(a: Server, d: string, high: nat, low: nat)
    requires low <= high && HasEvent(a, d, high)
    ensures HasEvent(a, d, low)
  {}

  lemma EvolvesTrans(a: Server, b: Server, c: Server)
    requires Evolves(a, b) && Evolves(b, c)
    ensures Evolves(a, c)
  {}

  /** The reading of a high-water mark; the client never looks inside one. */
  function MarkValue(mark: string): nat {
    Decimal.Value(mark)
  }

  /**
   * A sound answer to "what changed since `asked`": every date with a later event
   * is named (others may be, in any order, repeatedly), and the mark handed out
   * does not run ahead of the server. "0" is answered only to "0".
   */
  ghost predicate SoundReply(sv: Server, asked: string, dates: seq<string>, mark: string) {
    && (forall d | HasEvent(sv, d, MarkValue(asked)) :: d in dates)
    && (mark != "" ==> MarkValue(mark) <= sv.clock && (mark == "0" ==> asked == "0"))
  }

  /**
   * What a possibly torn fetch of one date can return while the server goes from
   * a to b: anything, unless the date stayed as it was.
   */
  ghost predicate FetchedBetween(a: Server, b: Server, d: string, recs: seq<SalesRecord>) {
    Evolves(a, b) && (!HasEvent(b, d, a.clock) ==> recs == Records(a, d))
  }
}
