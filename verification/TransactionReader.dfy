/** The web API's summary of one transaction: its registration and its credential events must agree on where it is. */
module TransactionReader {
  import opened Base
  import opened LedgerModel
  import opened ProjectionStore
  import opened Replay
  import opened CredentialHistory
  import opened Lifecycle
  import opened Progress
  import opened Reader
  import opened SchemaHistory
  import opened SchemaReader

  /** The credential events stored for a transaction, in the order they were stored. */
  function EventsAt(events: seq<EventRow>, hash: string): seq<EventRow> {
    if events == [] then []
    else
      var n := |events| - 1;
      EventsAt(events[..n], hash) + (if events[n].transactionHash == hash then [events[n]] else [])
  }

  /** What the three queries of a summary return; the first event is the one with the smallest node index. */
  datatype Summary = Summary(registration: Option<SchemaEventRow>, first: Option<EventRow>, eventCount: int)

  predicate IsSummaryOf(summary: Summary, t: Tables, hash: string) {
    var matching := EventsAt(t.events, hash);
    && summary.registration == (if hash in t.schemaEvents then Some(t.schemaEvents[hash]) else None)
    && summary.eventCount == |matching|
    && match summary.first
       case None => matching == []
       case Some(first) =>
         first in matching && forall e :: e in matching ==> first.nodeIndex <= e.nodeIndex
  }

  const MAX_SAFE_INTEGER := 0x1F_FFFF_FFFF_FFFF

  function OwnExpectation(e: EventRow, hash: string, activationLedgerIndex: nat): EventExpectation {
    EventExpectation(hash, e.issuer, e.subject, e.schemaUid, activationLedgerIndex, None, None, None, None)
  }

  /** The checks on a summary. */
  predicate IsTransactionEvidence(summary: Summary, profile: Profile, hash: string, codec: Codec) {
    var registration, first := summary.registration, summary.first;
    && 0 <= summary.eventCount <= MAX_SAFE_INTEGER
    && (summary.eventCount == 0 <==> first.None?)
    && (registration.Some? ==> IsRegistrationEvidence(registration.value, profile, hash, codec))
    && (first.Some? ==> IsEventShape(first.value, OwnExpectation(first.value, hash, profile.activationIndex), codec.isAddress))
    && (registration.Some? && first.Some? ==>
          && registration.value.ledgerIndex == first.value.ledgerIndex
          && registration.value.ledgerHash == first.value.ledgerHash
          && registration.value.transactionIndex == first.value.transactionIndex)
  }

  /** Every stored event has the shape the reader asks for. */
  lemma StoredEventShape(s: Setting, n: nat, e: EventRow)
    requires Plausible(s, n) && ReplayOf(s, n).Ok? && e in ReplayOf(s, n).value.tables.events
    ensures IsEventShape(e, OwnExpectation(e, e.transactionHash, s.profile.activationIndex), s.codec.isAddress)
    ensures EventPlaced(s, e, n, 0, 0)
  {
    hide ReplayOf, Plausible, Story, GenerationPlaced, Shaped, Ordered, Tracks, EventPlaced, AllCounted, HistoryAdvance;
    var t := ReplayOf(s, n).value.tables;
    StuckExactly(s, n);
    var k :| 0 <= k < |t.events| && t.events[k] == e;
    assert e.generationId in Ids(t.generations);
    var i :| 0 <= i < |t.generations| && t.generations[i].generationId == e.generationId;
    StoredGeneration(s, n, i);
    OwnEvents(t.events, e);
    var es := EventsOf(t.events, e.generationId);
    var x :| 0 <= x < |es| && es[x] == e;
    StoryEventShape(s, n, t.generations[i], es, x);
    SameSubjects(t.generations[i], es, x);
  }

  lemma SameSubjects(g: GenerationRow, es: seq<EventRow>, x: nat)
    requires Story(g, es) && x < |es|
    ensures Concerns(es[x], g)
  {
  }

  /** Registration and credential events of one hash come from one transaction. */
  lemma SameTransaction(s: Setting, n: nat, row: SchemaEventRow, e: EventRow)
    requires Sound(s) && IsEventOf(s, n, 0, e.transactionHash, row) && EventPlaced(s, e, n, 0, 0)
    ensures row.ledgerIndex == e.ledgerIndex && row.ledgerHash == e.ledgerHash && row.transactionIndex == e.transactionIndex
  {
    hide RegistrationAt;
    var m, k := row.ledgerIndex - s.profile.activationIndex, e.ledgerIndex - s.profile.activationIndex;
    assert SameHash(s, m, row.transactionIndex, k, e.transactionIndex);
  }

  /** Events of one transaction that are ordered and placed have strictly increasing node indexes. */
  lemma {:induction false} EventsAtAscend(s: Setting, n: nat, events: seq<EventRow>, hash: string)
    requires Sound(s) && Ordered(events)
    requires forall i :: 0 <= i < |events| ==> EventPlaced(s, events[i], n, 0, 0)
    ensures forall e :: e in EventsAt(events, hash) ==> e in events && e.transactionHash == hash
    ensures forall i :: 0 <= i < |EventsAt(events, hash)| ==> EventsAt(events, hash)[i].nodeIndex >= i
    decreases |events|
  {
    hide Sound, EventPlaced;
    if events != [] {
      var m := |events| - 1;
      EventsAtAscend(s, n, events[..m], hash);
      var before, e := EventsAt(events[..m], hash), events[m];
      if before != [] && e.transactionHash == hash {
        var last := before[|before| - 1];
        assert last in before;
        var i :| 0 <= i < m && events[i] == last;
        assert Precedes(last, e);
        OnePlace(s, n, last, e);
      }
    }
  }

  lemma OnePlace(s: Setting, n: nat, a: EventRow, b: EventRow)
    requires Sound(s) && EventPlaced(s, a, n, 0, 0) && EventPlaced(s, b, n, 0, 0) && a.transactionHash == b.transactionHash
    ensures a.ledgerIndex == b.ledgerIndex && a.transactionIndex == b.transactionIndex
  {
    var activation := s.profile.activationIndex;
    assert SameHash(s, a.ledgerIndex - activation, a.transactionIndex, b.ledgerIndex - activation, b.transactionIndex);
  }

  /**
   Whatever summary the queries return for a transaction of a stored history, it passes every check, except where the
   stored registration is a refusal without a usable account.
   */
  lemma ReaderAcceptsTransactions(s: Setting, n: nat, hash: string, summary: Summary)
    requires Plausible(s, n) && ReplayOf(s, n).Ok? && NamesItsErrors(s.codec)
    requires IsSummaryOf(summary, ReplayOf(s, n).value.tables, hash)
    ensures IsTransactionEvidence(summary, s.profile, hash, s.codec)
            <==> (summary.registration.Some? ==> s.codec.isAddress(summary.registration.value.publisher))
  {
    hide ReplayOf, HasShape, UidsAreHashes, NamesItsErrors, IsEventShape, IsRegistrationEvidence, Sound,
         EventPlaced, HistoryAdvance, Tracks, Told, AllCounted, GenerationPlaced, Shaped, Ordered;
    var t := ReplayOf(s, n).value.tables;
    StuckExactly(s, n);
    EventsAtAscend(s, n, t.events, hash);
    if summary.first.Some? {
      var e := summary.first.value;
      StoredEventShape(s, n, e);
      var matching := EventsAt(t.events, hash);
      var last := matching[|matching| - 1];
      assert last in matching;
      var i :| 0 <= i < |t.events| && t.events[i] == last;
      PlacedShape(s, n, last);
    }
    if hash in t.schemaEvents {
      ReaderAcceptsRegistrations(s, n, hash);
      SchemaRowsAreExact(s, n);
      if summary.first.Some? { SameTransaction(s, n, t.schemaEvents[hash], summary.first.value); }
    }
  }
}
