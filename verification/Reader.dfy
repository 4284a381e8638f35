/**
 The web API's independent check of stored credential rows, and how far it agrees with the indexer: exactly which of
 the generations and event lists that the projection of a history writes pass it.
 */
module Reader {
  import opened Base
  import opened LedgerModel
  import opened ProjectionStore
  import opened Replay
  import opened SchemaHistory
  import opened CredentialHistory
  import opened Lifecycle
  import opened Progress

  /** The authoritative ledger range and the identifiers a route may ask for. */
  datatype GenerationExpectation = GenerationExpectation(
    activationLedgerIndex: nat,
    checkpointLedgerIndex: nat,
    generationId: Option<string>,
    issuer: Option<string>,
    subject: Option<string>,
    schemaUid: Option<string>)

  predicate Expected<T(==)>(expected: Option<T>, actual: T) {
    expected.None? || expected.value == actual
  }

  predicate ValidDeletionShape(g: GenerationRow) {
    || (g.deletedLedgerIndex.None? && g.cause.None?)
    || (g.deletedLedgerIndex.Some? && g.cause.Some? && g.deletedLedgerIndex.value == g.lastLedgerIndex)
  }

  predicate ValidExpiration(expiration: Option<int>) {
    expiration.Some? ==> IsUint32(expiration.value)
  }

  /** The checks on one generation row. */
  predicate IsGenerationEvidence(g: GenerationRow, expected: GenerationExpectation, isAddress: string -> bool) {
    && Expected(expected.generationId, g.generationId)
    && Expected(expected.issuer, g.issuer)
    && Expected(expected.subject, g.subject)
    && Expected(expected.schemaUid, g.schemaUid)
    && IsHash(g.generationId) && IsHash(g.objectId) && IsHash(g.schemaUid)
    && isAddress(g.issuer) && isAddress(g.subject)
    && (g.uriHex.Some? ==> IsHexBytes(g.uriHex.value))
    && ValidExpiration(g.expiration)
    && expected.activationLedgerIndex <= g.createdLedgerIndex <= expected.checkpointLedgerIndex
    && g.createdTransactionIndex <= MAX_NODE_INDEX
    && g.createdLedgerIndex <= g.lastLedgerIndex <= expected.checkpointLedgerIndex
    && (g.deletedLedgerIndex.Some? ==>
          g.createdLedgerIndex <= g.deletedLedgerIndex.value <= expected.checkpointLedgerIndex)
    && ValidDeletionShape(g)
  }

  datatype EventExpectation = EventExpectation(
    transactionHash: string,
    issuer: string,
    subject: string,
    schemaUid: string,
    activationLedgerIndex: nat,
    generationId: Option<string>,
    ledgerIndex: Option<nat>,
    ledgerHash: Option<string>,
    transactionIndex: Option<nat>)

  /** The checks on one event row. */
  predicate IsEventShape(e: EventRow, expected: EventExpectation, isAddress: string -> bool) {
    && e.transactionHash == expected.transactionHash
    && e.issuer == expected.issuer && e.subject == expected.subject && e.schemaUid == expected.schemaUid
    && Expected(expected.generationId, e.generationId)
    && Expected(expected.ledgerIndex, e.ledgerIndex)
    && Expected(expected.ledgerHash, e.ledgerHash)
    && Expected(expected.transactionIndex, e.transactionIndex)
    && IsHash(e.transactionHash) && IsHash(e.generationId) && IsHash(e.objectId)
    && IsHash(e.ledgerHash) && IsHash(e.schemaUid)
    && isAddress(e.issuer) && isAddress(e.subject)
    && e.nodeIndex <= MAX_NODE_INDEX
    && expected.activationLedgerIndex <= e.ledgerIndex <= UINT32_MAX
    && e.transactionIndex <= MAX_NODE_INDEX
    && (e.uriHex.Some? ==> IsHexBytes(e.uriHex.value))
    && ValidExpiration(e.expiration)
    && (e.cause.Some? <==> e.eventType.DeletedEvent?)
    && (e.eventType.CreatedEvent? ==> e.generationId == e.transactionHash && e.accepted == (e.issuer == e.subject))
    && (e.eventType.AcceptedEvent? ==> e.accepted)
  }

  const TIMELINE_LIMIT := 100

  function OfType(rows: seq<EventRow>, eventType: EventType): seq<EventRow> {
    if rows == [] then []
    else (if rows[0].eventType == eventType then [rows[0]] else []) + OfType(rows[1..], eventType)
  }

  predicate SameSubjectMatter(e: EventRow, g: GenerationRow) {
    e.objectId == g.objectId && e.uriHex == g.uriHex && e.expiration == g.expiration
  }

  /** The whole-timeline rules: rows that all belong together, in strictly increasing ledger order. */
  predicate IsSequence(rows: seq<EventRow>, g: GenerationRow) {
    forall i :: 0 <= i < |rows| ==> SameSubjectMatter(rows[i], g) && (i > 0 ==> Precedes(rows[i - 1], rows[i]))
  }

  function TimelineExpectation(e: EventRow, g: GenerationRow, activationLedgerIndex: nat): EventExpectation {
    EventExpectation(e.transactionHash, g.issuer, g.subject, g.schemaUid, activationLedgerIndex,
                     Some(g.generationId), None, None, None)
  }

  /** The checks on a generation's timeline; false is the reader's evidence-invalid answer. */
  predicate IsTimeline(rows: seq<EventRow>, g: GenerationRow, activationLedgerIndex: nat, isAddress: string -> bool) {
    && 0 < |rows| <= TIMELINE_LIMIT
    && (forall i :: 0 <= i < |rows| ==>
          IsEventShape(rows[i], TimelineExpectation(rows[i], g, activationLedgerIndex), isAddress))
    && IsSequence(rows, g)
    && var created, accepted, deleted := OfType(rows, CreatedEvent), OfType(rows, AcceptedEvent), OfType(rows, DeletedEvent);
    var first, last := rows[0], rows[|rows| - 1];
    && |created| == 1
    && first.eventType.CreatedEvent?
    && first.transactionHash == g.generationId
    && first.ledgerIndex == g.createdLedgerIndex
    && first.transactionIndex == g.createdTransactionIndex
    && |accepted| <= 1 && |deleted| <= 1
    && (forall i :: 0 <= i < |deleted| ==> deleted[i].accepted == g.accepted)
    && last.ledgerIndex == g.lastLedgerIndex
    && g.accepted == (first.accepted || |accepted| == 1)
    && (if g.deletedLedgerIndex.None? then |deleted| == 0
        else
          && |deleted| == 1 && last.eventType.DeletedEvent?
          && Some(last.ledgerIndex) == g.deletedLedgerIndex && last.cause == g.cause)
  }

  // ---- The query behind a timeline -----------------------------------------------------------

  /** A result of ORDER BY ledger, transaction and node over the matching rows. */
  ghost predicate IsOrderedResult(rows: seq<EventRow>, matching: seq<EventRow>) {
    && multiset(rows) == multiset(matching)
    && forall i, j :: 0 <= i < j < |rows| ==> !Precedes(rows[j], rows[i])
  }

  /** What the query returns: the first rows of such a result, as many as it asks for. */
  ghost predicate IsQueryResult(rows: seq<EventRow>, matching: seq<EventRow>, limit: nat) {
    exists all :: IsOrderedResult(all, matching) && rows == all[..Min(limit, |all|)]
  }

  lemma LastOfOrderedResult(rows: seq<EventRow>, matching: seq<EventRow>)
    requires IsOrderedResult(rows, matching) && Ordered(matching) && matching != []
    ensures |rows| == |matching| && rows[|rows| - 1] == matching[|matching| - 1]
  {
    hide Precedes;
    assert |rows| == |multiset(rows)| == |matching|;
    var n := |matching| - 1;
    assert matching[n] in multiset(rows);
    var i :| 0 <= i < |rows| && rows[i] == matching[n];
    assert rows[n] in multiset(matching);
    var j :| 0 <= j < |matching| && matching[j] == rows[n];
  }

  lemma EqualWithoutLast(xs: seq<EventRow>, ys: seq<EventRow>)
    requires multiset(xs) == multiset(ys) && |xs| == |ys| > 0 && xs[|xs| - 1] == ys[|ys| - 1]
    ensures multiset(xs[..|xs| - 1]) == multiset(ys[..|ys| - 1])
  {
    var n := |xs| - 1;
    assert xs == xs[..n] + [xs[n]] && ys == ys[..n] + [ys[n]];
    assert multiset(xs[..n]) == multiset(xs) - multiset{xs[n]};
    assert multiset(ys[..n]) == multiset(ys) - multiset{ys[n]};
  }

  /** When stored rows have strictly increasing positions, the query can only return them as stored. */
  lemma {:induction false} OrderedResultIsStored(rows: seq<EventRow>, matching: seq<EventRow>)
    requires IsOrderedResult(rows, matching) && Ordered(matching)
    ensures rows == matching
    decreases |matching|
  {
    hide Precedes;
    if matching == [] {
      assert |rows| == |multiset(rows)| == 0;
    } else {
      LastOfOrderedResult(rows, matching);
      EqualWithoutLast(rows, matching);
      var n := |matching| - 1;
      OrderedResultIsStored(rows[..n], matching[..n]);
      assert rows == rows[..n] + [rows[n]] && matching == matching[..n] + [matching[n]];
    }
  }

  lemma QueryResultIsStored(rows: seq<EventRow>, matching: seq<EventRow>, limit: nat)
    requires IsQueryResult(rows, matching, limit) && Ordered(matching)
    ensures rows == matching[..Min(limit, |matching|)]
  {
    var all :| IsOrderedResult(all, matching) && rows == all[..Min(limit, |all|)];
    OrderedResultIsStored(all, matching);
  }

  // ---- Agreement -----------------------------------------------------------------------------

  lemma {:induction false} OfTypeAppended(rows: seq<EventRow>, e: EventRow, t: EventType)
    ensures OfType(rows + [e], t) == OfType(rows, t) + (if e.eventType == t then [e] else [])
    decreases |rows|
  {
    if rows == [] {
      assert [e][1..] == [];
    } else {
      OfTypeAppended(rows[1..], e, t);
      var longer := rows + [e];
      assert longer[0] == rows[0] && longer[1..] == rows[1..] + [e];
      assert OfType(longer, t) == (if rows[0].eventType == t then [rows[0]] else []) + OfType(rows[1..] + [e], t);
    }
  }

  lemma {:induction false} OfTypeConcat(a: seq<EventRow>, b: seq<EventRow>, t: EventType)
    ensures OfType(a + b, t) == OfType(a, t) + OfType(b, t)
    decreases |b|
  {
    if b == [] {
      assert a + b == a;
    } else {
      var n := |b| - 1;
      assert b == b[..n] + [b[n]] && a + b == (a + b[..n]) + [b[n]];
      OfTypeConcat(a, b[..n], t);
      OfTypeAppended(a + b[..n], b[n], t);
      OfTypeAppended(b[..n], b[n], t);
    }
  }

  lemma {:induction false} OfOneType(rows: seq<EventRow>, actual: EventType, t: EventType)
    requires forall i :: 0 <= i < |rows| ==> rows[i].eventType == actual
    ensures OfType(rows, t) == if t == actual then rows else []
    decreases |rows|
  {
    if rows != [] {
      OfOneType(rows[1..], actual, t);
      assert rows == [rows[0]] + rows[1..];
    }
  }

  /** A story has three parts: its creation, its acceptances, its deletion. */
  lemma PartTypes(g: GenerationRow, es: seq<EventRow>)
    requires Story(g, es)
    ensures 1 <= StepsOf(g, es) <= |es| && es[0].eventType == CreatedEvent
    ensures forall i :: 0 <= i < |es[1..StepsOf(g, es)]| ==> es[1..StepsOf(g, es)][i].eventType == AcceptedEvent
    ensures forall i :: 0 <= i < |es[StepsOf(g, es)..]| ==> es[StepsOf(g, es)..][i].eventType == DeletedEvent
    ensures es[StepsOf(g, es)..] == if g.deletedLedgerIndex.Some? then [es[|es| - 1]] else []
  {
    hide Concerns;
  }

  lemma PartsOfStory(g: GenerationRow, es: seq<EventRow>, t: EventType)
    requires Story(g, es) && 1 <= StepsOf(g, es) <= |es|
    ensures t == CreatedEvent ==> OfType(es, t) == [es[0]]
    ensures t == AcceptedEvent ==> OfType(es, t) == es[1..StepsOf(g, es)]
    ensures t == DeletedEvent ==> OfType(es, t) == es[StepsOf(g, es)..]
  {
    hide Story, OfType;
    var steps := StepsOf(g, es);
    var first, accepted, last := [es[0]], es[1..steps], es[steps..];
    PartTypes(g, es);
    assert es == first + accepted + last;
    OfTypeConcat(first + accepted, last, t);
    OfTypeConcat(first, accepted, t);
    OfOneType(first, CreatedEvent, t);
    OfOneType(accepted, AcceptedEvent, t);
    OfOneType(last, DeletedEvent, t);
  }

  /** The stored lifecycle as the reader's counting rules see it. */
  lemma StoryCounts(g: GenerationRow, es: seq<EventRow>)
    requires Story(g, es)
    ensures |OfType(es, CreatedEvent)| == 1
    ensures |OfType(es, AcceptedEvent)| == StepsOf(g, es) - 1
    ensures OfType(es, DeletedEvent) == if g.deletedLedgerIndex.Some? then [es[|es| - 1]] else []
  {
    hide Story, OfType;
    PartTypes(g, es);
    PartsOfStory(g, es, CreatedEvent);
    PartsOfStory(g, es, AcceptedEvent);
    PartsOfStory(g, es, DeletedEvent);
  }

  /** Rows that tell one lifecycle, at the positions they claim, pass the timeline checks unless they repeat an acceptance. */
  lemma StoryIsTimeline(s: Setting, n: nat, g: GenerationRow, es: seq<EventRow>)
    requires Plausible(s, n) && Story(g, es) && Ordered(es)
    requires GenerationPlaced(s, g, n, 0, false) && Shaped(g, s.codec)
    requires forall i :: 0 <= i < |es| ==> EventPlaced(s, es[i], n, 0, 0)
    ensures IsTimeline(es, g, s.profile.activationIndex, s.codec.isAddress) <==> |OfType(es, AcceptedEvent)| <= 1
  {
    hide Plausible, OfType, IsEventShape, Shaped, GenerationPlaced, EventPlaced;
    StoryCounts(g, es);
    forall i | 0 <= i < |es|
      ensures IsEventShape(es[i], TimelineExpectation(es[i], g, s.profile.activationIndex), s.codec.isAddress)
      ensures SameSubjectMatter(es[i], g)
    {
      assert Concerns(es[i], g);
      StoryEventShape(s, n, g, es, i);
    }
  }

  lemma StoryEventShape(s: Setting, n: nat, g: GenerationRow, es: seq<EventRow>, i: nat)
    requires Plausible(s, n) && Story(g, es) && i < |es|
    requires GenerationPlaced(s, g, n, 0, false) && Shaped(g, s.codec) && EventPlaced(s, es[i], n, 0, 0)
    ensures IsEventShape(es[i], TimelineExpectation(es[i], g, s.profile.activationIndex), s.codec.isAddress)
  {
    hide HistoryAdvance, UidsAreHashes, DistinctLedgers, Sound, IsHash, IsHexBytes, FitsChain;
    var e := es[i];
    assert Concerns(e, g);
    var c := g.createdLedgerIndex - s.profile.activationIndex;
    PlacedShape(s, n, e);
    assert HasLedgerShape(LedgerAt(s, c));
  }

  lemma StoryIsEvidence(s: Setting, n: nat, g: GenerationRow, es: seq<EventRow>, expected: GenerationExpectation)
    requires Plausible(s, n) && Story(g, es) && Ordered(es)
    requires GenerationPlaced(s, g, n, 0, false) && Shaped(g, s.codec)
    requires forall i :: 0 <= i < |es| ==> EventPlaced(s, es[i], n, 0, 0)
    requires expected.activationLedgerIndex == s.profile.activationIndex
    requires expected.checkpointLedgerIndex == s.profile.activationIndex + n - 1
    requires Expected(expected.generationId, g.generationId) && Expected(expected.schemaUid, g.schemaUid)
    requires Expected(expected.issuer, g.issuer) && Expected(expected.subject, g.subject)
    ensures IsGenerationEvidence(g, expected, s.codec.isAddress)
  {
    hide Sound, HistoryAdvance;
    var last, c := es[|es| - 1], g.createdLedgerIndex - s.profile.activationIndex;
    assert EventPlaced(s, last, n, 0, 0);
    assert HasLedgerShape(LedgerAt(s, c));
    assert |es| > 1 ==> Precedes(es[0], last);
  }

  /** What the projection of a history stores about any one generation. */
  lemma StoredGeneration(s: Setting, n: nat, i: nat)
    requires Plausible(s, n) && ReplayOf(s, n).Ok? && i < |ReplayOf(s, n).value.tables.generations|
    ensures var t := ReplayOf(s, n).value.tables;
            var g := t.generations[i];
            var es := EventsOf(t.events, g.generationId);
            && Story(g, es) && Ordered(es)
            && GenerationPlaced(s, g, n, 0, false) && Shaped(g, s.codec)
            && (forall x :: 0 <= x < |es| ==> EventPlaced(s, es[x], n, 0, 0))
            && IsCounted(g, es, HistoryAdvance(s, n).value)
            && (g.deletedLedgerIndex.None? ==> MirrorsLive(g, HistoryAdvance(s, n).value.live))
  {
    hide ReplayOf, Plausible, Story, EventPlaced, GenerationPlaced, Shaped, Ordered, MirrorsLive, IsCounted,
         HistoryAdvance, OneLivePerObject, LiveIndex, IsFollowed;
    var t := ReplayOf(s, n).value.tables;
    var g := t.generations[i];
    StuckExactly(s, n);
    StoryAt(t.generations, t.events, i);
    SelectedAreOrdered(t.events, g.generationId);
    var es := EventsOf(t.events, g.generationId);
    forall x | 0 <= x < |es| ensures EventPlaced(s, es[x], n, 0, 0) {
      assert es[x] in t.events;
    }
  }

  /** The object of the ledger that a stored generation stands for. */
  function StoredObject(s: Setting, n: nat, g: GenerationRow): LiveObject
    requires HistoryAdvance(s, n).Some? && IsObjectOf(g, HistoryAdvance(s, n).value)
  {
    ObjectOf(g, HistoryAdvance(s, n).value)
  }

  /**
   Writer and reader agree up to one thing. On every history the XRPL can produce, whatever row the reader picks and
   however the database orders equal sort keys: the generation passes every check; its events hold one acceptance for
   the real one, if the object was not accepted on creation, and one for each quiet modification; and what the query for
   one row more than a timeline may have returns passes exactly when that makes at most one.
   */
  lemma ReaderAcceptsExactly(s: Setting, n: nat, i: nat, rows: seq<EventRow>)
    requires Plausible(s, n) && ReplayOf(s, n).Ok? && i < |ReplayOf(s, n).value.tables.generations|
    requires var t := ReplayOf(s, n).value.tables;
             IsQueryResult(rows, EventsOf(t.events, t.generations[i].generationId), TIMELINE_LIMIT + 1)
    ensures var t := ReplayOf(s, n).value.tables;
            var g := t.generations[i];
            && n > 0 && |t.checkpoints| == n
            && t.checkpoints[n - 1].ledgerIndex == s.profile.activationIndex + n - 1
            && IsGenerationEvidence(
                 g,
                 GenerationExpectation(s.profile.activationIndex, t.checkpoints[n - 1].ledgerIndex,
                                       Some(g.generationId), Some(g.issuer), Some(g.subject), Some(g.schemaUid)),
                 s.codec.isAddress)
            && IsObjectOf(g, HistoryAdvance(s, n).value)
            && |OfType(EventsOf(t.events, g.generationId), AcceptedEvent)| == Acceptances(StoredObject(s, n, g))
            && (IsTimeline(rows, g, s.profile.activationIndex, s.codec.isAddress)
                <==> Acceptances(StoredObject(s, n, g)) <= 1)
  {
    hide ReplayOf, Plausible, IsTimeline, IsGenerationEvidence, Story, EventPlaced, GenerationPlaced, Shaped,
         Ordered, IsQueryResult, EventsOf, Sound, IsHistory, MirrorsLive, HistoryAdvance, Acceptances, OfType;
    var t := ReplayOf(s, n).value.tables;
    var g := t.generations[i];
    StoredGeneration(s, n, i);
    PositionOfGeneration(s, n, g);
    var es := EventsOf(t.events, g.generationId);
    QueryResultIsStored(rows, es, TIMELINE_LIMIT + 1);
    StoryCounts(g, es);
    if |es| <= TIMELINE_LIMIT + 1 { assert rows == es; } else { TooLong(rows, g, es, s); }
    PlausibleIsSound(s, n);
    ReplayIsChain(s, n);
    StoryIsTimeline(s, n, g, es);
    StoryIsEvidence(s, n, g, es,
      GenerationExpectation(s.profile.activationIndex, s.profile.activationIndex + n - 1,
                            Some(g.generationId), Some(g.issuer), Some(g.subject), Some(g.schemaUid)));
  }

  /** So where every modification reports its previous flags, all timelines pass, with one to three events. */
  lemma ReaderAcceptsGenerations(s: Setting, n: nat, i: nat, rows: seq<EventRow>)
    requires WellFormed(s, n) && ReplayOf(s, n).Ok? && i < |ReplayOf(s, n).value.tables.generations|
    requires var t := ReplayOf(s, n).value.tables;
             IsQueryResult(rows, EventsOf(t.events, t.generations[i].generationId), TIMELINE_LIMIT + 1)
    ensures IsTimeline(rows, ReplayOf(s, n).value.tables.generations[i], s.profile.activationIndex, s.codec.isAddress)
    ensures 1 <= |rows| <= 3
  {
    hide ReplayOf, IsTimeline, IsGenerationEvidence, Story, IsQueryResult, EventsOf, HistoryAdvance, Mirrors, Sound,
         EventPlaced, GenerationPlaced, Shaped, Ordered, OfType, IsAccepted;
    ReaderAcceptsExactly(s, n, i, rows);
    StoredGeneration(s, n, i);
    var g, o := ReplayOf(s, n).value.tables.generations[i], StoredObject(s, n, ReplayOf(s, n).value.tables.generations[i]);
    assert o.quiet == 0;
    TimelineIsLifecycle(rows, g, s.profile.activationIndex, s.codec.isAddress);
  }

  /** A timeline that is cut is refused, and rightly so: it holds more than one acceptance. */
  lemma TooLong(rows: seq<EventRow>, g: GenerationRow, es: seq<EventRow>, s: Setting)
    requires |es| > |rows| == TIMELINE_LIMIT + 1
    ensures !IsTimeline(rows, g, s.profile.activationIndex, s.codec.isAddress) && StepsOf(g, es) - 1 > 1
  {
  }

  lemma PositionOfGeneration(s: Setting, n: nat, g: GenerationRow)
    ensures GenerationPlaced(s, g, n, 0, false) ==> n > 0
  {
  }

  // ---- What a passing timeline looks like ---------------------------------------------------------

  /** The one shape a lifecycle can have: created, perhaps accepted, perhaps deleted. */
  predicate IsLifecycle(rows: seq<EventRow>) {
    && 1 <= |rows| <= 3 && rows[0].eventType.CreatedEvent?
    && (|rows| == 2 ==> !rows[1].eventType.CreatedEvent?)
    && (|rows| == 3 ==> rows[1].eventType.AcceptedEvent? && rows[2].eventType.DeletedEvent?)
  }

  lemma {:induction false} TypesAddUp(rows: seq<EventRow>)
    ensures |OfType(rows, CreatedEvent)| + |OfType(rows, AcceptedEvent)| + |OfType(rows, DeletedEvent)| == |rows|
    decreases |rows|
  {
    if rows != [] { TypesAddUp(rows[1..]); }
  }

  lemma OfTypeShort(es: seq<EventRow>, t: EventType)
    requires 1 <= |es| <= 3
    ensures |es| == 1 ==> OfType(es, t) == if es[0].eventType == t then [es[0]] else []
    ensures |es| > 1 ==> OfType(es, t) == OfType(es[..|es| - 1], t)
                                          + if es[|es| - 1].eventType == t then [es[|es| - 1]] else []
  {
    var n := |es| - 1;
    assert es == es[..n] + [es[n]];
    OfTypeAppended(es[..n], es[n], t);
    assert es[..0] == [];
  }

  lemma CountsOfShort(es: seq<EventRow>, t: EventType)
    requires 1 <= |es| <= 3
    ensures |OfType(es, t)| == (if es[0].eventType == t then 1 else 0)
                               + (if |es| > 1 && es[1].eventType == t then 1 else 0)
                               + (if |es| > 2 && es[2].eventType == t then 1 else 0)
    ensures es[|es| - 1].eventType == t && |OfType(es, t)| == 1 ==> OfType(es, t) == [es[|es| - 1]]
    ensures |OfType(es, t)| == 0 ==> OfType(es, t) == []
  {
    hide OfType;
    OfTypeShort(es, t);
    if |es| > 1 { OfTypeShort(es[..|es| - 1], t); }
    if |es| > 2 { OfTypeShort(es[..1], t); assert es[..2][..1] == es[..1]; }
  }

  /**
   Whoever wrote the rows, a timeline that passes the counting rules is one lifecycle of at most three events, and its
   summary fields are what these events say.
   */
  lemma TimelineIsLifecycle(rows: seq<EventRow>, g: GenerationRow, activation: nat, isAddress: string -> bool)
    requires IsTimeline(rows, g, activation, isAddress)
    ensures IsLifecycle(rows)
    ensures rows[0].transactionHash == g.generationId && rows[0].accepted == (g.issuer == g.subject)
    ensures rows[|rows| - 1].eventType.DeletedEvent? <==> g.deletedLedgerIndex.Some?
    ensures g.deletedLedgerIndex.Some? ==> g.deletedLedgerIndex.value == g.lastLedgerIndex && g.cause.Some?
    ensures g.accepted <==> rows[0].accepted || (|rows| > 1 && rows[1].eventType.AcceptedEvent?)
  {
    hide IsSequence;
    TypesAddUp(rows);
    CountsOfShort(rows, CreatedEvent);
    CountsOfShort(rows, AcceptedEvent);
    CountsOfShort(rows, DeletedEvent);
    assert IsEventShape(rows[0], TimelineExpectation(rows[0], g, activation), isAddress);
    var last := rows[|rows| - 1];
    assert IsEventShape(last, TimelineExpectation(last, g, activation), isAddress);
  }
}
