/**
 The rows the projection writes: live ones mirror the objects that it could follow, and the events of every credential
 generation tell one lifecycle, with an acceptance for each that the nodes of its object amount to.
 */
module Lifecycle {
  import opened Base
  import opened LedgerModel
  import opened CredentialMutations
  import opened ProjectionStore
  import opened CredentialHistory

  // ---- Which objects the indexer follows -----------------------------------------------

  /** An object whose every node passes the extraction rules, whatever kind of node it is. */
  predicate Tracked(fields: CredentialFields, known: set<string>, codec: Codec) {
    && HasIdentity(fields, codec) && SchemaUidOf(fields) in known
    && OptionalUint32(fields.expiration) && HasPayloadUri(fields, codec)
  }

  /** The extraction rules decide alike for all nodes of one object: skip decisions depend on fields that never change. */
  lemma SkipDecisionsAgree(a: CredentialFields, b: CredentialFields, known: set<string>, codec: Codec)
    requires SameIdentity(a, b)
    ensures Tracked(a, known, codec) <==> Tracked(b, known, codec)
  {
  }

  lemma OutcomeOfNode(tx: Transaction, j: nat, closeTime: nat, known: set<string>, codec: Codec)
    requires j < |tx.nodes| && ContainsCredential(tx.nodes[j]) && NormalizeNode(tx.nodes[j]).Some?
    requires OptionalUint32(NormalizeNode(tx.nodes[j]).value.fields.flags)
    requires OptionalUint32(NormalizeNode(tx.nodes[j]).value.previousFlags)
    ensures var node := NormalizeNode(tx.nodes[j]).value;
            var outcome := NodeOutcomeOf(tx, j, closeTime, known, codec);
            && (outcome.Emits? <==> Tracked(node.fields, known, codec) && EventOf(node).Some?)
            && (outcome.Emits? ==> outcome.mutation == MutationOf(tx, j, node, EventOf(node).value, closeTime))
  {
  }

  // ---- Live generations mirror the followed objects ---------------------------------------

  predicate Mirrors(g: GenerationRow, fields: CredentialFields) {
    && fields.issuer == Str(g.issuer) && fields.subject == Str(g.subject)
    && fields.credentialType.Str? && SchemaUidOf(fields) == g.schemaUid
    && fields.uri.Str? && g.uriHex == Some(fields.uri.s)
    && g.expiration == Uint32Of(fields.expiration)
    && g.accepted == IsAccepted(fields)
  }

  predicate MirrorsLive(g: GenerationRow, live: Live) {
    && g.objectId in live && live[g.objectId].followed && live[g.objectId].born == g.generationId
    && Mirrors(g, live[g.objectId].fields)
  }

  /** What is known of every followed object while it exists. */
  predicate IsFollowed(o: LiveObject, known: set<string>, codec: Codec) {
    && Tracked(o.fields, known, codec)
    && (o.fields.issuer == o.fields.subject ==> IsAccepted(o.fields))
  }

  predicate OneLivePerObject(generations: seq<GenerationRow>) {
    forall i, j :: 0 <= i < j < |generations| && generations[i].deletedLedgerIndex.None?
                   && generations[j].deletedLedgerIndex.None? ==>
      generations[i].objectId != generations[j].objectId
  }

  ghost predicate Tracks(live: Live, known: set<string>, generations: seq<GenerationRow>, codec: Codec) {
    && OneLivePerObject(generations)
    && (forall i :: 0 <= i < |generations| && generations[i].deletedLedgerIndex.None? ==> MirrorsLive(generations[i], live))
    && (forall id :: id in live && live[id].followed ==>
          IsFollowed(live[id], known, codec) && LiveIndex(generations, id).Some?)
  }

  /** A node without an event of a known schema leaves the rows mirroring the objects. */
  lemma SilentStep(o: Objects, known: set<string>, generations: seq<GenerationRow>, codec: Codec,
                   node: NormalizedNode, hash: string)
    requires Tracks(o.live, known, generations, codec) && ObjectAdvance(o, node, hash, false).Some?
    requires !Tracked(node.fields, known, codec) || EventOf(node).None?
    ensures var after := ObjectAdvance(o, node, hash, false).value;
            && Tracks(after.live, known, generations, codec) && after.ended == o.ended && after.stranded == o.stranded
            && forall id :: id in o.live && o.live[id].followed ==>
                 && id in after.live && after.live[id].followed && after.live[id].born == o.live[id].born
                 && Acceptances(after.live[id]) == Acceptances(o.live[id])
  {
    hide HasIdentity, LiveIndex, HasPayloadUri, OptionalUint32;
    var after := ObjectAdvance(o, node, hash, false).value;
    if node.objectId in o.live { SkipDecisionsAgree(o.live[node.objectId].fields, node.fields, known, codec); }
    forall i | 0 <= i < |generations| && generations[i].deletedLedgerIndex.None?
      ensures MirrorsLive(generations[i], after.live)
    {
      assert MirrorsLive(generations[i], o.live);
    }
  }

  lemma LiveRowFound(generations: seq<GenerationRow>, i: nat)
    requires i < |generations| && generations[i].deletedLedgerIndex.None?
    ensures LiveIndex(generations, generations[i].objectId).Some?
    ensures OneLivePerObject(generations) ==> LiveIndex(generations, generations[i].objectId) == Some(i)
  {
    assert IsLiveFor(generations[i], generations[i].objectId);
    var r := LiveIndex(generations, generations[i].objectId);
    if r.Some? && OneLivePerObject(generations) {
      assert IsLiveFor(generations[r.value], generations[i].objectId);
    }
  }

  /** A live row of one object stays findable when another object's row is added or changed. */
  lemma StillFound(before: seq<GenerationRow>, after: seq<GenerationRow>, id: string)
    requires |before| <= |after| && LiveIndex(before, id).Some?
    requires forall i :: 0 <= i < |before| && before[i].objectId == id ==> after[i] == before[i]
    ensures LiveIndex(after, id).Some?
  {
    var i := LiveIndex(before, id).value;
    assert IsLiveFor(before[i], id);
    LiveRowFound(after, i);
  }

  /** An object that is not followed has no live row, so a change of it cannot be told. */
  lemma UnfollowedHasNoRow(live: Live, known: set<string>, generations: seq<GenerationRow>, codec: Codec, id: string)
    requires Tracks(live, known, generations, codec) && id in live && !live[id].followed
    ensures LiveIndex(generations, id).None?
  {
    forall i | 0 <= i < |generations| ensures !IsLiveFor(generations[i], id) {
      assert generations[i].deletedLedgerIndex.None? ==> MirrorsLive(generations[i], live);
    }
  }

  lemma CreatedStep(o: Objects, known: set<string>, generations: seq<GenerationRow>, codec: Codec,
                    node: NormalizedNode, hash: string, g: GenerationRow)
    requires Tracks(o.live, known, generations, codec) && ObjectAdvance(o, node, hash, true).Some?
    requires node.kind.CreatedNode? && Tracked(node.fields, known, codec)
    requires g.objectId == node.objectId && g.generationId == hash
    requires Mirrors(g, node.fields) && g.deletedLedgerIndex.None?
    ensures var after := ObjectAdvance(o, node, hash, true).value;
            && Tracks(after.live, known, generations + [g], codec)
            && after.live == o.live[node.objectId := LiveObject(node.fields, hash, true, 0)]
            && after.ended == o.ended && after.stranded == o.stranded && node.objectId !in o.live
            && Acceptances(after.live[node.objectId]) == 0
    ensures forall i :: 0 <= i < |generations| && generations[i].deletedLedgerIndex.None? ==>
              !(generations[i].issuer == g.issuer && generations[i].subject == g.subject
                && generations[i].schemaUid == g.schemaUid)
  {
    hide HasIdentity, IsAccepted, LiveIndex, HasPayloadUri, OptionalUint32;
    var after := ObjectAdvance(o, node, hash, true).value;
    var rows := generations + [g];
    forall i | 0 <= i < |generations| && generations[i].deletedLedgerIndex.None?
      ensures MirrorsLive(generations[i], after.live)
      ensures generations[i].objectId != g.objectId
      ensures !(generations[i].issuer == g.issuer && generations[i].subject == g.subject
                && generations[i].schemaUid == g.schemaUid)
    {
      assert MirrorsLive(generations[i], o.live);
      assert !SameKey(o.live[generations[i].objectId].fields, node.fields);
    }
    forall id | id in after.live && after.live[id].followed
      ensures IsFollowed(after.live[id], known, codec) && LiveIndex(rows, id).Some?
    {
      if id == node.objectId { LiveRowFound(rows, |generations|); } else { StillFound(generations, rows, id); }
    }
  }

  /** What an acceptance or deletion of a followed object leaves of the objects. */
  lemma ChangedObjects(o: Objects, node: NormalizedNode, hash: string)
    requires ObjectAdvance(o, node, hash, true).Some? && !node.kind.CreatedNode?
    requires node.objectId in o.live && o.live[node.objectId].followed && EventOf(node).Some?
    requires o.live[node.objectId].fields.issuer == o.live[node.objectId].fields.subject ==>
               IsAccepted(o.live[node.objectId].fields)
    ensures var after := ObjectAdvance(o, node, hash, true).value;
            var was := o.live[node.objectId];
            && after.stranded == o.stranded
            && SameIdentity(was.fields, node.fields)
            && (node.objectId in after.live <==> node.kind.ModifiedNode?)
            && (forall id :: id != node.objectId ==>
                  (id in after.live <==> id in o.live) && (id in after.live ==> after.live[id] == o.live[id]))
            && (node.kind.ModifiedNode? ==>
                  && after.ended == o.ended && after.live[node.objectId] == Modified(was, node)
                  && after.live[node.objectId].fields == node.fields && IsAccepted(node.fields)
                  && Acceptances(after.live[node.objectId]) == Acceptances(was) + 1)
            && (node.kind.DeletedNode? ==>
                  after.ended == o.ended[was.born := was] && IsAccepted(was.fields) == IsAccepted(node.fields))
  {
    hide OptionalUint32;
  }

  /** An acceptance or deletion of a followed object finds its one live row, and the changed row mirrors the object again. */
  lemma ChangedStep(o: Objects, known: set<string>, generations: seq<GenerationRow>, codec: Codec,
                    node: NormalizedNode, hash: string, i: nat, g: GenerationRow)
    requires Tracks(o.live, known, generations, codec) && ObjectAdvance(o, node, hash, true).Some?
    requires !node.kind.CreatedNode? && EventOf(node).Some?
    requires node.objectId in o.live && o.live[node.objectId].followed
    requires LiveIndex(generations, node.objectId) == Some(i) && i < |generations|
    requires g.objectId == node.objectId && g.generationId == generations[i].generationId
    requires node.kind.DeletedNode? <==> g.deletedLedgerIndex.Some?
    requires node.kind.ModifiedNode? ==> Mirrors(g, node.fields)
    ensures Tracks(ObjectAdvance(o, node, hash, true).value.live, known, generations[i := g], codec)
  {
    hide Tracked, Mirrors, LiveIndex, ObjectAdvance, EventOf, IsAccepted, Acceptances;
    var was := o.live[node.objectId];
    assert IsFollowed(was, known, codec);
    ChangedObjects(o, node, hash);
    SkipDecisionsAgree(was.fields, node.fields, known, codec);
    var after := ObjectAdvance(o, node, hash, true).value;
    var rows := generations[i := g];
    assert IsLiveFor(generations[i], node.objectId);
    assert MirrorsLive(generations[i], o.live);
    forall j | 0 <= j < |rows| && rows[j].deletedLedgerIndex.None?
      ensures MirrorsLive(rows[j], after.live)
    {
      if j != i { assert MirrorsLive(generations[j], o.live); }
    }
    forall id | id in after.live && after.live[id].followed
      ensures IsFollowed(after.live[id], known, codec) && LiveIndex(rows, id).Some?
    {
      if id == node.objectId { LiveRowFound(rows, i); } else { StillFound(generations, rows, id); }
    }
  }

  // ---- Every generation's events tell one lifecycle -----------------------------------------

  /** The events of one generation, in the order they were stored. */
  function EventsOf(events: seq<EventRow>, generationId: string): seq<EventRow> {
    if events == [] then []
    else
      var n := |events| - 1;
      EventsOf(events[..n], generationId) + (if events[n].generationId == generationId then [events[n]] else [])
  }

  predicate Concerns(e: EventRow, g: GenerationRow) {
    && e.generationId == g.generationId && e.objectId == g.objectId
    && e.issuer == g.issuer && e.subject == g.subject && e.schemaUid == g.schemaUid
    && e.uriHex == g.uriHex && e.expiration == g.expiration
  }

  predicate Opens(e: EventRow, g: GenerationRow) {
    && e.eventType.CreatedEvent? && e.cause.None?
    && e.transactionHash == g.generationId
    && e.ledgerIndex == g.createdLedgerIndex && e.transactionIndex == g.createdTransactionIndex
    && e.accepted == (g.issuer == g.subject)
  }

  predicate Accepts(e: EventRow) {
    e.eventType.AcceptedEvent? && e.cause.None? && e.accepted
  }

  predicate Closes(e: EventRow, g: GenerationRow) {
    && e.eventType.DeletedEvent? && e.cause.Some? && e.cause == g.cause
    && g.deletedLedgerIndex == Some(e.ledgerIndex) && e.accepted == g.accepted
  }

  /** Created, then accepted any number of times, then deleted at most once. */
  predicate Story(g: GenerationRow, es: seq<EventRow>) {
    var steps := StepsOf(g, es);
    && 1 <= steps
    && (forall i :: 0 <= i < |es| ==> Concerns(es[i], g))
    && Opens(es[0], g)
    && (forall i :: 1 <= i < steps ==> Accepts(es[i]))
    && g.accepted == (es[0].accepted || steps >= 2)
    && (if g.deletedLedgerIndex.Some? then Closes(es[steps], g) else g.cause.None?)
    && g.lastLedgerIndex == es[|es| - 1].ledgerIndex
  }

  /** The events before the deletion. */
  function StepsOf(g: GenerationRow, es: seq<EventRow>): int {
    if g.deletedLedgerIndex.Some? then |es| - 1 else |es|
  }

  /** The story of a generation goes on: an acceptance after the creation, a deletion after either. */
  lemma StoryGoesOn(g: GenerationRow, es: seq<EventRow>, ledger: Ledger, m: CredentialMutation)
    requires Story(g, es) && g.deletedLedgerIndex.None?
    requires Concerns(EventRowOf(ledger, m, g.generationId), g)
    requires !m.eventType.CreatedEvent?
    requires m.eventType.AcceptedEvent? ==> m.accepted && m.cause.None?
    requires m.eventType.DeletedEvent? ==> m.accepted == g.accepted && m.cause.Some?
    ensures Story(AfterEvent(g, ledger, m), es + [EventRowOf(ledger, m, g.generationId)])
  {
    var after, all := AfterEvent(g, ledger, m), es + [EventRowOf(ledger, m, g.generationId)];
    forall i | 0 <= i < |all| ensures Concerns(all[i], after) {
      if i < |es| { assert Concerns(es[i], g); }
    }
    assert all[|es|] == EventRowOf(ledger, m, g.generationId);
    forall i | 1 <= i < StepsOf(after, all) ensures Accepts(all[i]) {
      if i < |es| { assert Accepts(es[i]); }
    }
  }

  function Ids(generations: seq<GenerationRow>): set<string> {
    set i | 0 <= i < |generations| :: generations[i].generationId
  }

  predicate StoryOf(generations: seq<GenerationRow>, events: seq<EventRow>, i: nat)
    requires i < |generations|
  {
    Story(generations[i], EventsOf(events, generations[i].generationId))
  }

  predicate Told(generations: seq<GenerationRow>, events: seq<EventRow>) {
    && (forall i, j :: 0 <= i < j < |generations| ==> generations[i].generationId != generations[j].generationId)
    && (forall i :: 0 <= i < |generations| ==> StoryOf(generations, events, i))
    && (forall k :: 0 <= k < |events| ==> events[k].generationId in Ids(generations))
  }

  lemma EventsOfAppended(events: seq<EventRow>, e: EventRow, id: string)
    ensures EventsOf(events + [e], id) == EventsOf(events, id) + (if e.generationId == id then [e] else [])
  {
    assert (events + [e])[..|events|] == events;
  }

  lemma {:induction false} OwnEvents(events: seq<EventRow>, e: EventRow)
    requires e in events
    ensures e in EventsOf(events, e.generationId)
    decreases |events|
  {
    var n := |events| - 1;
    if e != events[n] {
      assert e in events[..n];
      OwnEvents(events[..n], e);
    }
  }

  lemma {:induction false} NoEventsOf(events: seq<EventRow>, id: string)
    requires forall k :: 0 <= k < |events| ==> events[k].generationId != id
    ensures EventsOf(events, id) == []
    decreases |events|
  {
    if events != [] { NoEventsOf(events[..|events| - 1], id); }
  }

  lemma CreatedTold(generations: seq<GenerationRow>, events: seq<EventRow>, g: GenerationRow, e: EventRow)
    requires Told(generations, events) && g.generationId !in Ids(generations)
    requires Story(g, [e])
    ensures Told(generations + [g], events + [e])
  {
    hide Story;
    var rows, all := generations + [g], events + [e];
    assert e.generationId == g.generationId by { OpeningConcerns(g, e); }
    NoEventsOf(events, g.generationId);
    forall i | 0 <= i < |generations| ensures StoryOf(rows, all, i) {
      assert StoryOf(generations, events, i);
      assert rows[i].generationId in Ids(generations);
      EventsOfAppended(events, e, rows[i].generationId);
      assert EventsOf(all, rows[i].generationId) == EventsOf(events, rows[i].generationId);
    }
    EventsOfAppended(events, e, g.generationId);
    assert EventsOf(all, g.generationId) == [e];
    assert StoryOf(rows, all, |generations|);
    forall k | 0 <= k < |all| ensures all[k].generationId in Ids(rows) {
      if k < |events| {
        var i :| 0 <= i < |generations| && generations[i].generationId == events[k].generationId;
        assert rows[i].generationId == all[k].generationId;
      } else {
        assert rows[|generations|].generationId == all[k].generationId;
      }
    }
  }

  lemma OpeningConcerns(g: GenerationRow, e: EventRow)
    requires Story(g, [e])
    ensures e.generationId == g.generationId
  {
    assert Concerns([e][0], g);
  }

  lemma ChangedTold(generations: seq<GenerationRow>, events: seq<EventRow>, i: nat, g: GenerationRow, e: EventRow)
    requires Told(generations, events) && i < |generations|
    requires g.generationId == generations[i].generationId == e.generationId
    requires Story(g, EventsOf(events, g.generationId) + [e])
    ensures Told(generations[i := g], events + [e])
  {
    hide Story;
    var rows, all := generations[i := g], events + [e];
    forall j | 0 <= j < |rows| ensures StoryOf(rows, all, j) {
      assert StoryOf(generations, events, j);
      EventsOfAppended(events, e, rows[j].generationId);
      if j != i {
        assert EventsOf(all, rows[j].generationId) == EventsOf(events, rows[j].generationId);
      }
    }
    forall k | 0 <= k < |all| ensures all[k].generationId in Ids(rows) {
      if k < |events| {
        var j :| 0 <= j < |generations| && generations[j].generationId == events[k].generationId;
        assert rows[j].generationId == all[k].generationId;
      } else {
        assert rows[i].generationId == all[k].generationId;
      }
    }
  }

  // ---- The events of a generation are the nodes of its object ---------------------------------------

  predicate IsObjectOf(g: GenerationRow, o: Objects) {
    if g.deletedLedgerIndex.None? then g.objectId in o.live && o.live[g.objectId].born == g.generationId
    else g.generationId in o.ended
  }

  /** The object behind a generation: the existing one, or the one its creating transaction once made. */
  function ObjectOf(g: GenerationRow, o: Objects): LiveObject
    requires IsObjectOf(g, o)
  {
    if g.deletedLedgerIndex.None? then o.live[g.objectId] else o.ended[g.generationId]
  }

  /** A creation, one event for each acceptance its nodes amount to, and a deletion if there was one. */
  predicate IsCounted(g: GenerationRow, es: seq<EventRow>, o: Objects) {
    IsObjectOf(g, o) && StepsOf(g, es) == 1 + Acceptances(ObjectOf(g, o))
  }

  ghost predicate AllCounted(o: Objects, generations: seq<GenerationRow>, events: seq<EventRow>) {
    forall i :: 0 <= i < |generations| ==>
      IsCounted(generations[i], EventsOf(events, generations[i].generationId), o)
  }

  lemma SilentCounted(before: Objects, after: Objects, known: set<string>, generations: seq<GenerationRow>,
                      events: seq<EventRow>, codec: Codec)
    requires Tracks(before.live, known, generations, codec) && AllCounted(before, generations, events)
    requires after.ended == before.ended
    requires forall id :: id in before.live && before.live[id].followed ==>
               && id in after.live && after.live[id].born == before.live[id].born
               && Acceptances(after.live[id]) == Acceptances(before.live[id])
    ensures AllCounted(after, generations, events)
  {
    hide Acceptances, Mirrors, IsFollowed, LiveIndex;
    forall i | 0 <= i < |generations|
      ensures IsCounted(generations[i], EventsOf(events, generations[i].generationId), after)
    {
      assert IsCounted(generations[i], EventsOf(events, generations[i].generationId), before);
      assert generations[i].deletedLedgerIndex.None? ==> MirrorsLive(generations[i], before.live);
    }
  }

  lemma CreatedCounted(before: Objects, after: Objects, generations: seq<GenerationRow>, events: seq<EventRow>,
                       g: GenerationRow, e: EventRow)
    requires AllCounted(before, generations, events) && Told(generations, events)
    requires g.generationId !in Ids(generations) && e.generationId == g.generationId && g.deletedLedgerIndex.None?
    requires g.objectId !in before.live && after.ended == before.ended
    requires forall id :: id != g.objectId ==> (id in before.live ==> id in after.live && after.live[id] == before.live[id])
    requires g.objectId in after.live && after.live[g.objectId].born == g.generationId
    requires Acceptances(after.live[g.objectId]) == 0
    ensures AllCounted(after, generations + [g], events + [e])
  {
    hide Acceptances, Story;
    NoEventsOf(events, g.generationId);
    EventsOfAppended(events, e, g.generationId);
    forall i | 0 <= i < |generations|
      ensures IsCounted(generations[i], EventsOf(events + [e], generations[i].generationId), after)
    {
      assert IsCounted(generations[i], EventsOf(events, generations[i].generationId), before);
      assert generations[i].generationId in Ids(generations);
      EventsOfAppended(events, e, generations[i].generationId);
    }
  }

  lemma ChangedCounted(before: Objects, after: Objects, generations: seq<GenerationRow>, events: seq<EventRow>,
                       i: nat, g: GenerationRow, e: EventRow)
    requires AllCounted(before, generations, events) && Told(generations, events) && OneLivePerObject(generations)
    requires i < |generations| && generations[i].deletedLedgerIndex.None?
    requires e.generationId == g.generationId == generations[i].generationId && g.objectId == generations[i].objectId
    requires forall id :: id != g.objectId ==> (id in before.live ==> id in after.live && after.live[id] == before.live[id])
    requires g.objectId in before.live
    requires g.deletedLedgerIndex.None? ==>
               && after.ended == before.ended && g.objectId in after.live
               && after.live[g.objectId].born == g.generationId
               && Acceptances(after.live[g.objectId]) == Acceptances(before.live[g.objectId]) + 1
    requires g.deletedLedgerIndex.Some? ==> after.ended == before.ended[g.generationId := before.live[g.objectId]]
    ensures AllCounted(after, generations[i := g], events + [e])
  {
    hide Acceptances, Story;
    var rows := generations[i := g];
    forall j | 0 <= j < |rows|
      ensures IsCounted(rows[j], EventsOf(events + [e], rows[j].generationId), after)
    {
      assert IsCounted(generations[j], EventsOf(events, generations[j].generationId), before);
      EventsOfAppended(events, e, rows[j].generationId);
    }
  }
}
