/**
 How far the fold goes on a history the XRPL can produce: at every node of every transaction of every ledger the tables
 mirror the objects that could be followed, tell one lifecycle per generation, and hold rows of strictly increasing
 positions, until an object is accepted or deleted that could not be followed.
 */
module Progress {
  import opened Base
  import opened SchemaLanguage
  import opened LedgerModel
  import opened Registration
  import opened CredentialMutations
  import opened ProjectLedger
  import opened ProjectionStore
  import opened Replay
  import opened SchemaHistory
  import opened CredentialHistory
  import opened Lifecycle

  // ---- Positions of the stored rows ---------------------------------------------------------

  predicate Precedes(a: EventRow, b: EventRow) {
    || a.ledgerIndex < b.ledgerIndex
    || (a.ledgerIndex == b.ledgerIndex
        && (a.transactionIndex < b.transactionIndex
            || (a.transactionIndex == b.transactionIndex && a.nodeIndex < b.nodeIndex)))
  }

  predicate Ordered(events: seq<EventRow>) {
    forall i, j :: 0 <= i < j < |events| ==> Precedes(events[i], events[j])
  }

  /** The event comes from a node before node j of transaction k of ledger n. */
  predicate EventPlaced(s: Setting, e: EventRow, n: nat, k: nat, j: nat) {
    var m := e.ledgerIndex - s.profile.activationIndex;
    && 0 <= m
    && (m < n || (m == n && (e.transactionIndex < k || (e.transactionIndex == k && e.nodeIndex < j))))
    && IsTransaction(s, m, e.transactionIndex)
    && e.transactionHash == TransactionAt(s, m, e.transactionIndex).hash
    && e.nodeIndex < |TransactionAt(s, m, e.transactionIndex).nodes|
    && e.ledgerHash == LedgerAt(s, m).hash
  }

  /** The generation was created before transaction k of ledger n or, if `created`, in it. */
  predicate GenerationPlaced(s: Setting, g: GenerationRow, n: nat, k: nat, created: bool) {
    var m := g.createdLedgerIndex - s.profile.activationIndex;
    && 0 <= m
    && (m < n || (m == n && (g.createdTransactionIndex < k || (g.createdTransactionIndex == k && created))))
    && IsTransaction(s, m, g.createdTransactionIndex)
    && g.generationId == TransactionAt(s, m, g.createdTransactionIndex).hash
  }

  predicate Shaped(g: GenerationRow, codec: Codec) {
    && codec.isAddress(g.issuer) && codec.isAddress(g.subject)
    && IsHash(g.objectId) && IsHash(g.schemaUid)
    && g.uriHex.Some? && codec.isPayloadUriHex(g.uriHex.value)
    && (g.expiration.Some? ==> IsUint32(g.expiration.value))
  }

  ghost predicate Placed(s: Setting, n: nat, k: nat, j: nat, created: bool, t: Tables) {
    && (forall i :: 0 <= i < |t.generations| ==>
          GenerationPlaced(s, t.generations[i], n, k, created) && Shaped(t.generations[i], s.codec))
    && (forall i :: 0 <= i < |t.events| ==> EventPlaced(s, t.events[i], n, k, j))
    && Ordered(t.events)
  }

  /** The invariant of the fold at node j of transaction k of ledger n. */
  ghost predicate Inv(s: Setting, n: nat, k: nat, j: nat, created: bool, o: Objects, known: set<string>, t: Tables) {
    && Tracks(o.live, known, t.generations, s.codec)
    && Told(t.generations, t.events)
    && AllCounted(o, t.generations, t.events)
    && Placed(s, n, k, j, created, t)
  }

  /** Either the fold has gone on with its invariant, or it has stopped at an object that was not followed. */
  ghost predicate GoesOn(s: Setting, n: nat, k: nat, j: nat, created: bool, o: Objects, known: set<string>,
                         r: Result<Tables, PersistError>) {
    if o.stranded then r == Err(NoLiveGeneration) else r.Ok? && Inv(s, n, k, j, created, o, known, r.value)
  }

  predicate CreatedBy(tx: Transaction, j: nat, closeTime: nat, known: set<string>, codec: Codec)
    requires j <= |tx.nodes|
  {
    exists i :: 0 <= i < j && Creates(tx, i, closeTime, known, codec)
  }

  lemma NewEvent(s: Setting, n: nat, k: nat, j: nat, created: bool, t: Tables)
    requires Sound(s) && IsTransaction(s, n, k) && Placed(s, n, k, j, created, t)
    ensures !HasEvent(t.events, TransactionAt(s, n, k).hash, j)
  {
    forall i | 0 <= i < |t.events| && t.events[i].nodeIndex == j
      ensures t.events[i].transactionHash != TransactionAt(s, n, k).hash
    {
      var e := t.events[i];
      assert EventPlaced(s, e, n, k, j);
      assert !SameHash(s, n, k, e.ledgerIndex - s.profile.activationIndex, e.transactionIndex);
    }
  }

  lemma NewGeneration(s: Setting, n: nat, k: nat, j: nat, t: Tables)
    requires Sound(s) && IsTransaction(s, n, k) && Placed(s, n, k, j, false, t)
    ensures TransactionAt(s, n, k).hash !in Ids(t.generations)
  {
    forall i | 0 <= i < |t.generations| ensures t.generations[i].generationId != TransactionAt(s, n, k).hash {
      var g := t.generations[i];
      assert GenerationPlaced(s, g, n, k, false);
      assert !SameHash(s, n, k, g.createdLedgerIndex - s.profile.activationIndex, g.createdTransactionIndex);
    }
  }

  /** The rows of earlier positions stay placed when the position moves on. */
  lemma PlacedLater(s: Setting, n: nat, k: nat, j: nat, created: bool, t: Tables, later: bool)
    requires Placed(s, n, k, j, created, t) && (created ==> later)
    ensures Placed(s, n, k, j + 1, later, t)
    ensures Placed(s, n, k + 1, 0, false, t)
    ensures k == |LedgerAt(s, n).transactions| ==> Placed(s, n + 1, 0, 0, false, t)
  {
    forall i | 0 <= i < |t.generations|
      ensures GenerationPlaced(s, t.generations[i], n, k, later)
      ensures GenerationPlaced(s, t.generations[i], n, k + 1, false)
      ensures k == |LedgerAt(s, n).transactions| ==> GenerationPlaced(s, t.generations[i], n + 1, 0, false)
    {
      assert GenerationPlaced(s, t.generations[i], n, k, created);
    }
    forall i | 0 <= i < |t.events|
      ensures EventPlaced(s, t.events[i], n, k, j + 1)
      ensures EventPlaced(s, t.events[i], n, k + 1, 0)
      ensures k == |LedgerAt(s, n).transactions| ==> EventPlaced(s, t.events[i], n + 1, 0, 0)
    {
      assert EventPlaced(s, t.events[i], n, k, j);
    }
  }

  lemma EventAdded(s: Setting, n: nat, k: nat, j: nat, events: seq<EventRow>, e: EventRow)
    requires Sound(s) && IsTransaction(s, n, k) && j < |TransactionAt(s, n, k).nodes|
    requires forall i :: 0 <= i < |events| ==> EventPlaced(s, events[i], n, k, j)
    requires Ordered(events)
    requires e.ledgerIndex == LedgerAt(s, n).index && e.ledgerHash == LedgerAt(s, n).hash
    requires e.transactionHash == TransactionAt(s, n, k).hash
    requires e.transactionIndex == TransactionAt(s, n, k).index && e.nodeIndex == j
    ensures forall i :: 0 <= i < |events + [e]| ==> EventPlaced(s, (events + [e])[i], n, k, j + 1)
    ensures Ordered(events + [e])
  {
    assert FitsChain(s, n);
    assert TransactionAt(s, n, k).index == k;
    var all := events + [e];
    forall i | 0 <= i < |all| ensures EventPlaced(s, all[i], n, k, j + 1) {
      if i < |events| { assert EventPlaced(s, events[i], n, k, j); }
    }
    forall i | 0 <= i < |events| ensures Precedes(events[i], e) {
      assert EventPlaced(s, events[i], n, k, j);
    }
  }

  // ---- One node -----------------------------------------------------------------------------

  /** The tables after the mutation, if any, of one node. */
  function NodeApplied(t: Tables, ledger: Ledger, outcome: NodeOutcome): Result<Tables, PersistError> {
    if outcome.Emits? then ApplyMutation(t, ledger, outcome.mutation) else Ok(t)
  }

  lemma ShapeOfCreated(s: Setting, n: nat, k: nat, j: nat, node: NormalizedNode, known: set<string>)
    requires Sound(s) && IsTransaction(s, n, k) && j < |TransactionAt(s, n, k).nodes|
    requires NormalizeNode(TransactionAt(s, n, k).nodes[j]) == Some(node)
    requires node.kind.CreatedNode? && Tracked(node.fields, known, s.codec)
    requires IsAccepted(node.fields) <==> node.fields.issuer == node.fields.subject
    ensures var tx, ledger := TransactionAt(s, n, k), LedgerAt(s, n);
            var m := MutationOf(tx, j, node, CreatedEvent, ledger.closeTime);
            var g := GenerationOf(ledger, m);
            && Shaped(g, s.codec) && Mirrors(g, node.fields) && GenerationPlaced(s, g, n, k, true)
            && Story(g, [EventRowOf(ledger, m, m.transactionHash)])
  {
    assert FitsChain(s, n);
    assert TransactionAt(s, n, k).index == k;
    LowerOfHash(node.fields.credentialType.s);
    ObjectIdIsHash(TransactionAt(s, n, k).nodes[j], node);
  }

  lemma ObjectIdIsHash(raw: AffectedNode, node: NormalizedNode)
    requires NormalizeNode(raw) == Some(node)
    ensures IsHash(node.objectId)
  {
    var body := if IsCredentialBody(raw.created) then raw.created.value
                else if IsCredentialBody(raw.modified) then raw.modified.value else raw.deleted.value;
    LowerOfHash(body.ledgerIndex.s);
  }

  lemma CreatedNodeStep(s: Setting, n: nat, k: nat, j: nat, o: Objects, known: set<string>, t: Tables,
                        node: NormalizedNode)
    requires Sound(s) && IsTransaction(s, n, k) && j < |TransactionAt(s, n, k).nodes|
    requires Inv(s, n, k, j, false, o, known, t) && known <= t.schemas.Keys
    requires NormalizeNode(TransactionAt(s, n, k).nodes[j]) == Some(node)
    requires ObjectAdvance(o, node, TransactionAt(s, n, k).hash, true).Some?
    requires node.kind.CreatedNode? && Tracked(node.fields, known, s.codec)
    ensures var tx, ledger := TransactionAt(s, n, k), LedgerAt(s, n);
            var m := MutationOf(tx, j, node, CreatedEvent, ledger.closeTime);
            var after := ApplyMutation(t, ledger, m);
            && after.Ok?
            && Inv(s, n, k, j + 1, true, ObjectAdvance(o, node, tx.hash, true).value, known, after.value)
            && ObjectAdvance(o, node, tx.hash, true).value.stranded == o.stranded
  {
    hide Story, Told, Tracks, Sound, IsAccepted, OptionalUint32, Mirrors, Shaped, EventPlaced, GenerationPlaced,
         Ordered, AllCounted, Acceptances;
    var tx, ledger := TransactionAt(s, n, k), LedgerAt(s, n);
    var m := MutationOf(tx, j, node, CreatedEvent, ledger.closeTime);
    var g, e := GenerationOf(ledger, m), EventRowOf(ledger, m, m.transactionHash);
    ShapeOfCreated(s, n, k, j, node, known);
    CreatedStep(o, known, t.generations, s.codec, node, tx.hash, g);
    NewGeneration(s, n, k, j, t);
    NewEvent(s, n, k, j, false, t);
    assert forall i :: 0 <= i < |t.generations| ==> t.generations[i].generationId in Ids(t.generations);
    assert !BreaksUniqueness(t.generations, m);
    CreatedTold(t.generations, t.events, g, e);
    CreatedCounted(o, ObjectAdvance(o, node, tx.hash, true).value, t.generations, t.events, g, e);
    PlacedLater(s, n, k, j, false, t, true);
    EventAdded(s, n, k, j, t.events, e);
  }

  /** What an acceptance or deletion makes of the live row of its object. */
  lemma ChangedRow(tx: Transaction, ledger: Ledger, j: nat, o: Objects, known: set<string>, codec: Codec,
                   node: NormalizedNode, g: GenerationRow, es: seq<EventRow>)
    requires ObjectAdvance(o, node, tx.hash, true).Some? && !node.kind.CreatedNode?
    requires Tracked(node.fields, known, codec) && EventOf(node).Some?
    requires g.objectId == node.objectId && g.deletedLedgerIndex.None? && MirrorsLive(g, o.live)
    requires Story(g, es)
    ensures var m := MutationOf(tx, j, node, EventOf(node).value, ledger.closeTime);
            var changed := AfterEvent(g, ledger, m);
            && m.objectId == node.objectId && m.schemaUid in known && !m.eventType.CreatedEvent?
            && (node.kind.DeletedNode? <==> changed.deletedLedgerIndex.Some?)
            && (node.kind.ModifiedNode? ==> Mirrors(changed, node.fields))
            && Story(changed, es + [EventRowOf(ledger, m, g.generationId)])
  {
    hide Story, OptionalUint32;
    var m := MutationOf(tx, j, node, EventOf(node).value, ledger.closeTime);
    StoryGoesOn(g, es, ledger, m);
  }

  lemma ChangedPlaced(s: Setting, n: nat, k: nat, j: nat, created: bool, t: Tables, i: nat, ledger: Ledger, m:
                      CredentialMutation)
    requires Placed(s, n, k, j, created, t) && i < |t.generations| && !m.eventType.CreatedEvent?
    ensures var rows := t.generations[i := AfterEvent(t.generations[i], ledger, m)];
            forall x :: 0 <= x < |rows| ==> GenerationPlaced(s, rows[x], n, k, created) && Shaped(rows[x], s.codec)
  {
    hide EventPlaced, Ordered;
    var rows := t.generations[i := AfterEvent(t.generations[i], ledger, m)];
    forall x | 0 <= x < |rows| ensures GenerationPlaced(s, rows[x], n, k, created) && Shaped(rows[x], s.codec) {
      assert GenerationPlaced(s, t.generations[x], n, k, created) && Shaped(t.generations[x], s.codec);
    }
  }

  lemma ChangedNodeStep(s: Setting, n: nat, k: nat, j: nat, created: bool, o: Objects, known: set<string>, t: Tables,
                        node: NormalizedNode)
    requires Sound(s) && IsTransaction(s, n, k) && j < |TransactionAt(s, n, k).nodes|
    requires Inv(s, n, k, j, created, o, known, t) && known <= t.schemas.Keys
    requires NormalizeNode(TransactionAt(s, n, k).nodes[j]) == Some(node)
    requires ObjectAdvance(o, node, TransactionAt(s, n, k).hash, true).Some?
    requires !node.kind.CreatedNode? && Tracked(node.fields, known, s.codec) && EventOf(node).Some?
    requires node.objectId in o.live && o.live[node.objectId].followed
    ensures var tx, ledger := TransactionAt(s, n, k), LedgerAt(s, n);
            var m := MutationOf(tx, j, node, EventOf(node).value, ledger.closeTime);
            var after := ApplyMutation(t, ledger, m);
            && after.Ok?
            && Inv(s, n, k, j + 1, created, ObjectAdvance(o, node, tx.hash, true).value, known, after.value)
            && ObjectAdvance(o, node, tx.hash, true).value.stranded == o.stranded
  {
    hide Story, Told, Tracks, Sound, Placed, EventPlaced, GenerationPlaced, Shaped, Mirrors, EventOf, AllCounted,
         Acceptances, ObjectAdvance, OneLivePerObject, MirrorsLive;
    var tx, ledger := TransactionAt(s, n, k), LedgerAt(s, n);
    var m := MutationOf(tx, j, node, EventOf(node).value, ledger.closeTime);
    var i := LiveRowOf(o, known, t.generations, s.codec, node);
    var g := t.generations[i];
    var e, changed := EventRowOf(ledger, m, g.generationId), AfterEvent(g, ledger, m);
    StoryAt(t.generations, t.events, i);
    ChangedRow(tx, ledger, j, o, known, s.codec, node, g, EventsOf(t.events, g.generationId));
    ChangedStep(o, known, t.generations, s.codec, node, tx.hash, i, changed);
    ChangedObjects(o, node, tx.hash);
    NewEvent(s, n, k, j, created, t);
    ChangedTold(t.generations, t.events, i, changed, e);
    ChangedCounted(o, ObjectAdvance(o, node, tx.hash, true).value, t.generations, t.events, i, changed, e);
    ChangedAllPlaced(s, n, k, j, created, t, i, m, e);
  }

  lemma LiveRowOf(o: Objects, known: set<string>, generations: seq<GenerationRow>, codec: Codec, node: NormalizedNode)
    returns (i: nat)
    requires Tracks(o.live, known, generations, codec)
    requires node.objectId in o.live && o.live[node.objectId].followed
    ensures LiveIndex(generations, node.objectId) == Some(i) && i < |generations| && OneLivePerObject(generations)
    ensures generations[i].objectId == node.objectId && generations[i].deletedLedgerIndex.None?
    ensures MirrorsLive(generations[i], o.live) && o.live[node.objectId].born == generations[i].generationId
    ensures o.live[node.objectId].fields.issuer == o.live[node.objectId].fields.subject ==>
              IsAccepted(o.live[node.objectId].fields)
  {
    hide Tracked, LiveIndex, OneLivePerObject, Mirrors;
    assert IsFollowed(o.live[node.objectId], known, codec);
    i := LiveIndex(generations, node.objectId).value;
    assert IsLiveFor(generations[i], node.objectId);
  }

  lemma ChangedAllPlaced(s: Setting, n: nat, k: nat, j: nat, created: bool, t: Tables, i: nat, m: CredentialMutation,
                         e: EventRow)
    requires Sound(s) && IsTransaction(s, n, k) && j < |TransactionAt(s, n, k).nodes|
    requires Placed(s, n, k, j, created, t) && i < |t.generations| && !m.eventType.CreatedEvent?
    requires e.ledgerIndex == LedgerAt(s, n).index && e.ledgerHash == LedgerAt(s, n).hash
    requires e.transactionHash == TransactionAt(s, n, k).hash
    requires e.transactionIndex == TransactionAt(s, n, k).index && e.nodeIndex == j
    ensures Placed(s, n, k, j + 1, created,
                   t.(generations := t.generations[i := AfterEvent(t.generations[i], LedgerAt(s, n), m)],
                      events := t.events + [e]))
  {
    hide EventPlaced, GenerationPlaced, Shaped, Sound, Ordered, AfterEvent;
    ChangedPlaced(s, n, k, j, created, t, i, LedgerAt(s, n), m);
    EventAdded(s, n, k, j, t.events, e);
  }

  lemma StoryAt(generations: seq<GenerationRow>, events: seq<EventRow>, i: nat)
    requires Told(generations, events) && i < |generations|
    ensures StoryOf(generations, events, i)
  {
  }

  /**
   Whatever the node is: its mutation is accepted by the tables and the invariant moves on to the next node, or it is
   the first event of an object that was not followed, and the tables refuse it.
   */
  lemma NodeStep(s: Setting, n: nat, k: nat, j: nat, o: Objects, known: set<string>, t: Tables)
    requires Sound(s) && IsTransaction(s, n, k) && j < |TransactionAt(s, n, k).nodes|
    requires var tx, closeTime := TransactionAt(s, n, k), LedgerAt(s, n).closeTime;
             && Inv(s, n, k, j, CreatedBy(tx, j, closeTime, known, s.codec), o, known, t) && known <= t.schemas.Keys
             && NodeAdvance(o, tx, j, closeTime, known, s.codec).Some? && !o.stranded
             && OneCreation(tx, closeTime, known, s.codec)
    ensures var tx, closeTime := TransactionAt(s, n, k), LedgerAt(s, n).closeTime;
            GoesOn(s, n, k, j + 1, CreatedBy(tx, j + 1, closeTime, known, s.codec),
                   NodeAdvance(o, tx, j, closeTime, known, s.codec).value, known,
                   NodeApplied(t, LedgerAt(s, n), NodeOutcomeOf(tx, j, closeTime, known, s.codec)))
  {
    hide Inv, Sound, ObjectAdvance, ApplyMutation, Tracked, OptionalUint32;
    var tx, ledger := TransactionAt(s, n, k), LedgerAt(s, n);
    var closeTime := ledger.closeTime;
    var created := CreatedBy(tx, j, closeTime, known, s.codec);
    var outcome := NodeOutcomeOf(tx, j, closeTime, known, s.codec);
    CreatedByNext(tx, j, closeTime, known, s.codec);
    if !ContainsCredential(tx.nodes[j]) {
      NextNode(s, n, k, j, created, o, known, t);
    } else {
      var node := NormalizeNode(tx.nodes[j]).value;
      AdvanceFacts(o, node, tx.hash, outcome.Emits?);
      OutcomeOfNode(tx, j, closeTime, known, s.codec);
      if !outcome.Emits? {
        SilentNodeStep(s, n, k, j, created, o, known, t, node, tx.hash);
      } else if node.kind.CreatedNode? {
        CreatedNodeStep(s, n, k, j, o, known, t, node);
      } else if o.live[node.objectId].followed {
        ChangedNodeStep(s, n, k, j, created, o, known, t, node);
      } else {
        StrandedNodeStep(s, n, k, j, created, o, known, t, node);
      }
    }
  }

  lemma AdvanceFacts(o: Objects, node: NormalizedNode, hash: string, emits: bool)
    requires ObjectAdvance(o, node, hash, emits).Some?
    ensures OptionalUint32(node.fields.flags) && OptionalUint32(node.previousFlags)
    ensures !node.kind.CreatedNode? ==>
              && node.objectId in o.live
              && ObjectAdvance(o, node, hash, emits).value.stranded == (o.stranded || (emits && !o.live[node.objectId].followed))
  {
  }

  /** The indexer has no live generation for an object that it did not follow. */
  lemma StrandedNodeStep(s: Setting, n: nat, k: nat, j: nat, created: bool, o: Objects, known: set<string>, t: Tables,
                         node: NormalizedNode)
    requires IsTransaction(s, n, k) && j < |TransactionAt(s, n, k).nodes|
    requires Inv(s, n, k, j, created, o, known, t)
    requires NormalizeNode(TransactionAt(s, n, k).nodes[j]) == Some(node) && Tracked(node.fields, known, s.codec)
    requires !node.kind.CreatedNode? && EventOf(node).Some? && node.objectId in o.live && !o.live[node.objectId].followed
    ensures var tx, ledger := TransactionAt(s, n, k), LedgerAt(s, n);
            ApplyMutation(t, ledger, MutationOf(tx, j, node, EventOf(node).value, ledger.closeTime)) == Err(NoLiveGeneration)
  {
    hide Tracks, Told, AllCounted, Placed, LiveIndex;
    UnfollowedHasNoRow(o.live, known, t.generations, s.codec, node.objectId);
  }

  lemma CreatedByNext(tx: Transaction, j: nat, closeTime: nat, known: set<string>, codec: Codec)
    requires j < |tx.nodes| && OneCreation(tx, closeTime, known, codec)
    ensures CreatedBy(tx, j + 1, closeTime, known, codec)
            <==> CreatedBy(tx, j, closeTime, known, codec) || Creates(tx, j, closeTime, known, codec)
    ensures Creates(tx, j, closeTime, known, codec) ==> !CreatedBy(tx, j, closeTime, known, codec)
  {
    hide Creates;
    if CreatedBy(tx, j + 1, closeTime, known, codec) {
      var i :| 0 <= i < j + 1 && Creates(tx, i, closeTime, known, codec);
    }
  }

  lemma SilentNodeStep(s: Setting, n: nat, k: nat, j: nat, created: bool, o: Objects, known: set<string>,
                       t: Tables, node: NormalizedNode, hash: string)
    requires Inv(s, n, k, j, created, o, known, t) && ObjectAdvance(o, node, hash, false).Some?
    requires !Tracked(node.fields, known, s.codec) || EventOf(node).None?
    ensures Inv(s, n, k, j + 1, created, ObjectAdvance(o, node, hash, false).value, known, t)
    ensures ObjectAdvance(o, node, hash, false).value.stranded == o.stranded
  {
    hide Tracks, Told, AllCounted, Placed, ObjectAdvance, Acceptances, Tracked;
    var after := ObjectAdvance(o, node, hash, false).value;
    SilentStep(o, known, t.generations, s.codec, node, hash);
    SilentCounted(o, after, known, t.generations, t.events, s.codec);
    PlacedLater(s, n, k, j, created, t, created);
  }

  lemma NextNode(s: Setting, n: nat, k: nat, j: nat, created: bool, o: Objects, known: set<string>, t: Tables)
    requires Inv(s, n, k, j, created, o, known, t)
    ensures Inv(s, n, k, j + 1, created, o, known, t)
  {
    hide Tracks, Told, AllCounted, Placed;
    PlacedLater(s, n, k, j, created, t, created);
  }

  // ---- Transactions, ledgers, histories --------------------------------------------------------

  lemma StrandedStays(o: Objects, tx: Transaction, j: nat, closeTime: nat, known: set<string>, codec: Codec)
    requires j < |tx.nodes| && NodeAdvance(o, tx, j, closeTime, known, codec).Some? && o.stranded
    ensures NodeAdvance(o, tx, j, closeTime, known, codec).value.stranded
  {
    hide NodeOutcomeOf, NormalizeNode;
  }

  lemma {:induction false} TransactionSteps(s: Setting, n: nat, k: nat, j: nat, o: Objects, known: set<string>,
                                            t: Tables)
    requires Sound(s) && IsTransaction(s, n, k) && j <= |TransactionAt(s, n, k).nodes|
    requires Inv(s, n, k, 0, false, o, known, t) && known <= t.schemas.Keys && !o.stranded
    requires OneCreation(TransactionAt(s, n, k), LedgerAt(s, n).closeTime, known, s.codec)
    requires NodesAdvance(o, TransactionAt(s, n, k), LedgerAt(s, n).closeTime, known, s.codec, j).Some?
    ensures var tx, ledger := TransactionAt(s, n, k), LedgerAt(s, n);
            GoesOn(s, n, k, j, CreatedBy(tx, j, ledger.closeTime, known, s.codec),
                   NodesAdvance(o, tx, ledger.closeTime, known, s.codec, j).value, known,
                   ApplyMutations(t, ledger, MutationsUpTo(tx, ledger.closeTime, known, s.codec, j)))
    decreases j
  {
    hide Inv, Sound, OneCreation, NodeAdvance, NodeOutcomeOf, ApplyMutation;
    if j > 0 {
      TransactionSteps(s, n, k, j - 1, o, known, t);
      var tx, ledger := TransactionAt(s, n, k), LedgerAt(s, n);
      var before := MutationsUpTo(tx, ledger.closeTime, known, s.codec, j - 1);
      var middle := NodesAdvance(o, tx, ledger.closeTime, known, s.codec, j - 1).value;
      var outcome := NodeOutcomeOf(tx, j - 1, ledger.closeTime, known, s.codec);
      MutationsKeepRest(t, ledger, before);
      if outcome.Emits? {
        assert (before + [outcome.mutation])[..|before|] == before;
      } else {
        assert before + [] == before;
      }
      if middle.stranded {
        StrandedStays(middle, tx, j - 1, ledger.closeTime, known, s.codec);
      } else {
        NodeStep(s, n, k, j - 1, middle, known, ApplyMutations(t, ledger, before).value);
      }
    }
  }

  /** Schemas registered meanwhile change nothing for the objects followed so far, and make no other one followed. */
  lemma NewSchemasFollowNothing(s: Setting, n: nat, k: nat, o: Objects, known: set<string>, more: set<string>, t: Tables)
    requires Inv(s, n, k, 0, false, o, known, t) && known <= more
    ensures Inv(s, n, k, 0, false, o, more, t)
  {
    hide Told, Placed, AllCounted, HasIdentity, HasPayloadUri, LiveIndex, Mirrors, OneLivePerObject;
  }

  lemma NextTransaction(s: Setting, n: nat, k: nat, j: nat, created: bool, o: Objects, known: set<string>, t: Tables)
    requires Inv(s, n, k, j, created, o, known, t)
    ensures Inv(s, n, k + 1, 0, false, o, known, t)
    ensures k == |LedgerAt(s, n).transactions| ==> Inv(s, n + 1, 0, 0, false, o, known, t)
  {
    hide Tracks, Told, AllCounted, Placed;
    PlacedLater(s, n, k, j, created, t, created);
  }

  lemma {:induction false} StrandedStaysInTransaction(o: Objects, tx: Transaction, closeTime: nat, known: set<string>,
                                                      codec: Codec, j: nat)
    requires j <= |tx.nodes| && NodesAdvance(o, tx, closeTime, known, codec, j).Some? && o.stranded
    ensures NodesAdvance(o, tx, closeTime, known, codec, j).value.stranded
    decreases j
  {
    hide NodeAdvance;
    if j > 0 {
      StrandedStaysInTransaction(o, tx, closeTime, known, codec, j - 1);
      StrandedStays(NodesAdvance(o, tx, closeTime, known, codec, j - 1).value, tx, j - 1, closeTime, known, codec);
    }
  }

  lemma {:induction false} StrandedStaysInLedger(o: Objects, ledger: Ledger, profile: Profile, catalog: IndexCatalog,
                                                 codec: Codec, k: nat)
    requires k <= |ledger.transactions| && LedgerAdvance(o, ledger, profile, catalog, codec, k).Some? && o.stranded
    ensures LedgerAdvance(o, ledger, profile, catalog, codec, k).value.stranded
    decreases k
  {
    hide NodesAdvance, CatalogAfter, ProjectUpTo, OneCreation;
    if k > 0 {
      StrandedStaysInLedger(o, ledger, profile, catalog, codec, k - 1);
      var tx := ledger.transactions[k - 1];
      var before := ProjectUpTo(ledger, profile, catalog, codec, k - 1).catalog;
      StrandedStaysInTransaction(LedgerAdvance(o, ledger, profile, catalog, codec, k - 1).value, tx, ledger.closeTime,
                                 CatalogAfter(tx, ledger, profile, before, codec).Keys, codec, |tx.nodes|);
    }
  }

  lemma {:induction false} LedgerSteps(s: Setting, n: nat, k: nat, o: Objects, catalog: IndexCatalog, stored: Tables,
                                       t: Tables)
    requires Sound(s) && k <= |LedgerAt(s, n).transactions| && Agree(s, n, 0, catalog, stored)
    requires Inv(s, n, 0, 0, false, o, catalog.Keys, t) && !o.stranded
    requires Project(LedgerAt(s, n), s.profile, catalog, s.codec).catalog.Keys <= t.schemas.Keys
    requires LedgerAdvance(o, LedgerAt(s, n), s.profile, catalog, s.codec, k).Some?
    ensures var ledger := LedgerAt(s, n);
            var p := ProjectUpTo(ledger, s.profile, catalog, s.codec, k);
            GoesOn(s, n, k, 0, false, LedgerAdvance(o, ledger, s.profile, catalog, s.codec, k).value, p.catalog.Keys,
                   ApplyMutations(t, ledger, p.mutations))
    decreases k
  {
    hide Inv, Sound, Agree, MutationsUpTo, ApplyMutations, NodesAdvance, CatalogAfter, OneCreation, Interpret;
    if k == 0 {
      assert ApplyMutations(t, LedgerAt(s, n), []) == Ok(t) by { NoMutations(t, LedgerAt(s, n)); }
    } else {
      LedgerSteps(s, n, k - 1, o, catalog, stored, t);
      var ledger := LedgerAt(s, n);
      var before := ProjectUpTo(ledger, s.profile, catalog, s.codec, k - 1);
      var objects := LedgerAdvance(o, ledger, s.profile, catalog, s.codec, k - 1).value;
      var tx := ledger.transactions[k - 1];
      var known := CatalogAfter(tx, ledger, s.profile, before.catalog, s.codec).Keys;
      ApplyMutationsConcat(t, ledger, before.mutations,
                           MutationsUpTo(tx, ledger.closeTime, known, s.codec, |tx.nodes|));
      if objects.stranded {
        StrandedStaysInTransaction(objects, tx, ledger.closeTime, known, s.codec, |tx.nodes|);
      } else {
        MutationsKeepRest(t, ledger, before.mutations);
        CatalogGrowsWithin(s, n, k - 1, k, catalog, stored);
        CatalogGrowsWithin(s, n, k, |ledger.transactions|, catalog, stored);
        LedgerStep(s, n, k - 1, objects, before, ApplyMutations(t, ledger, before.mutations).value);
      }
    }
  }

  lemma NoMutations(t: Tables, ledger: Ledger)
    ensures ApplyMutations(t, ledger, []) == Ok(t)
  {
  }

  /** One transaction: its registration, then its nodes. */
  lemma LedgerStep(s: Setting, n: nat, k: nat, o: Objects, before: Partial, t: Tables)
    requires Sound(s) && IsTransaction(s, n, k)
    requires Inv(s, n, k, 0, false, o, before.catalog.Keys, t) && !o.stranded
    requires var tx, ledger := TransactionAt(s, n, k), LedgerAt(s, n);
             var after := CatalogAfter(tx, ledger, s.profile, before.catalog, s.codec);
             && before.catalog.Keys <= after.Keys <= t.schemas.Keys
             && TransactionAdvance(o, tx, ledger, s.profile, before.catalog, s.codec).Some?
    ensures var tx, ledger := TransactionAt(s, n, k), LedgerAt(s, n);
            var known := CatalogAfter(tx, ledger, s.profile, before.catalog, s.codec).Keys;
            GoesOn(s, n, k + 1, 0, false, TransactionAdvance(o, tx, ledger, s.profile, before.catalog, s.codec).value, known,
                   ApplyMutations(t, ledger, MutationsUpTo(tx, ledger.closeTime, known, s.codec, |tx.nodes|)))
  {
    hide Inv, Sound, MutationsUpTo, ApplyMutations, NodesAdvance, CatalogAfter, OneCreation, CreatedBy;
    var tx, ledger := TransactionAt(s, n, k), LedgerAt(s, n);
    var known := CatalogAfter(tx, ledger, s.profile, before.catalog, s.codec).Keys;
    NewSchemasFollowNothing(s, n, k, o, before.catalog.Keys, known, t);
    TransactionSteps(s, n, k, |tx.nodes|, o, known, t);
    var after := NodesAdvance(o, tx, ledger.closeTime, known, s.codec, |tx.nodes|).value;
    if !after.stranded {
      NextTransaction(s, n, k, |tx.nodes|, CreatedBy(tx, |tx.nodes|, ledger.closeTime, known, s.codec), after, known,
        ApplyMutations(t, ledger, MutationsUpTo(tx, ledger.closeTime, known, s.codec, |tx.nodes|)).value);
    }
  }

  /** The same invariant on tables that differ only in their registrations. */
  lemma SameRows(s: Setting, n: nat, k: nat, j: nat, created: bool, o: Objects, known: set<string>, a: Tables, b: Tables)
    requires Inv(s, n, k, j, created, o, known, a)
    requires a.generations == b.generations && a.events == b.events
    ensures Inv(s, n, k, j, created, o, known, b)
  {
    hide Tracks, Told, AllCounted, EventPlaced, GenerationPlaced, Shaped, Ordered;
  }

  /**
   When the indexer gets stuck: on every history the XRPL can produce, the fold accepts all ledgers exactly unless some
   object was accepted or deleted, under a schema known by then, that could not be followed from its creation on; and
   then it stops for want of a live generation and for no other reason. As long as it goes on its invariant holds.
   */
  lemma {:induction false} StuckExactly(s: Setting, n: nat)
    requires Plausible(s, n)
    ensures ReplayOf(s, n).Ok? <==> !HistoryAdvance(s, n).value.stranded
    ensures ReplayOf(s, n).Err? ==> ReplayOf(s, n) == Err(NoLiveGeneration)
    ensures ReplayOf(s, n).Ok? ==>
              var fold := ReplayOf(s, n).value;
              Inv(s, n, 0, 0, false, HistoryAdvance(s, n).value, fold.catalog.Keys, fold.tables)
    decreases n
  {
    hide Inv, Sound, ProjectUpTo, ApplyMutations, ApplyRegistrations, LedgerAdvance, Agree, CatalogBefore,
         MeetsConstraints, HasLedgerShape, UidIsHash;
    if n == 0 {
      EmptyInv(s);
      assert ReplayOf(s, 0).value.catalog.Keys == {};
    } else {
      assert HistoryAdvance(s, n - 1).Some?;
      StuckExactly(s, n - 1);
      var before, ledger := HistoryAdvance(s, n - 1).value, LedgerAt(s, n - 1);
      if before.stranded {
        StrandedStaysInLedger(before, ledger, s.profile, CatalogBefore(s, n - 1), s.codec, |ledger.transactions|);
      } else {
        FoldCatalog(s, n - 1);
        LedgerGoesOn(s, n - 1, before);
      }
    }
  }

  /** So the indexer never gets stuck where it could follow every object that it hears of. */
  lemma NeverStuck(s: Setting, n: nat)
    requires WellFormed(s, n)
    ensures ReplayOf(s, n).Ok?
    ensures var fold := ReplayOf(s, n).value;
            Inv(s, n, 0, 0, false, HistoryAdvance(s, n).value, fold.catalog.Keys, fold.tables)
  {
    hide Inv, ReplayOf, Plausible, AllReported;
    StuckExactly(s, n);
  }

  lemma EmptyInv(s: Setting)
    ensures Inv(s, 0, 0, 0, false, OlderObjects(s.existing), {}, EmptyTables)
  {
  }

  // ---- The tables' own constraints ----------------------------------------------------------------

  lemma RegistrationMeets(s: Setting, n: nat, m: nat, k: nat)
    requires Sound(s) && HasShape(s, n) && UidsAreHashes(s, n) && m < n
    requires IsTransaction(s, m, k) && RegistrationAt(s, m, k).Some?
    ensures var r, ledger := RegistrationAt(s, m, k).value, LedgerAt(s, m);
            IsSchemaEventRow(SchemaEventOf(ledger, r)) && (r.Accepted? ==> IsSchemaRow(SchemaRowOf(ledger, r)))
  {
    hide SchemaOf, Interpret, IsHash, CatalogAt;
    assert UidIsHash(s, m, k) && HasLedgerShape(LedgerAt(s, m)) && FitsChain(s, m);
    var r := RegistrationAt(s, m, k).value;
    PositionOf(s, m, k, r);
    if r.Accepted? {
      AcceptedFacts(TransactionAt(s, m, k), LedgerAt(s, m), s.profile, CatalogAt(s, m, k), s.codec);
      ParsedSchemaIsValid(r.memo);
    }
  }

  lemma SchemaEventMeets(s: Setting, n: nat, hash: string, row: SchemaEventRow)
    requires Sound(s) && HasShape(s, n) && UidsAreHashes(s, n) && IsEventOf(s, n, 0, hash, row)
    ensures IsSchemaEventRow(row)
  {
    hide RegistrationAt, IsSchemaEventRow, IsSchemaRow, Sound, HasShape, UidsAreHashes, SchemaEventOf, SchemaRowOf;
    RegistrationMeets(s, n, row.ledgerIndex - s.profile.activationIndex, row.transactionIndex);
  }

  lemma SchemaMeets(s: Setting, n: nat, uid: string, row: SchemaRow)
    requires Sound(s) && HasShape(s, n) && UidsAreHashes(s, n) && IsSchemaOf(s, n, 0, uid, row)
    ensures IsSchemaRow(row)
  {
    hide RegistrationAt, IsSchemaEventRow, IsSchemaRow, Sound, HasShape, UidsAreHashes, SchemaEventOf, SchemaRowOf;
    RegistrationMeets(s, n, row.ledgerIndex - s.profile.activationIndex, row.transactionIndex);
  }

  lemma SchemaRowsMeet(s: Setting, n: nat, t: Tables)
    requires Sound(s) && HasShape(s, n) && UidsAreHashes(s, n) && Exact(s, n, 0, t)
    ensures forall hash :: hash in t.schemaEvents ==> IsSchemaEventRow(t.schemaEvents[hash])
    ensures forall uid :: uid in t.schemas ==> IsSchemaRow(t.schemas[uid])
  {
    hide IsEventOf, IsSchemaOf, IsStored, IsSchemaEventRow, IsSchemaRow, Sound, HasShape, UidsAreHashes;
    forall hash | hash in t.schemaEvents ensures IsSchemaEventRow(t.schemaEvents[hash]) {
      SchemaEventMeets(s, n, hash, t.schemaEvents[hash]);
    }
    forall uid | uid in t.schemas ensures IsSchemaRow(t.schemas[uid]) {
      SchemaMeets(s, n, uid, t.schemas[uid]);
    }
  }

  lemma PlacedShape(s: Setting, n: nat, e: EventRow)
    requires Sound(s) && HasShape(s, n) && EventPlaced(s, e, n, 0, 0)
    ensures IsHash(e.transactionHash) && IsHash(e.ledgerHash) && IsUint32(e.ledgerIndex)
    ensures e.transactionIndex <= INT32_MAX && e.nodeIndex <= INT32_MAX
  {
    hide IsHash;
    var m := e.ledgerIndex - s.profile.activationIndex;
    assert FitsChain(s, m) && HasLedgerShape(LedgerAt(s, m));
  }

  /** A generation and the events of its story, at the positions they claim. */
  lemma StoryMeets(s: Setting, n: nat, g: GenerationRow, es: seq<EventRow>)
    requires Sound(s) && HasShape(s, n) && Story(g, es) && Ordered(es)
    requires GenerationPlaced(s, g, n, 0, false) && Shaped(g, s.codec)
    requires forall i :: 0 <= i < |es| ==> EventPlaced(s, es[i], n, 0, 0)
    ensures IsGenerationRow(g) && forall i :: 0 <= i < |es| ==> IsEventRow(es[i])
  {
    hide Sound, HasShape, IsHash, EventPlaced, GenerationPlaced;
    assert EventPlaced(s, es[0], n, 0, 0) && EventPlaced(s, es[|es| - 1], n, 0, 0);
    PlacedShape(s, n, es[0]);
    PlacedShape(s, n, es[|es| - 1]);
    assert |es| > 1 ==> Precedes(es[0], es[|es| - 1]);
    forall i | 0 <= i < |es| ensures IsEventRow(es[i]) {
      PlacedShape(s, n, es[i]);
      assert Concerns(es[i], g);
    }
  }

  lemma CredentialRowsMeet(s: Setting, n: nat, o: Objects, known: set<string>, t: Tables)
    requires Sound(s) && HasShape(s, n) && Inv(s, n, 0, 0, false, o, known, t)
    ensures forall i :: 0 <= i < |t.generations| ==> IsGenerationRow(t.generations[i])
    ensures forall i :: 0 <= i < |t.events| ==> IsEventRow(t.events[i])
  {
    hide Sound, HasShape, Story, Tracks, Ordered, EventPlaced, GenerationPlaced, Shaped, IsEventRow, IsGenerationRow;
    forall i | 0 <= i < |t.generations|
      ensures IsGenerationRow(t.generations[i])
      ensures forall e :: e in EventsOf(t.events, t.generations[i].generationId) ==> IsEventRow(e)
    {
      GenerationMeets(s, n, t, i);
    }
    forall k | 0 <= k < |t.events| ensures IsEventRow(t.events[k]) {
      var e := t.events[k];
      assert e.generationId in Ids(t.generations);
      OwnEvents(t.events, e);
    }
  }

  lemma GenerationMeets(s: Setting, n: nat, t: Tables, i: nat)
    requires Sound(s) && HasShape(s, n) && i < |t.generations|
    requires Told(t.generations, t.events) && Placed(s, n, 0, 0, false, t)
    ensures IsGenerationRow(t.generations[i])
    ensures forall e :: e in EventsOf(t.events, t.generations[i].generationId) ==> IsEventRow(e)
  {
    hide Sound, HasShape, Story, Ordered, EventPlaced, GenerationPlaced, Shaped, IsEventRow, IsGenerationRow;
    var g := t.generations[i];
    var es := EventsOf(t.events, g.generationId);
    StoryAt(t.generations, t.events, i);
    SelectedAreOrdered(t.events, g.generationId);
    forall x | 0 <= x < |es| ensures EventPlaced(s, es[x], n, 0, 0) {
      assert es[x] in t.events;
    }
    StoryMeets(s, n, g, es);
  }

  lemma {:induction false} SelectedAreOrdered(events: seq<EventRow>, id: string)
    requires Ordered(events)
    ensures Ordered(EventsOf(events, id))
    ensures forall e :: e in EventsOf(events, id) ==> e in events
    decreases |events|
  {
    if events != [] {
      var n := |events| - 1;
      SelectedAreOrdered(events[..n], id);
      forall e | e in EventsOf(events[..n], id) ensures Precedes(e, events[n]) {
        var i :| 0 <= i < n && events[i] == e;
      }
    }
  }

  lemma CheckpointRowsMeet(s: Setting, n: nat, checkpoints: seq<Checkpoint>)
    requires HasShape(s, n) && DistinctLedgers(s, n)
    requires checkpoints == seq(n, i requires 0 <= i < n => CheckpointOf(LedgerAt(s, i)))
    ensures forall i :: 0 <= i < |checkpoints| ==> IsCheckpointRow(checkpoints[i])
    ensures forall i, j :: 0 <= i < j < |checkpoints| ==> checkpoints[i].ledgerHash != checkpoints[j].ledgerHash
  {
    hide IsHash;
    forall i: nat | i < n ensures IsCheckpointRow(checkpoints[i]) {
      assert HasLedgerShape(LedgerAt(s, i));
    }
  }

  /** Everything the next ledger stores meets the constraints of the tables. */
  lemma NextMeetsConstraints(s: Setting, n: nat, o: Objects, known: set<string>, after: Tables, stored: Tables)
    requires Sound(s) && ReplayOf(s, n).Ok?
    requires HasShape(s, n + 1) && DistinctLedgers(s, n + 1) && UidsAreHashes(s, n + 1)
    requires Exact(s, n + 1, 0, stored) && after.schemas == stored.schemas && after.schemaEvents == stored.schemaEvents
    requires after.checkpoints == ReplayOf(s, n).value.tables.checkpoints
    requires Inv(s, n + 1, 0, 0, false, o, known, after)
    ensures MeetsConstraints(AddCheckpoint(after, LedgerAt(s, n)))
  {
    hide Sound, HasShape, UidsAreHashes, DistinctLedgers, Inv, Exact, ReplayOf, IsSchemaEventRow, IsSchemaRow,
         IsGenerationRow, IsEventRow, IsCheckpointRow;
    SchemaRowsMeet(s, n + 1, stored);
    CredentialRowsMeet(s, n + 1, o, known, after);
    ReplayCheckpoints(s, n);
    CheckpointRowsMeet(s, n + 1, after.checkpoints + [CheckpointOf(LedgerAt(s, n))]);
  }

  /** The schema tables after the next ledger, before anything else is known of it. */
  lemma NextSchemasExact(s: Setting, n: nat)
    requires Sound(s) && ReplayOf(s, n).Ok?
    ensures var fold, ledger := ReplayOf(s, n).value, LedgerAt(s, n);
            Exact(s, n + 1, 0, ApplyRegistrations(fold.tables, ledger, Project(ledger, s.profile, fold.catalog, s.codec).registrations))
  {
    hide Sound, Exact, ReplayOf, ProjectUpTo, Agree, ApplyRegistrations, RegistrationAt;
    var fold, ledger := ReplayOf(s, n).value, LedgerAt(s, n);
    var all := |ledger.transactions|;
    SchemaRowsAreExact(s, n);
    FoldCatalog(s, n);
    CatalogAgrees(s, n);
    ExactWithinLedger(s, n, all, fold.tables);
    ExactLater(s, n, all, ApplyRegistrations(fold.tables, ledger, Project(ledger, s.profile, fold.catalog, s.codec).registrations));
  }

  lemma LedgerGoesOn(s: Setting, n: nat, o: Objects)
    requires Sound(s) && ReplayOf(s, n).Ok?
    requires HasShape(s, n + 1) && DistinctLedgers(s, n + 1) && UidsAreHashes(s, n + 1)
    requires var fold := ReplayOf(s, n).value;
             && Inv(s, n, 0, 0, false, o, fold.catalog.Keys, fold.tables)
             && LedgerAdvance(o, LedgerAt(s, n), s.profile, fold.catalog, s.codec, |LedgerAt(s, n).transactions|).Some?
    requires !o.stranded
    ensures var fold, ledger := ReplayOf(s, n).value, LedgerAt(s, n);
            var after := LedgerAdvance(o, ledger, s.profile, fold.catalog, s.codec, |ledger.transactions|).value;
            if after.stranded then ReplayOf(s, n + 1) == Err(NoLiveGeneration)
            else
              && ReplayOf(s, n + 1).Ok?
              && Inv(s, n + 1, 0, 0, false, after, ReplayOf(s, n + 1).value.catalog.Keys, ReplayOf(s, n + 1).value.tables)
  {
    hide Inv, Sound, ProjectUpTo, ApplyMutations, ApplyRegistrations, LedgerAdvance, Agree, MeetsConstraints,
         HasShape, DistinctLedgers, UidsAreHashes, Exact;
    var fold, ledger := ReplayOf(s, n).value, LedgerAt(s, n);
    var all := |ledger.transactions|;
    var p := Project(ledger, s.profile, fold.catalog, s.codec);
    var stored := ApplyRegistrations(fold.tables, ledger, p.registrations);
    CatalogAgrees(s, n);
    CatalogWithinLedger(s, n, all, fold.catalog, fold.tables);
    SchemaKeys(s, n, all, p.catalog, stored);
    RegistrationsKeepRest(fold.tables, ledger, p.registrations);
    SameRows(s, n, 0, 0, false, o, fold.catalog.Keys, fold.tables, stored);
    LedgerSteps(s, n, all, o, fold.catalog, fold.tables, stored);
    var advanced := LedgerAdvance(o, ledger, s.profile, fold.catalog, s.codec, all).value;
    if !advanced.stranded {
      var after := ApplyMutations(stored, ledger, p.mutations).value;
      MutationsKeepRest(stored, ledger, p.mutations);
      NextTransaction(s, n, all, 0, false, advanced, p.catalog.Keys, after);
      NextSchemasExact(s, n);
      NextMeetsConstraints(s, n, advanced, p.catalog.Keys, after, stored);
      SameRows(s, n + 1, 0, 0, false, advanced, p.catalog.Keys, after, AddCheckpoint(after, ledger));
    }
  }
}
