/**
 Where the stored credential events come from: after any prefix of the ledgers they are exactly the events read out of
 their own nodes, each against the catalog of its own transaction, and each once.
 */
module EventHistory {
  import opened Base
  import opened LedgerModel
  import opened Registration
  import opened CredentialMutations
  import opened ProjectLedger
  import opened ProjectionStore
  import opened Replay
  import opened SchemaHistory

  /** What node j of transaction k of ledger m is read as, at its own position. */
  function OutcomeAt(s: Setting, m: nat, k: nat, j: nat): NodeOutcome
    requires IsTransaction(s, m, k) && j < |TransactionAt(s, m, k).nodes|
  {
    NodeOutcomeOf(TransactionAt(s, m, k), j, LedgerAt(s, m).closeTime, CatalogAt(s, m, k + 1).Keys, s.codec)
  }

  predicate IsNode(s: Setting, m: nat, k: nat, j: nat) {
    IsTransaction(s, m, k) && j < |TransactionAt(s, m, k).nodes|
  }

  /** The mutation is what the node of its own position in ledger m is read as. */
  predicate IsMutationAt(s: Setting, m: nat, mutation: CredentialMutation) {
    && IsNode(s, m, mutation.transactionIndex, mutation.nodeIndex)
    && OutcomeAt(s, m, mutation.transactionIndex, mutation.nodeIndex) == Emits(mutation)
  }

  /** The event row of a mutation, under whatever generation. */
  predicate IsRowOf(e: EventRow, ledger: Ledger, mutation: CredentialMutation) {
    && e == EventRowOf(ledger, mutation, e.generationId)
    && (e.eventType.CreatedEvent? ==> e.generationId == e.transactionHash)
  }

  /** The event row is what the node of its own position, before ledger n, is read as. */
  predicate IsEventRead(s: Setting, n: nat, e: EventRow) {
    var m := e.ledgerIndex - s.profile.activationIndex;
    && 0 <= m < n && IsNode(s, m, e.transactionIndex, e.nodeIndex)
    && var outcome := OutcomeAt(s, m, e.transactionIndex, e.nodeIndex);
    outcome.Emits? && IsRowOf(e, LedgerAt(s, m), outcome.mutation)
  }

  predicate OnePerNode(events: seq<EventRow>) {
    forall i, j :: 0 <= i < j < |events| ==>
      !(events[i].transactionHash == events[j].transactionHash && events[i].nodeIndex == events[j].nodeIndex)
  }

  /** An event that node j of transaction k of ledger m stands for is stored. */
  predicate IsNodeStored(s: Setting, m: nat, k: nat, j: nat, events: seq<EventRow>) {
    IsNode(s, m, k, j) && OutcomeAt(s, m, k, j).Emits? ==> HasEvent(events, TransactionAt(s, m, k).hash, j)
  }

  ghost predicate ExactEvents(s: Setting, n: nat, events: seq<EventRow>) {
    && (forall e :: e in events ==> IsEventRead(s, n, e))
    && (forall m: nat, k: nat, j: nat :: m < n ==> IsNodeStored(s, m, k, j, events))
    && OnePerNode(events)
  }

  // ---- One ledger's mutations ------------------------------------------------------------------------

  lemma {:induction false} MutationsOfNodes(tx: Transaction, closeTime: nat, known: set<string>, codec: Codec, n: nat)
    requires n <= |tx.nodes|
    ensures forall mutation :: mutation in MutationsUpTo(tx, closeTime, known, codec, n) ==>
              && mutation.transactionIndex == tx.index && mutation.transactionHash == tx.hash && mutation.nodeIndex < n
              && NodeOutcomeOf(tx, mutation.nodeIndex, closeTime, known, codec) == Emits(mutation)
    ensures forall j: nat :: j < n && NodeOutcomeOf(tx, j, closeTime, known, codec).Emits? ==>
              NodeOutcomeOf(tx, j, closeTime, known, codec).mutation in MutationsUpTo(tx, closeTime, known, codec, n)
    decreases n
  {
    hide NodeOutcomeOf;
    if n > 0 {
      MutationsOfNodes(tx, closeTime, known, codec, n - 1);
      MutationOfNode(tx, n - 1, closeTime, known, codec);
    }
  }

  lemma MutationOfNode(tx: Transaction, j: nat, closeTime: nat, known: set<string>, codec: Codec)
    requires j < |tx.nodes|
    ensures var outcome := NodeOutcomeOf(tx, j, closeTime, known, codec);
            outcome.Emits? ==>
              && outcome.mutation.transactionIndex == tx.index && outcome.mutation.transactionHash == tx.hash
              && outcome.mutation.nodeIndex == j
  {
  }

  lemma {:induction false} MutationsOfLedger(s: Setting, m: nat, n: nat)
    requires Sound(s) && n <= |LedgerAt(s, m).transactions|
    ensures var mutations := ProjectUpTo(LedgerAt(s, m), s.profile, CatalogBefore(s, m), s.codec, n).mutations;
            && (forall mutation :: mutation in mutations ==> IsMutationAt(s, m, mutation))
            && (forall k: nat, j: nat :: k < n && IsNode(s, m, k, j) && OutcomeAt(s, m, k, j).Emits? ==>
                  OutcomeAt(s, m, k, j).mutation in mutations)
    decreases n
  {
    hide NodeOutcomeOf, MutationsUpTo, MalformedUpTo, Interpret, Sound, CatalogBefore;
    if n > 0 {
      MutationsOfLedger(s, m, n - 1);
      PositionOfLedger(s, m);
      var ledger := LedgerAt(s, m);
      var tx, known := ledger.transactions[n - 1], CatalogAt(s, m, n).Keys;
      MutationsOfNodes(tx, ledger.closeTime, known, s.codec, |tx.nodes|);
    }
  }

  // ---- Their rows ---------------------------------------------------------------------------------------

  predicate IsRowOfSome(e: EventRow, ledger: Ledger, mutations: seq<CredentialMutation>) {
    exists i :: 0 <= i < |mutations| && IsRowOf(e, ledger, mutations[i])
  }

  lemma RowOfMutation(t: Tables, ledger: Ledger, mutation: CredentialMutation)
    requires ApplyMutation(t, ledger, mutation).Ok? && OnePerNode(t.events)
    ensures var after := ApplyMutation(t, ledger, mutation).value.events;
            && t.events <= after && OnePerNode(after)
            && HasEvent(after, mutation.transactionHash, mutation.nodeIndex)
            && (forall e :: e in after ==> e in t.events || IsRowOf(e, ledger, mutation))
  {
    hide LiveIndex, BreaksUniqueness, GenerationOf, AfterEvent;
    var after := ApplyMutation(t, ledger, mutation).value.events;
    if !HasEvent(t.events, mutation.transactionHash, mutation.nodeIndex) {
      assert after[|t.events|].transactionHash == mutation.transactionHash;
    }
  }

  lemma {:induction false} RowsOfMutations(t: Tables, ledger: Ledger, mutations: seq<CredentialMutation>)
    requires ApplyMutations(t, ledger, mutations).Ok? && OnePerNode(t.events)
    ensures var after := ApplyMutations(t, ledger, mutations).value.events;
            && t.events <= after && OnePerNode(after)
            && (forall mutation :: mutation in mutations ==> HasEvent(after, mutation.transactionHash, mutation.nodeIndex))
            && (forall e :: e in after ==> e in t.events || IsRowOfSome(e, ledger, mutations))
    decreases |mutations|
  {
    hide ApplyMutation, OnePerNode, IsRowOf;
    if mutations != [] {
      var init, last := mutations[..|mutations| - 1], mutations[|mutations| - 1];
      RowsOfMutations(t, ledger, init);
      var before := ApplyMutations(t, ledger, init).value;
      RowOfMutation(before, ledger, last);
      var after := ApplyMutations(t, ledger, mutations).value.events;
      forall e | e in after ensures e in t.events || IsRowOfSome(e, ledger, mutations) {
        if e in before.events && e !in t.events {
          var i :| 0 <= i < |init| && IsRowOf(e, ledger, init[i]);
          assert mutations[i] == init[i];
        }
      }
      forall mutation | mutation in mutations ensures HasEvent(after, mutation.transactionHash, mutation.nodeIndex) {
        if mutation in init { StillHasEvent(before.events, after, mutation.transactionHash, mutation.nodeIndex); }
      }
    }
  }

  lemma StillHasEvent(before: seq<EventRow>, after: seq<EventRow>, hash: string, nodeIndex: nat)
    requires before <= after && HasEvent(before, hash, nodeIndex)
    ensures HasEvent(after, hash, nodeIndex)
  {
    var i :| 0 <= i < |before| && before[i].transactionHash == hash && before[i].nodeIndex == nodeIndex;
    assert after[i] == before[i];
  }

  // ---- The whole history -------------------------------------------------------------------------------

  lemma LedgerIsExact(s: Setting, n: nat, t: Tables, after: Tables)
    requires Sound(s) && ExactEvents(s, n, t.events)
    requires var ledger := LedgerAt(s, n);
             ApplyMutations(t, ledger, Project(ledger, s.profile, CatalogBefore(s, n), s.codec).mutations) == Ok(after)
    ensures ExactEvents(s, n + 1, after.events)
  {
    hide ApplyMutations, ProjectUpTo, OutcomeAt, IsRowOf, OnePerNode, HasEvent, Sound, CatalogBefore;
    var ledger := LedgerAt(s, n);
    var mutations := Project(ledger, s.profile, CatalogBefore(s, n), s.codec).mutations;
    MutationsOfLedger(s, n, |ledger.transactions|);
    RowsOfMutations(t, ledger, mutations);
    PositionOfLedger(s, n);
    forall e | e in after.events ensures IsEventRead(s, n + 1, e) {
      if e !in t.events {
        var i :| 0 <= i < |mutations| && IsRowOf(e, ledger, mutations[i]);
        NewRowIsRead(s, n, e, mutations[i]);
      }
    }
    forall m: nat, k: nat, j: nat | m < n + 1 ensures IsNodeStored(s, m, k, j, after.events) {
      if m < n {
        assert IsNodeStored(s, m, k, j, t.events);
        if HasEvent(t.events, if IsNode(s, m, k, j) then TransactionAt(s, m, k).hash else "", j) {
          StillHasEvent(t.events, after.events, if IsNode(s, m, k, j) then TransactionAt(s, m, k).hash else "", j);
        }
      } else if IsNode(s, n, k, j) && OutcomeAt(s, n, k, j).Emits? {
        NodeOfOutcome(s, n, k, j);
      }
    }
  }

  lemma NewRowIsRead(s: Setting, n: nat, e: EventRow, mutation: CredentialMutation)
    requires Sound(s) && IsMutationAt(s, n, mutation) && IsRowOf(e, LedgerAt(s, n), mutation)
    ensures IsEventRead(s, n + 1, e)
  {
    hide OutcomeAt, Sound;
    PositionOfLedger(s, n);
  }

  lemma NodeOfOutcome(s: Setting, m: nat, k: nat, j: nat)
    requires IsNode(s, m, k, j) && OutcomeAt(s, m, k, j).Emits?
    ensures OutcomeAt(s, m, k, j).mutation.transactionHash == TransactionAt(s, m, k).hash
    ensures OutcomeAt(s, m, k, j).mutation.nodeIndex == j
  {
    hide NodeOutcomeOf, CatalogAt;
    MutationOfNode(TransactionAt(s, m, k), j, LedgerAt(s, m).closeTime, CatalogAt(s, m, k + 1).Keys, s.codec);
  }

  /** The events table holds exactly the events of the replayed ledgers, each read at its own position, and each once. */
  lemma {:induction false} EventRowsAreExact(s: Setting, n: nat)
    requires Sound(s) && ReplayOf(s, n).Ok?
    ensures ExactEvents(s, n, ReplayOf(s, n).value.tables.events)
    decreases n
  {
    hide Sound, ExactEvents, ApplyMutations, ApplyRegistrations, ProjectUpTo, MeetsConstraints;
    if n == 0 {
      NothingStored(s);
    } else {
      EventRowsAreExact(s, n - 1);
      FoldCatalog(s, n - 1);
      var before, ledger := ReplayOf(s, n - 1).value, LedgerAt(s, n - 1);
      var p := Project(ledger, s.profile, before.catalog, s.codec);
      RegistrationsKeepRest(before.tables, ledger, p.registrations);
      var stored := ApplyRegistrations(before.tables, ledger, p.registrations);
      LedgerIsExact(s, n - 1, stored, ApplyMutations(stored, ledger, p.mutations).value);
    }
  }

  lemma NothingStored(s: Setting)
    ensures ExactEvents(s, 0, [])
  {
  }
}
