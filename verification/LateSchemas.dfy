/**
 A condition that a reader of the ledger can check: when no Credential names a schema that is registered only later, the
 indexer can follow every Credential that it hears of, and never gets stuck.
 */
module LateSchemas {
  import opened LedgerModel
  import opened Registration
  import opened CredentialMutations
  import opened ProjectLedger
  import opened Replay
  import opened SchemaHistory
  import opened CredentialHistory
  import opened Lifecycle
  import opened Progress

  predicate Names(fields: CredentialFields, uids: set<string>) {
    fields.credentialType.Str? && SchemaUidOf(fields) in uids
  }

  /** Node j of transaction k of ledger m creates a Credential of a schema that is registered afterwards, before ledger n. */
  predicate NamesLater(s: Setting, n: nat, m: nat, k: nat, j: nat)
    requires IsTransaction(s, m, k) && j < |TransactionAt(s, m, k).nodes|
  {
    match NormalizeNode(TransactionAt(s, m, k).nodes[j])
    case None => false
    case Some(node) =>
      node.kind.CreatedNode? && Names(node.fields, CatalogBefore(s, n).Keys) && !Names(node.fields, CatalogAt(s, m, k + 1).Keys)
  }

  /** No Credential of the first n ledgers, and none older than activation, names a schema registered after its creation. */
  ghost predicate NobodyNamesLater(s: Setting, n: nat) {
    && (forall id :: id in s.existing ==> !Names(s.existing[id], CatalogBefore(s, n).Keys))
    && forall m: nat, k: nat, j: nat {:trigger NamesLater(s, n, m, k, j)} ::
         m < n && IsTransaction(s, m, k) && j < |TransactionAt(s, m, k).nodes| ==> !NamesLater(s, n, m, k, j)
  }

  /** Nothing is stranded, and no object that is not followed will ever be read as one of these schemas. */
  predicate OutOfSight(o: Objects, uids: set<string>, codec: Codec) {
    !o.stranded && forall id :: id in o.live && !o.live[id].followed ==> !Tracked(o.live[id].fields, uids, codec)
  }

  lemma NodeStaysInSight(o: Objects, tx: Transaction, j: nat, closeTime: nat, known: set<string>, uids: set<string>,
                         codec: Codec)
    requires j < |tx.nodes| && known <= uids && OutOfSight(o, uids, codec)
    requires NodeAdvance(o, tx, j, closeTime, known, codec).Some?
    requires var node := NormalizeNode(tx.nodes[j]);
             node.Some? && node.value.kind.CreatedNode? && Names(node.value.fields, uids) ==> Names(node.value.fields, known)
    ensures OutOfSight(NodeAdvance(o, tx, j, closeTime, known, codec).value, uids, codec)
  {
    hide NormalizeNode, NodeOutcomeOf, HasPayloadUri, OptionalUint32;
    if ContainsCredential(tx.nodes[j]) {
      var node := NormalizeNode(tx.nodes[j]).value;
      AdvanceFacts(o, node, tx.hash, NodeOutcomeOf(tx, j, closeTime, known, codec).Emits?);
      OutcomeOfNode(tx, j, closeTime, known, codec);
      if node.objectId in o.live && SameIdentity(o.live[node.objectId].fields, node.fields) {
        SkipDecisionsAgree(o.live[node.objectId].fields, node.fields, uids, codec);
      }
    }
  }

  lemma {:induction false} TransactionStaysInSight(s: Setting, n: nat, m: nat, k: nat, j: nat, o: Objects)
    requires m < n && IsTransaction(s, m, k) && j <= |TransactionAt(s, m, k).nodes|
    requires NobodyNamesLater(s, n) && CatalogAt(s, m, k + 1).Keys <= CatalogBefore(s, n).Keys
    requires OutOfSight(o, CatalogBefore(s, n).Keys, s.codec)
    requires NodesAdvance(o, TransactionAt(s, m, k), LedgerAt(s, m).closeTime, CatalogAt(s, m, k + 1).Keys, s.codec, j).Some?
    ensures OutOfSight(
              NodesAdvance(o, TransactionAt(s, m, k), LedgerAt(s, m).closeTime, CatalogAt(s, m, k + 1).Keys, s.codec, j).value,
              CatalogBefore(s, n).Keys, s.codec)
    decreases j
  {
    hide CatalogAt, CatalogBefore, NodeAdvance, OutOfSight, Names, NormalizeNode;
    if j > 0 {
      TransactionStaysInSight(s, n, m, k, j - 1, o);
      var tx, known := TransactionAt(s, m, k), CatalogAt(s, m, k + 1).Keys;
      assert !NamesLater(s, n, m, k, j - 1);
      NodeStaysInSight(NodesAdvance(o, tx, LedgerAt(s, m).closeTime, known, s.codec, j - 1).value, tx, j - 1,
                       LedgerAt(s, m).closeTime, known, CatalogBefore(s, n).Keys, s.codec);
    }
  }

  lemma {:induction false} LedgerStaysInSight(s: Setting, n: nat, m: nat, k: nat, o: Objects)
    requires m < n && k <= |LedgerAt(s, m).transactions| && NobodyNamesLater(s, n)
    requires OutOfSight(o, CatalogBefore(s, n).Keys, s.codec)
    requires LedgerAdvance(o, LedgerAt(s, m), s.profile, CatalogBefore(s, m), s.codec, k).Some?
    ensures OutOfSight(LedgerAdvance(o, LedgerAt(s, m), s.profile, CatalogBefore(s, m), s.codec, k).value,
                       CatalogBefore(s, n).Keys, s.codec)
    decreases k
  {
    hide CatalogBefore, NodesAdvance, OutOfSight, NobodyNamesLater, CatalogAfter, OneCreation;
    if k > 0 {
      LedgerStaysInSight(s, n, m, k - 1, o);
      CatalogsGrow(s, n, m, k);
      var ledger := LedgerAt(s, m);
      assert CatalogAt(s, m, k)
             == CatalogAfter(ledger.transactions[k - 1], ledger, s.profile, CatalogAt(s, m, k - 1), s.codec);
      TransactionStaysInSight(s, n, m, k - 1, |ledger.transactions[k - 1].nodes|,
                              LedgerAdvance(o, ledger, s.profile, CatalogBefore(s, m), s.codec, k - 1).value);
    }
  }

  lemma {:induction false} HistoryStaysInSight(s: Setting, n: nat, m: nat)
    requires m <= n && HistoryAdvance(s, m).Some? && NobodyNamesLater(s, n)
    ensures OutOfSight(HistoryAdvance(s, m).value, CatalogBefore(s, n).Keys, s.codec)
    decreases m
  {
    hide CatalogBefore, LedgerAdvance;
    if m == 0 {
      forall id | id in s.existing ensures !Tracked(s.existing[id], CatalogBefore(s, n).Keys, s.codec) {
        assert !Names(s.existing[id], CatalogBefore(s, n).Keys);
      }
    } else {
      HistoryStaysInSight(s, n, m - 1);
      LedgerStaysInSight(s, n, m - 1, |LedgerAt(s, m - 1).transactions|, HistoryAdvance(s, m - 1).value);
    }
  }

  // ---- Catalogs only grow --------------------------------------------------------------------------

  lemma {:induction false} GrowsInLedger(s: Setting, m: nat, k: nat, all: nat)
    requires k <= all <= |LedgerAt(s, m).transactions|
    ensures CatalogAt(s, m, k).Keys <= CatalogAt(s, m, all).Keys
    decreases all
  {
    hide Interpret, CatalogBefore;
    if k < all { GrowsInLedger(s, m, k, all - 1); }
  }

  lemma {:induction false} CatalogsGrow(s: Setting, n: nat, m: nat, k: nat)
    requires m < n && k <= |LedgerAt(s, m).transactions|
    ensures CatalogAt(s, m, k).Keys <= CatalogBefore(s, n).Keys
    decreases n
  {
    hide ProjectUpTo;
    if m == n - 1 {
      GrowsInLedger(s, m, k, |LedgerAt(s, m).transactions|);
    } else {
      CatalogsGrow(s, n - 1, m, k);
      var all := |LedgerAt(s, n - 1).transactions|;
      assert CatalogAt(s, n - 1, 0) == CatalogBefore(s, n - 1) by { StartsWith(s, n - 1); }
      GrowsInLedger(s, n - 1, 0, all);
    }
  }

  lemma StartsWith(s: Setting, m: nat)
    ensures CatalogAt(s, m, 0) == CatalogBefore(s, m)
  {
  }

  // ---- The condition ---------------------------------------------------------------------------------

  /** Where nobody names a schema before it is registered, the tables accept every ledger. */
  lemma NobodyIsLate(s: Setting, n: nat)
    requires Plausible(s, n) && NobodyNamesLater(s, n)
    ensures !HistoryAdvance(s, n).value.stranded && ReplayOf(s, n).Ok?
  {
    hide HistoryAdvance, NobodyNamesLater, ReplayOf, Inv, CatalogBefore;
    HistoryStaysInSight(s, n, n);
    StuckExactly(s, n);
  }
}
