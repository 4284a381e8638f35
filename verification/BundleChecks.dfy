/** What reading and capturing a bundle ask for, in the numbers and digests of the files themselves. */
module BundleChecks {
  import opened Base
  import opened LedgerModel
  import opened ProjectLedger
  import opened FixtureBundle

  /** A ledger file is read exactly when both digests are the entry's and the ledger in it says what the entry says. */
  lemma LedgerReadsExactly(files: Files, e: FixtureEntry, rules: Rules, ledger: Ledger)
    ensures ReadLedger(files, e, rules) == Ok(ledger) <==>
              && e.ledgerIndex in files.ledgers
              && var compressed := files.ledgers[e.ledgerIndex];
              && rules.digest(compressed) == e.compressedSha256 && rules.decompress(compressed).Some?
              && rules.digest(rules.decompress(compressed).value) == e.contentSha256
              && rules.readLedger(rules.decompress(compressed).value) == Some(ledger)
              && ledger.index == e.ledgerIndex && ledger.hash == e.ledgerHash && ledger.parentHash == e.parentHash
              && ledger.transactionRoot == e.transactionRoot
    ensures ReadLedger(files, e, rules).Err? ==> ReadLedger(files, e, rules) == Err(FIXTURE_BUNDLE_INTEGRITY_FAILED)
  {
  }

  /** An index chunk is read exactly when both digests are the manifest's and it lists its ledgers one by one. */
  lemma ChunkReadsExactly(files: Files, c: Chunk, rules: Rules, entries: seq<FixtureEntry>)
    ensures ReadChunk(files, c, rules) == Ok(entries) <==>
              && (c.first, c.last) in files.indexes
              && var compressed := files.indexes[(c.first, c.last)];
              && rules.digest(compressed) == c.compressedSha256 && rules.decompress(compressed).Some?
              && rules.digest(rules.decompress(compressed).value) == c.contentSha256
              && rules.readEntries(rules.decompress(compressed).value) == Some(entries)
              && |entries| == c.last - c.first + 1
              && forall i :: 0 <= i < |entries| ==> entries[i].ledgerIndex == c.first + i
    ensures ReadChunk(files, c, rules).Err? ==> ReadChunk(files, c, rules) == Err(FIXTURE_BUNDLE_INTEGRITY_FAILED)
  {
  }

  /** A read selects its chunk by the distance to the first ledger, and in it the entry by the distance to the chunk's. */
  lemma FreshlyReadExactly(chunks: seq<Chunk>, lo: nat, hi: nat, files: Files, ledgerIndex: nat, rules: Rules)
    requires IsAligned(chunks, lo, hi) && lo <= ledgerIndex <= hi
    ensures (ledgerIndex - lo) / 4096 < |chunks|
    ensures var c := chunks[(ledgerIndex - lo) / 4096];
            && (ReadChunk(files, c, rules).Err? ==>
                  FreshRead(chunks, lo, hi, files, ledgerIndex, rules) == Err(FIXTURE_BUNDLE_INTEGRITY_FAILED))
            && forall entries :: ReadChunk(files, c, rules) == Ok(entries) ==>
                 && (ledgerIndex - lo) % 4096 < |entries|
                 && FreshRead(chunks, lo, hi, files, ledgerIndex, rules)
                    == ReadLedger(files, entries[(ledgerIndex - lo) % 4096], rules)
  {
    hide ReadLedger, ReadChunk, IsAligned;
    var p := (ledgerIndex - lo) / 4096;
    PositionIsExact(chunks, lo, hi, ledgerIndex, p);
    AlignedAt(chunks, lo, hi, p);
    FailuresAreIntegrity(files, chunks[p], FixtureEntry(0, "", "", "", "", ""), rules);
    if ReadChunk(files, chunks[p], rules).Ok? { ChunkLength(files, chunks[p], rules); }
  }

  /** A manifest's chunks are exactly the runs of 4096 ledgers from the first one, the last run ending with the range. */
  lemma AlignedExactly(chunks: seq<Chunk>, lo: nat, hi: nat)
    requires 1 <= lo <= hi
    ensures IsAligned(chunks, lo, hi) <==>
              && |chunks| == (hi - lo) / 4096 + 1
              && forall p :: 0 <= p < |chunks| ==>
                   && chunks[p].first == lo + 4096 * p
                   && chunks[p].last == (if lo + 4096 * (p + 1) - 1 <= hi then lo + 4096 * (p + 1) - 1 else hi)
  {
    if IsAligned(chunks, lo, hi) {
      AlignedAt(chunks, lo, hi, |chunks| - 1);
      forall p | 0 <= p < |chunks|
        ensures chunks[p].first == lo + 4096 * p
        ensures chunks[p].last == (if lo + 4096 * (p + 1) - 1 <= hi then lo + 4096 * (p + 1) - 1 else hi)
      {
        AlignedAt(chunks, lo, hi, p);
      }
    }
  }

  /** What can be written: at most 64 MiB of content and 32 MiB compressed, a quarter of both for an index chunk. */
  lemma LimitsExactly(ledger: Ledger, entries: seq<FixtureEntry>, rules: Rules)
    ensures LedgerFits(ledger, rules) <==>
              && |rules.printLedger(ledger)| <= 67_108_864
              && |rules.compress(rules.printLedger(ledger))| <= 33_554_432
    ensures EntriesFit(entries, rules) <==>
              && |rules.printEntries(entries)| <= 16_777_216
              && |rules.compress(rules.printEntries(entries))| <= 8_388_608
  {
  }

  /** A range can be captured exactly when its ledgers are served, form one chain from activation and fit the limits. */
  lemma CapturedExactly(source: nat -> Option<Ledger>, profile: Profile, history: nat -> Ledger, hi: nat, rules: Rules)
    requires profile.activationIndex <= hi
    ensures CanCapture(source, profile, history, hi, rules) <==>
              && history(profile.activationIndex).hash == Lower(profile.activationHash)
              && (forall i: nat :: profile.activationIndex <= i <= hi ==>
                    source(i).Some? && IsNext(history, profile.activationIndex, i) && LedgerFits(history(i), rules))
              && (forall i: nat :: profile.activationIndex <= i <= hi && (i - profile.activationIndex) % 4096 == 0 ==>
                    ChunkFits(history, i, hi, rules))
  {
    hide LedgerFits, ChunkFits, CheckpointOf;
    if CanCapture(source, profile, history, hi, rules) {
      forall i: nat | profile.activationIndex <= i <= hi
        ensures source(i).Some? && IsNext(history, profile.activationIndex, i) && LedgerFits(history(i), rules)
      {
        Needed(source, profile, history, hi, rules, i);
        if i > profile.activationIndex { OwnIndexes(source, profile, history, hi, rules, i - 1); }
        NextIsContinuous(profile, history, i);
      }
      Needed(source, profile, history, hi, rules, profile.activationIndex);
      assert IsNext(history, profile.activationIndex, profile.activationIndex);
    } else if && history(profile.activationIndex).hash == Lower(profile.activationHash)
              && forall i: nat :: profile.activationIndex <= i <= hi ==>
                   source(i).Some? && IsNext(history, profile.activationIndex, i) && LedgerFits(history(i), rules)
    {
      forall i: nat | profile.activationIndex <= i <= hi ensures CanWrite(source, profile, history, i, rules) {
        NextIsContinuous(profile, history, i);
        if i > profile.activationIndex { assert IsNext(history, profile.activationIndex, i - 1); }
      }
    }
  }

  lemma {:induction false} OwnIndexes(source: nat -> Option<Ledger>, profile: Profile, history: nat -> Ledger, hi: nat,
                                      rules: Rules, i: nat)
    requires CanCapture(source, profile, history, hi, rules) && profile.activationIndex <= i <= hi
    ensures history(i).index == i
    decreases i
  {
    hide CanCapture, ChunkFits, LedgerFits;
    Needed(source, profile, history, hi, rules, i);
    if i > profile.activationIndex { OwnIndexes(source, profile, history, hi, rules, i - 1); }
  }

  /** The ledger carries its index, and after the first one the hash of its predecessor. */
  predicate IsNext(history: nat -> Ledger, lo: nat, i: nat) {
    history(i).index == i && (i > lo ==> history(i).parentHash == history(i - 1).hash)
  }

  lemma NextIsContinuous(profile: Profile, history: nat -> Ledger, i: nat)
    requires profile.activationIndex <= i && (i > profile.activationIndex ==> history(i - 1).index == i - 1)
    ensures Continuity(profile, CheckpointBefore(history, profile.activationIndex, i), history(i)).None? <==>
              && IsNext(history, profile.activationIndex, i)
              && (i == profile.activationIndex ==> history(i).hash == Lower(profile.activationHash))
  {
  }
}
