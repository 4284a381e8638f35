/**
 Recorded ledgers on disk: a capture loop that groups them into index chunks, the rules a manifest must meet, and a
 source that serves them again through a cache of one chunk.
 */
module FixtureBundle {
  import opened Base
  import opened LedgerModel
  import opened ProjectLedger

  const ENTRIES_PER_CHUNK := 4096
  const MAX_CONTENT := 64 * 1024 * 1024
  const MAX_COMPRESSED := 32 * 1024 * 1024
  const MAX_INDEX_CONTENT := 16 * 1024 * 1024
  const MAX_INDEX_COMPRESSED := 8 * 1024 * 1024

  datatype FixtureError =
    | FIXTURE_BUNDLE_INVALID
    | FIXTURE_BUNDLE_RANGE_INVALID
    | FIXTURE_BUNDLE_INTEGRITY_FAILED
    | FIXTURE_BUNDLE_SOURCE_UNAVAILABLE
    | CONTINUITY_BROKEN

  datatype FixtureEntry = FixtureEntry(
    ledgerIndex: nat,
    ledgerHash: string,
    parentHash: string,
    transactionRoot: string,
    contentSha256: string,
    compressedSha256: string)

  /** A chunk as the manifest lists it: the ledgers first to last, and the digests of its file. */
  datatype Chunk = Chunk(first: nat, last: nat, contentSha256: string, compressedSha256: string)

  /** Canonical printing and strict reading, compression and digests. */
  datatype Rules = Rules(
    printLedger: Ledger -> string,
    readLedger: string -> Option<Ledger>,
    printEntries: seq<FixtureEntry> -> string,
    readEntries: string -> Option<seq<FixtureEntry>>,
    compress: string -> string,
    decompress: string -> Option<string>,
    digest: string -> string)

  predicate SameDigest(rules: Rules, a: string, b: string) {
    rules.digest(a) == rules.digest(b)
  }

  /** What is printed reads back, and digests do not collide. */
  ghost predicate Faithful(rules: Rules) {
    && (forall l :: rules.readLedger(rules.printLedger(l)) == Some(l))
    && (forall es :: rules.readEntries(rules.printEntries(es)) == Some(es))
    && (forall s :: rules.decompress(rules.compress(s)) == Some(s))
    && (forall a, b :: SameDigest(rules, a, b) ==> a == b)
  }

  datatype Files = Files(ledgers: map<nat, string>, indexes: map<(nat, nat), string>)

  // ---- Writing ---------------------------------------------------------------------------------------

  function EntryFor(ledger: Ledger, rules: Rules): FixtureEntry {
    var content := rules.printLedger(ledger);
    FixtureEntry(ledger.index, ledger.hash, ledger.parentHash, ledger.transactionRoot,
                 rules.digest(content), rules.digest(rules.compress(content)))
  }

  function ChunkFor(entries: seq<FixtureEntry>, rules: Rules): Chunk
    requires entries != []
  {
    var content := rules.printEntries(entries);
    Chunk(entries[0].ledgerIndex, entries[|entries| - 1].ledgerIndex,
          rules.digest(content), rules.digest(rules.compress(content)))
  }

  /** The entries of the ledgers lo up to but not including hi. */
  function EntriesOf(history: nat -> Ledger, lo: nat, hi: nat, rules: Rules): seq<FixtureEntry>
    requires lo <= hi
  {
    seq(hi - lo, i requires 0 <= i < hi - lo => EntryFor(history(lo + i), rules))
  }

  // ---- Reading ----------------------------------------------------------------------------------------

  function ReadChunk(files: Files, c: Chunk, rules: Rules): Result<seq<FixtureEntry>, FixtureError> {
    if (c.first, c.last) !in files.indexes then Err(FIXTURE_BUNDLE_INTEGRITY_FAILED)
    else
      var compressed := files.indexes[(c.first, c.last)];
      var content := rules.decompress(compressed);
      if rules.digest(compressed) != c.compressedSha256 || content.None? then Err(FIXTURE_BUNDLE_INTEGRITY_FAILED)
      else if rules.digest(content.value) != c.contentSha256 then Err(FIXTURE_BUNDLE_INTEGRITY_FAILED)
      else
        var entries := rules.readEntries(content.value);
        if entries.None? || |entries.value| != c.last - c.first + 1
           || exists i :: 0 <= i < |entries.value| && entries.value[i].ledgerIndex != c.first + i
        then Err(FIXTURE_BUNDLE_INTEGRITY_FAILED) else Ok(entries.value)
  }

  function ReadLedger(files: Files, e: FixtureEntry, rules: Rules): Result<Ledger, FixtureError> {
    if e.ledgerIndex !in files.ledgers then Err(FIXTURE_BUNDLE_INTEGRITY_FAILED)
    else
      var compressed := files.ledgers[e.ledgerIndex];
      var content := rules.decompress(compressed);
      if rules.digest(compressed) != e.compressedSha256 || content.None? then Err(FIXTURE_BUNDLE_INTEGRITY_FAILED)
      else if rules.digest(content.value) != e.contentSha256 then Err(FIXTURE_BUNDLE_INTEGRITY_FAILED)
      else
        var ledger := rules.readLedger(content.value);
        if ledger.None? || ledger.value.index != e.ledgerIndex || ledger.value.hash != e.ledgerHash
           || ledger.value.parentHash != e.parentHash || ledger.value.transactionRoot != e.transactionRoot
        then Err(FIXTURE_BUNDLE_INTEGRITY_FAILED) else Ok(ledger.value)
  }

  // ---- The manifest -------------------------------------------------------------------------------------

  predicate IsChunkShape(c: Chunk) {
    1 <= c.first <= c.last && c.last - c.first + 1 <= ENTRIES_PER_CHUNK
  }

  /** The rules a manifest's chunks must meet: aligned, contiguous, and covering the exact range. */
  predicate IsAligned(chunks: seq<Chunk>, lo: nat, hi: nat) {
    && chunks != []
    && (forall p :: 0 <= p < |chunks| ==> IsChunkShape(chunks[p]) && Follows(chunks, lo, hi, p))
    && chunks[|chunks| - 1].last == hi
  }

  predicate Follows(chunks: seq<Chunk>, lo: nat, hi: nat, p: nat)
    requires p < |chunks|
  {
    var expected := if p == 0 then lo else chunks[p - 1].last + 1;
    chunks[p].first == expected && chunks[p].last == Min(expected + ENTRIES_PER_CHUNK - 1, hi)
  }

  lemma {:induction false} AlignedAt(chunks: seq<Chunk>, lo: nat, hi: nat, p: nat)
    requires IsAligned(chunks, lo, hi) && p < |chunks|
    ensures chunks[p].first == lo + ENTRIES_PER_CHUNK * p <= hi
    ensures chunks[p].last == Min(lo + ENTRIES_PER_CHUNK * (p + 1) - 1, hi)
    decreases p
  {
    assert IsChunkShape(chunks[p]) && Follows(chunks, lo, hi, p);
    if p > 0 {
      AlignedAt(chunks, lo, hi, p - 1);
      assert chunks[p].first == chunks[p - 1].last + 1 <= hi;
    }
  }

  /** The floor division selects the one chunk that holds a ledger. */
  lemma PositionIsExact(chunks: seq<Chunk>, lo: nat, hi: nat, ledgerIndex: nat, p: nat)
    requires IsAligned(chunks, lo, hi) && lo <= ledgerIndex <= hi
    ensures (ledgerIndex - lo) / ENTRIES_PER_CHUNK < |chunks|
    ensures p < |chunks| ==>
              (chunks[p].first <= ledgerIndex <= chunks[p].last <==> p == (ledgerIndex - lo) / ENTRIES_PER_CHUNK)
  {
    AlignedAt(chunks, lo, hi, |chunks| - 1);
    if p < |chunks| { AlignedAt(chunks, lo, hi, p); }
  }

  // ---- Capturing ------------------------------------------------------------------------------------------

  /** The chunks list exactly the captured ledgers, and the files hold them. */
  ghost predicate IsCapture(chunks: seq<Chunk>, lo: nat, hi: nat, history: nat -> Ledger, rules: Rules) {
    && IsAligned(chunks, lo, hi)
    && (forall i: nat :: lo <= i <= hi ==> history(i).index == i)
    && forall p :: 0 <= p < |chunks| ==> Lists(chunks[p], history, rules)
  }

  predicate Lists(c: Chunk, history: nat -> Ledger, rules: Rules) {
    && c.first <= c.last
    && var entries := EntriesOf(history, c.first, c.last + 1, rules);
    && entries != [] && c.contentSha256 == rules.digest(rules.printEntries(entries))
    && c.compressedSha256 == rules.digest(rules.compress(rules.printEntries(entries)))
  }

  predicate HoldsLedger(files: Files, history: nat -> Ledger, i: nat, rules: Rules) {
    i in files.ledgers && files.ledgers[i] == rules.compress(rules.printLedger(history(i)))
  }

  predicate HoldsChunk(files: Files, history: nat -> Ledger, c: Chunk, rules: Rules) {
    && c.first <= c.last && (c.first, c.last) in files.indexes
    && files.indexes[(c.first, c.last)]
       == rules.compress(rules.printEntries(EntriesOf(history, c.first, c.last + 1, rules)))
  }

  ghost predicate HoldsAll(files: Files, chunks: seq<Chunk>, lo: nat, hi: nat, history: nat -> Ledger, rules: Rules) {
    && (forall i: nat :: lo <= i <= hi ==> HoldsLedger(files, history, i, rules))
    && (forall p :: 0 <= p < |chunks| ==> HoldsChunk(files, history, chunks[p], rules))
  }

  /** The chunks captured before the pending entries are full ones. */
  ghost predicate IsPrefix(chunks: seq<Chunk>, lo: nat, hi: nat, next: nat, history: nat -> Ledger, files: Files,
                           rules: Rules) {
    && (forall p :: 0 <= p < |chunks| ==>
          && IsChunkShape(chunks[p]) && Follows(chunks, lo, hi, p)
          && Lists(chunks[p], history, rules) && HoldsChunk(files, history, chunks[p], rules))
    && next == if chunks == [] then lo else chunks[|chunks| - 1].last + 1
  }

  /** The checkpoint before a ledger of the range, if it is not the first one. */
  function CheckpointBefore(history: nat -> Ledger, lo: nat, next: nat): Option<Checkpoint>
    requires lo <= next
  {
    if next == lo then None else Some(CheckpointOf(history(next - 1)))
  }

  /** The ledgers lo up to but not including next are written, under their own indexes. */
  ghost predicate LedgersWritten(files: Files, history: nat -> Ledger, lo: nat, next: nat, rules: Rules) {
    forall i: nat :: lo <= i < next ==> history(i).index == i && HoldsLedger(files, history, i, rules)
  }

  // ---- What can be captured -------------------------------------------------------------------------------

  predicate LedgerFits(ledger: Ledger, rules: Rules) {
    var content := rules.printLedger(ledger);
    |content| <= MAX_CONTENT && |rules.compress(content)| <= MAX_COMPRESSED
  }

  predicate EntriesFit(entries: seq<FixtureEntry>, rules: Rules) {
    var content := rules.printEntries(entries);
    |content| <= MAX_INDEX_CONTENT && |rules.compress(content)| <= MAX_INDEX_COMPRESSED
  }

  /** The source answers for this ledger, and it continues the one before and fits its limits. */
  predicate CanWrite(source: nat -> Option<Ledger>, profile: Profile, history: nat -> Ledger, i: nat, rules: Rules) {
    && profile.activationIndex <= i && source(i).Some?
    && Continuity(profile, CheckpointBefore(history, profile.activationIndex, i), history(i)).None?
    && LedgerFits(history(i), rules)
  }

  predicate IsChunkStart(lo: nat, i: nat) {
    lo <= i && (i - lo) % ENTRIES_PER_CHUNK == 0
  }

  /** The entries of the chunk that starts at ledger i fit their limits. */
  predicate ChunkFits(history: nat -> Ledger, i: nat, hi: nat, rules: Rules)
    requires i <= hi
  {
    EntriesFit(EntriesOf(history, i, Min(i + ENTRIES_PER_CHUNK - 1, hi) + 1, rules), rules)
  }

  /** All ledgers before n can be written, and all index chunks that start before next. */
  ghost predicate CanCaptureTo(source: nat -> Option<Ledger>, profile: Profile, history: nat -> Ledger, hi: nat,
                               rules: Rules, n: nat, next: nat)
  {
    && (forall i: nat :: profile.activationIndex <= i < n ==> CanWrite(source, profile, history, i, rules))
    && (forall i: nat :: i < next && i <= hi && IsChunkStart(profile.activationIndex, i) ==> ChunkFits(history, i, hi, rules))
  }

  /** The whole range can be captured. */
  ghost predicate CanCapture(source: nat -> Option<Ledger>, profile: Profile, history: nat -> Ledger, hi: nat, rules: Rules)
  {
    CanCaptureTo(source, profile, history, hi, rules, hi + 1, hi + 1)
  }

  /** The chunk that starts at `next` can be written too, and no other one starts before its end. */
  lemma OneMoreChunk(source: nat -> Option<Ledger>, profile: Profile, history: nat -> Ledger, hi: nat, rules: Rules,
                     n: nat, next: nat)
    requires CanCaptureTo(source, profile, history, hi, rules, n, next)
    requires next <= hi && IsChunkStart(profile.activationIndex, next) && ChunkFits(history, next, hi, rules)
    ensures CanCaptureTo(source, profile, history, hi, rules, n, Min(next + ENTRIES_PER_CHUNK - 1, hi) + 1)
    ensures IsChunkStart(profile.activationIndex, next + ENTRIES_PER_CHUNK)
  {
    hide CanWrite, ChunkFits;
  }

  lemma Needed(source: nat -> Option<Ledger>, profile: Profile, history: nat -> Ledger, hi: nat, rules: Rules, i: nat)
    requires CanCapture(source, profile, history, hi, rules) && profile.activationIndex <= i <= hi
    ensures CanWrite(source, profile, history, i, rules)
    ensures IsChunkStart(profile.activationIndex, i) ==> ChunkFits(history, i, hi, rules)
  {
    hide CanWrite, ChunkFits, IsChunkStart;
  }

  lemma OneMoreLedger(source: nat -> Option<Ledger>, profile: Profile, history: nat -> Ledger, hi: nat, rules: Rules,
                      n: nat, next: nat)
    requires CanCaptureTo(source, profile, history, hi, rules, n, next) && CanWrite(source, profile, history, n, rules)
    ensures CanCaptureTo(source, profile, history, hi, rules, n + 1, next)
  {
    hide CanWrite, ChunkFits, IsChunkStart;
  }

  /** No file of a later ledger or chunk exists yet. */
  predicate FilesBelow(files: Files, n: nat, next: nat) {
    (forall i :: i in files.ledgers ==> i < n) && (forall c :: c in files.indexes ==> c.0 < next)
  }

  class FixtureCapture {
    const rules: Rules
    var files: Files
    var chunks: seq<Chunk>

    constructor (rules: Rules)
      ensures this.rules == rules && files == Files(map[], map[]) && chunks == []
    {
      this.rules, files, chunks := rules, Files(map[], map[]), [];
    }

    method WriteLedger(ledger: Ledger) returns (r: Result<FixtureEntry, FixtureError>)
      modifies this`files
      ensures r.Ok? <==> LedgerFits(ledger, rules) && ledger.index !in old(files).ledgers
      ensures r.Ok? ==> r.value == EntryFor(ledger, rules)
                        && files == old(files).(ledgers := old(files).ledgers[ledger.index := rules.compress(rules.printLedger(ledger))])
    {
      var content := rules.printLedger(ledger);
      var compressed := rules.compress(content);
      if |content| > MAX_CONTENT || |compressed| > MAX_COMPRESSED { return Err(FIXTURE_BUNDLE_INVALID); }
      if ledger.index in files.ledgers { return Err(FIXTURE_BUNDLE_SOURCE_UNAVAILABLE); }
      files := files.(ledgers := files.ledgers[ledger.index := compressed]);
      return Ok(EntryFor(ledger, rules));
    }

    method WriteIndexChunk(entries: seq<FixtureEntry>) returns (r: Result<Chunk, FixtureError>)
      requires entries != []
      modifies this`files
      ensures var c := ChunkFor(entries, rules);
              r.Ok? <==> |entries| <= ENTRIES_PER_CHUNK && EntriesFit(entries, rules) && (c.first, c.last) !in old(files).indexes
      ensures r.Ok? ==> |entries| <= ENTRIES_PER_CHUNK && r.value == ChunkFor(entries, rules)
                        && files == old(files).(indexes := old(files).indexes[(r.value.first, r.value.last) :=
                                                                                rules.compress(rules.printEntries(entries))])
    {
      if |entries| > ENTRIES_PER_CHUNK { return Err(FIXTURE_BUNDLE_INVALID); }
      var content := rules.printEntries(entries);
      var compressed := rules.compress(content);
      if |content| > MAX_INDEX_CONTENT || |compressed| > MAX_INDEX_COMPRESSED { return Err(FIXTURE_BUNDLE_INVALID); }
      var c := ChunkFor(entries, rules);
      if (c.first, c.last) in files.indexes { return Err(FIXTURE_BUNDLE_SOURCE_UNAVAILABLE); }
      files := files.(indexes := files.indexes[(c.first, c.last) := compressed]);
      return Ok(c);
    }

    /** The ledgers before n are captured: full chunks before `next`, and the pending entries from there. */
    ghost predicate Capturing(source: nat -> Option<Ledger>, profile: Profile, hi: nat, history: nat -> Ledger, n: nat,
                              next: nat, pending: seq<FixtureEntry>)
      reads this
    {
      var lo := profile.activationIndex;
      && IsPrefix(chunks, lo, hi, next, history, files, rules)
      && lo <= next <= n <= hi + 1 && pending == EntriesOf(history, next, n, rules)
      && LedgersWritten(files, history, lo, n, rules)
      && CanCaptureTo(source, profile, history, hi, rules, n, next)
      && FilesBelow(files, n, next) && (next <= hi ==> IsChunkStart(lo, next))
    }

    /** One ledger: asked for, checked against the one before, and written. */
    method CaptureLedger(source: nat -> Option<Ledger>, profile: Profile, hi: nat, ghost history: nat -> Ledger, n: nat,
                         ghost next: nat, pending: seq<FixtureEntry>, previous: Option<Checkpoint>)
      returns (r: Result<(Ledger, FixtureEntry), FixtureError>)
      requires Capturing(source, profile, hi, history, n, next, pending) && n <= hi
      requires previous == CheckpointBefore(history, profile.activationIndex, n)
      requires forall i: nat :: source(i).Some? ==> source(i).value == history(i)
      modifies this`files
      ensures r.Ok? ==> r.value.0 == history(n)
                        && Capturing(source, profile, hi, history, n + 1, next, pending + [r.value.1])
      ensures r.Err? ==> !CanCapture(source, profile, history, hi, rules)
    {
      hide Continuity, EntryFor, IsPrefix, EntriesOf, LedgersWritten, CanCaptureTo, LedgerFits, EntriesFit, IsChunkStart,
           FilesBelow, CanCapture;
      if CanCapture(source, profile, history, hi, rules) { Needed(source, profile, history, hi, rules, n); }
      var answer := source(n);
      if answer.None? { return Err(FIXTURE_BUNDLE_SOURCE_UNAVAILABLE); }
      var ledger := answer.value;
      if Continuity(profile, previous, ledger).Some? { return Err(CONTINUITY_BROKEN); }
      ContinuousIndex(profile, history, ledger, n, files, rules);
      NewLedgerFile(files, n, next);
      ghost var before := files;
      var written := WriteLedger(ledger);
      if written.Err? { return Err(written.error); }
      KeepsChunks(chunks, profile.activationIndex, hi, next, history, before, files, rules);
      LedgerWritten(before, files, history, profile.activationIndex, n, rules);
      OneMoreEntry(history, next, n, rules);
      OneMoreLedger(source, profile, history, hi, rules, n, next);
      LedgerFileAdded(before, files, n, next);
      return Ok((ledger, written.value));
    }

    /** The pending entries fill a chunk, or are the last. */
    method CloseChunk(ghost source: nat -> Option<Ledger>, ghost profile: Profile, ghost hi: nat,
                      ghost history: nat -> Ledger, ghost n: nat, ghost next: nat, pending: seq<FixtureEntry>)
      returns (r: Result<(), FixtureError>)
      requires Capturing(source, profile, hi, history, n, next, pending) && 1 <= profile.activationIndex
      requires next < n <= next + ENTRIES_PER_CHUNK && (n == next + ENTRIES_PER_CHUNK || n == hi + 1)
      modifies this
      ensures r.Ok? ==> Capturing(source, profile, hi, history, n, n, [])
      ensures r.Err? ==> !CanCapture(source, profile, history, hi, rules)
    {
      hide ChunkFor, IsPrefix, EntriesOf, LedgersWritten, CanCaptureTo, EntriesFit, IsChunkStart, FilesBelow, CanCapture;
      if CanCapture(source, profile, history, hi, rules) { Needed(source, profile, history, hi, rules, next); }
      OwnIndex(files, history, profile.activationIndex, n, next, rules);
      NewChunkFile(files, history, n - 1, next, rules);
      OneMoreEntry(history, next, n - 1, rules);
      ghost var before := files;
      var chunk := WriteIndexChunk(pending);
      if chunk.Err? { return Err(chunk.error); }
      OneMoreChunk(source, profile, history, hi, rules, n, next);
      ChunkFileAdded(before, files, n, next, (chunk.value.first, chunk.value.last));
      KeepsLedgers(before, files, history, profile.activationIndex, n, rules);
      AddsChunk(chunks, profile.activationIndex, hi, next, n - 1, history, before, files, chunk.value, rules);
      chunks := chunks + [chunk.value];
      NoEntries(history, n, rules);
      return Ok(());
    }

    /** The capture loop; `source` answers None where the quorum could not agree. */
    method Capture(source: nat -> Option<Ledger>, profile: Profile, hi: nat, ghost history: nat -> Ledger)
      returns (r: Result<(), FixtureError>)
      requires files == Files(map[], map[]) && chunks == []
      requires 1 <= profile.activationIndex <= hi
      requires forall i: nat :: source(i).Some? ==> source(i).value == history(i)
      modifies this
      ensures r.Ok? <==> CanCapture(source, profile, history, hi, rules)
      ensures r.Ok? ==> IsCapture(chunks, profile.activationIndex, hi, history, rules)
                        && HoldsAll(files, chunks, profile.activationIndex, hi, history, rules)
    {
      hide EntriesOf, IsPrefix, LedgersWritten, CanCaptureTo, FilesBelow, IsChunkStart, CheckpointOf;
      var lo := profile.activationIndex;
      StartsEmpty(lo, hi, history, files, rules);
      NothingYet(source, profile, history, hi, rules, files);
      var pending: seq<FixtureEntry> := [];
      var previous: Option<Checkpoint> := None;
      ghost var next: nat := lo;
      for ledgerIndex: nat := lo to hi + 1
        invariant Capturing(source, profile, hi, history, ledgerIndex, next, pending)
        invariant |pending| == ledgerIndex - next < ENTRIES_PER_CHUNK
        invariant if ledgerIndex <= hi then next <= hi else next == hi + 1
        invariant previous == CheckpointBefore(history, lo, ledgerIndex)
      {
        var captured := CaptureLedger(source, profile, hi, history, ledgerIndex, next, pending, previous);
        if captured.Err? { return Err(captured.error); }
        pending := pending + [captured.value.1];
        if |pending| == ENTRIES_PER_CHUNK || ledgerIndex == hi {
          var closed := CloseChunk(source, profile, hi, history, ledgerIndex + 1, next, pending);
          if closed.Err? { return Err(closed.error); }
          pending := [];
          next := ledgerIndex + 1;
        }
        previous := Some(CheckpointOf(captured.value.0));
      }
      Completes(chunks, lo, hi, history, files, rules);
      return Ok(());
    }
  }

  lemma OwnIndex(files: Files, history: nat -> Ledger, lo: nat, n: nat, i: nat, rules: Rules)
    requires LedgersWritten(files, history, lo, n, rules) && lo <= i < n
    ensures history(i).index == i
  {
  }

  lemma NothingYet(source: nat -> Option<Ledger>, profile: Profile, history: nat -> Ledger, hi: nat, rules: Rules,
                   files: Files)
    requires files == Files(map[], map[])
    ensures CanCaptureTo(source, profile, history, hi, rules, profile.activationIndex, profile.activationIndex)
    ensures FilesBelow(files, profile.activationIndex, profile.activationIndex)
    ensures IsChunkStart(profile.activationIndex, profile.activationIndex)
  {
  }

  lemma NewLedgerFile(files: Files, n: nat, next: nat)
    requires FilesBelow(files, n, next)
    ensures n !in files.ledgers
  {
  }

  lemma LedgerFileAdded(before: Files, after: Files, n: nat, next: nat)
    requires FilesBelow(before, n, next) && after.indexes == before.indexes
    requires after.ledgers.Keys == before.ledgers.Keys + {n}
    ensures FilesBelow(after, n + 1, next)
  {
  }

  lemma ChunkFileAdded(before: Files, after: Files, n: nat, next: nat, key: (nat, nat))
    requires FilesBelow(before, n, next) && after.ledgers == before.ledgers && key.0 == next < n
    requires after.indexes.Keys == before.indexes.Keys + {key}
    ensures FilesBelow(after, n, n)
  {
  }

  /** The pending entries make the chunk that starts at `next`, whose file does not exist yet. */
  lemma NewChunkFile(files: Files, history: nat -> Ledger, last: nat, next: nat, rules: Rules)
    requires FilesBelow(files, last + 1, next) && next <= last && history(next).index == next
    ensures var entries := EntriesOf(history, next, last + 1, rules);
            && entries != [] && ChunkFor(entries, rules).first == next
            && (ChunkFor(entries, rules).first, ChunkFor(entries, rules).last) !in files.indexes
  {
    var entries := EntriesOf(history, next, last + 1, rules);
    assert entries[0] == EntryFor(history(next), rules);
  }

  lemma ContinuousIndex(profile: Profile, history: nat -> Ledger, ledger: Ledger, ledgerIndex: nat, files: Files,
                        rules: Rules)
    requires ledgerIndex >= profile.activationIndex
    requires Continuity(profile, CheckpointBefore(history, profile.activationIndex, ledgerIndex), ledger).None?
    requires LedgersWritten(files, history, profile.activationIndex, ledgerIndex, rules)
    ensures ledger.index == ledgerIndex
  {
  }

  lemma StartsEmpty(lo: nat, hi: nat, history: nat -> Ledger, files: Files, rules: Rules)
    ensures IsPrefix([], lo, hi, lo, history, files, rules) && EntriesOf(history, lo, lo, rules) == []
    ensures LedgersWritten(files, history, lo, lo, rules)
  {
  }

  lemma NoEntries(history: nat -> Ledger, next: nat, rules: Rules)
    ensures EntriesOf(history, next, next, rules) == []
  {
  }

  lemma OneMoreEntry(history: nat -> Ledger, lo: nat, hi: nat, rules: Rules)
    requires lo <= hi
    ensures EntriesOf(history, lo, hi + 1, rules) == EntriesOf(history, lo, hi, rules) + [EntryFor(history(hi), rules)]
    ensures |EntriesOf(history, lo, hi + 1, rules)| == hi + 1 - lo
  {
  }

  lemma LedgerWritten(before: Files, after: Files, history: nat -> Ledger, lo: nat, i: nat, rules: Rules)
    requires LedgersWritten(before, history, lo, i, rules) && history(i).index == i && lo <= i
    requires after.ledgers == before.ledgers[i := rules.compress(rules.printLedger(history(i)))]
    ensures LedgersWritten(after, history, lo, i + 1, rules)
  {
    forall k: nat | lo <= k < i + 1 ensures history(k).index == k && HoldsLedger(after, history, k, rules) {
      if k < i { assert HoldsLedger(before, history, k, rules); }
    }
  }

  lemma KeepsLedgers(before: Files, after: Files, history: nat -> Ledger, lo: nat, next: nat, rules: Rules)
    requires LedgersWritten(before, history, lo, next, rules) && after.ledgers == before.ledgers
    ensures LedgersWritten(after, history, lo, next, rules)
  {
    forall k: nat | lo <= k < next ensures history(k).index == k && HoldsLedger(after, history, k, rules) {
      assert HoldsLedger(before, history, k, rules);
    }
  }

  lemma KeepsChunks(chunks: seq<Chunk>, lo: nat, hi: nat, next: nat, history: nat -> Ledger,
                    before: Files, after: Files, rules: Rules)
    requires IsPrefix(chunks, lo, hi, next, history, before, rules) && after.indexes == before.indexes
    ensures IsPrefix(chunks, lo, hi, next, history, after, rules)
  {
    hide Lists, Follows, IsChunkShape, EntriesOf;
    forall p | 0 <= p < |chunks| ensures HoldsChunk(after, history, chunks[p], rules) {
      assert HoldsChunk(before, history, chunks[p], rules);
    }
  }

  lemma Completes(chunks: seq<Chunk>, lo: nat, hi: nat, history: nat -> Ledger, files: Files, rules: Rules)
    requires IsPrefix(chunks, lo, hi, hi + 1, history, files, rules) && lo <= hi
    requires LedgersWritten(files, history, lo, hi + 1, rules)
    ensures IsCapture(chunks, lo, hi, history, rules) && HoldsAll(files, chunks, lo, hi, history, rules)
  {
    hide Lists, HoldsChunk, HoldsLedger, Follows, IsChunkShape;
  }

  /** The chunk written from the pending entries. */
  lemma NewChunk(history: nat -> Ledger, next: nat, last: nat, files: Files, c: Chunk, rules: Rules)
    requires 1 <= next <= last && last - next < ENTRIES_PER_CHUNK
    requires history(next).index == next && history(last).index == last
    requires |EntriesOf(history, next, last + 1, rules)| > 0
    requires c == ChunkFor(EntriesOf(history, next, last + 1, rules), rules)
    requires (c.first, c.last) in files.indexes
    requires files.indexes[(c.first, c.last)] == rules.compress(rules.printEntries(EntriesOf(history, next, last + 1, rules)))
    ensures c.first == next && c.last == last && IsChunkShape(c)
    ensures Lists(c, history, rules) && HoldsChunk(files, history, c, rules)
  {
    var entries := EntriesOf(history, next, last + 1, rules);
    assert entries[0] == EntryFor(history(next), rules) && entries[|entries| - 1] == EntryFor(history(last), rules);
  }

  lemma AddsChunk(chunks: seq<Chunk>, lo: nat, hi: nat, next: nat, last: nat, history: nat -> Ledger,
                  before: Files, after: Files, c: Chunk, rules: Rules)
    requires IsPrefix(chunks, lo, hi, next, history, before, rules)
    requires 1 <= lo <= next <= last <= hi && last - next < ENTRIES_PER_CHUNK
    requires last - next == ENTRIES_PER_CHUNK - 1 || last == hi
    requires LedgersWritten(after, history, lo, last + 1, rules)
    requires |EntriesOf(history, next, last + 1, rules)| > 0
    requires var entries := EntriesOf(history, next, last + 1, rules);
             && c == ChunkFor(entries, rules)
             && after == before.(indexes := before.indexes[(c.first, c.last) := rules.compress(rules.printEntries(entries))])
    ensures IsPrefix(chunks + [c], lo, hi, last + 1, history, after, rules)
  {
    hide EntriesOf, ChunkFor, Lists, HoldsLedger, HoldsChunk, IsChunkShape, Follows;
    assert history(next).index == next && history(last).index == last;
    NewChunk(history, next, last, after, c, rules);
    NewChunkFollows(chunks, lo, hi, next, c);
    hide LedgersWritten;
    var all := chunks + [c];
    forall p | 0 <= p < |all|
      ensures IsChunkShape(all[p]) && Follows(all, lo, hi, p)
      ensures Lists(all[p], history, rules) && HoldsChunk(after, history, all[p], rules)
    {
      if p < |chunks| {
        OldChunkStays(chunks, lo, hi, next, history, before, after, c, rules, p);
      }
    }
  }

  lemma NewChunkFollows(chunks: seq<Chunk>, lo: nat, hi: nat, next: nat, c: Chunk)
    requires next == if chunks == [] then lo else chunks[|chunks| - 1].last + 1
    requires c.first == next && c.last == Min(next + ENTRIES_PER_CHUNK - 1, hi)
    ensures Follows(chunks + [c], lo, hi, |chunks|)
  {
  }

  lemma OldChunkStays(chunks: seq<Chunk>, lo: nat, hi: nat, next: nat, history: nat -> Ledger,
                      before: Files, after: Files, c: Chunk, rules: Rules, p: nat)
    requires IsPrefix(chunks, lo, hi, next, history, before, rules) && p < |chunks| && c.first == next
    requires forall k :: k in before.indexes && k != (c.first, c.last) ==> k in after.indexes && after.indexes[k] == before.indexes[k]
    ensures IsChunkShape(chunks[p]) && Follows(chunks + [c], lo, hi, p)
    ensures Lists(chunks[p], history, rules) && HoldsChunk(after, history, chunks[p], rules)
  {
    hide EntriesOf, Lists;
    ChunksEndBefore(chunks, lo, hi, next, history, before, rules, p);
    assert Follows(chunks, lo, hi, p) && HoldsChunk(before, history, chunks[p], rules);
  }

  lemma {:induction false} ChunksEndBefore(chunks: seq<Chunk>, lo: nat, hi: nat, next: nat, history: nat -> Ledger,
                                           files: Files, rules: Rules, p: nat)
    requires IsPrefix(chunks, lo, hi, next, history, files, rules) && p < |chunks|
    ensures chunks[p].first <= chunks[p].last < next
    decreases |chunks| - p
  {
    hide EntriesOf, Lists, HoldsChunk;
    assert IsChunkShape(chunks[p]);
    if p < |chunks| - 1 {
      ChunksEndBefore(chunks, lo, hi, next, history, files, rules, p + 1);
      assert Follows(chunks, lo, hi, p + 1);
    }
  }

  // ---- Serving ------------------------------------------------------------------------------------------------

  /** A read without any cache. */
  function FreshRead(chunks: seq<Chunk>, lo: nat, hi: nat, files: Files, ledgerIndex: nat, rules: Rules)
    : Result<Ledger, FixtureError>
  {
    if ledgerIndex < lo || ledgerIndex > hi then Err(FIXTURE_BUNDLE_RANGE_INVALID)
    else
      var p := (ledgerIndex - lo) / ENTRIES_PER_CHUNK;
      if p >= |chunks| || ledgerIndex < chunks[p].first || ledgerIndex > chunks[p].last
      then Err(FIXTURE_BUNDLE_INTEGRITY_FAILED)
      else
        match ReadChunk(files, chunks[p], rules)
        case Err(e) => Err(e)
        case Ok(entries) => ReadLedger(files, entries[ledgerIndex - chunks[p].first], rules)
  }

  /** Whatever happened to the files meanwhile, a chunk that reads at all reads alike. */
  lemma ChunkReadsAlike(a: Files, b: Files, c: Chunk, d: Chunk, rules: Rules)
    requires Faithful(rules) && c.compressedSha256 == d.compressedSha256
    requires ReadChunk(a, c, rules).Ok? && ReadChunk(b, d, rules).Ok?
    ensures ReadChunk(a, c, rules) == ReadChunk(b, d, rules)
  {
    assert SameDigest(rules, a.indexes[(c.first, c.last)], b.indexes[(d.first, d.last)]);
  }

  /** Whatever cannot be read is reported as one thing. */
  lemma FailuresAreIntegrity(files: Files, c: Chunk, e: FixtureEntry, rules: Rules)
    ensures ReadChunk(files, c, rules).Err? ==> ReadChunk(files, c, rules) == Err(FIXTURE_BUNDLE_INTEGRITY_FAILED)
    ensures ReadLedger(files, e, rules).Err? ==> ReadLedger(files, e, rules) == Err(FIXTURE_BUNDLE_INTEGRITY_FAILED)
  {
  }

  lemma ChunkLength(files: Files, c: Chunk, rules: Rules)
    requires ReadChunk(files, c, rules).Ok?
    ensures |ReadChunk(files, c, rules).value| == c.last - c.first + 1
  {
  }

  class LedgerFixtureBundleSource {
    const rules: Rules
    const chunks: seq<Chunk>
    const lo: nat
    const hi: nat
    var cached: Option<(Chunk, seq<FixtureEntry>)>
    ghost var cachedFrom: Files

    constructor (chunks: seq<Chunk>, lo: nat, hi: nat, rules: Rules)
      requires Faithful(rules) && IsAligned(chunks, lo, hi)
      ensures Valid() && cached.None?
      ensures this.chunks == chunks && this.lo == lo && this.hi == hi && this.rules == rules
    {
      this.chunks, this.lo, this.hi, this.rules := chunks, lo, hi, rules;
      cached, cachedFrom := None, Files(map[], map[]);
    }

    /** The cached entries were read, with all checks, from the files as they were at some earlier time. */
    ghost predicate Valid()
      reads this
    {
      && Faithful(rules) && IsAligned(chunks, lo, hi)
      && (cached.Some? ==> cached.value.0 in chunks && ReadChunk(cachedFrom, cached.value.0, rules) == Ok(cached.value.1))
    }

    /** One read; `files` is the directory as it is now, which may differ from one call to the next. */
    method GetLedger(files: Files, ledgerIndex: nat) returns (r: Result<Ledger, FixtureError>)
      requires Valid()
      modifies this
      ensures Valid()
      ensures ledgerIndex < lo || ledgerIndex > hi ==> r == Err(FIXTURE_BUNDLE_RANGE_INVALID)
      ensures lo <= ledgerIndex <= hi && r.Err? ==> r == Err(FIXTURE_BUNDLE_INTEGRITY_FAILED)
      ensures FreshRead(chunks, lo, hi, files, ledgerIndex, rules).Ok? ==>
                r == FreshRead(chunks, lo, hi, files, ledgerIndex, rules)
      ensures r.Ok? ==> exists index: Files :: ServedFrom(chunks, lo, hi, index, files, ledgerIndex, rules, r.value)
    {
      hide Faithful, ReadLedger, ReadChunk, IsAligned;
      if ledgerIndex < lo || ledgerIndex > hi { return Err(FIXTURE_BUNDLE_RANGE_INVALID); }
      var p := (ledgerIndex - lo) / ENTRIES_PER_CHUNK;
      PositionIsExact(chunks, lo, hi, ledgerIndex, p);
      var chunk := chunks[p];
      if cached.None? || cached.value.0.first != chunk.first || cached.value.0.last != chunk.last {
        var entries := ReadChunk(files, chunk, rules);
        if entries.Err? {
          FailuresAreIntegrity(files, chunk, FixtureEntry(0, "", "", "", "", ""), rules);
          return Err(entries.error);
        }
        cached, cachedFrom := Some((chunk, entries.value)), files;
      }
      SameDescriptor(chunks, lo, hi, cached.value.0, chunk);
      if ReadChunk(files, chunk, rules).Ok? { ChunkReadsAlike(files, cachedFrom, chunk, chunk, rules); }
      ChunkLength(cachedFrom, chunk, rules);
      var entry := cached.value.1[ledgerIndex - chunk.first];
      r := ReadLedger(files, entry, rules);
      FailuresAreIntegrity(files, chunk, entry, rules);
      assert r.Ok? ==> ServedFrom(chunks, lo, hi, cachedFrom, files, ledgerIndex, rules, r.value);
    }
  }

  /** In an aligned manifest the range of a chunk identifies it. */
  lemma SameDescriptor(chunks: seq<Chunk>, lo: nat, hi: nat, a: Chunk, b: Chunk)
    requires IsAligned(chunks, lo, hi) && a in chunks && b in chunks && a.first == b.first
    ensures a == b
  {
    hide IsAligned;
    var i :| 0 <= i < |chunks| && chunks[i] == a;
    var j :| 0 <= j < |chunks| && chunks[j] == b;
    AlignedAt(chunks, lo, hi, i);
    AlignedAt(chunks, lo, hi, j);
  }

  /** The answer comes from an entry of an index chunk as it was at some time, and the ledger file as it is now. */
  predicate ServedFrom(chunks: seq<Chunk>, lo: nat, hi: nat, index: Files, files: Files, ledgerIndex: nat, rules:
                       Rules, ledger: Ledger) {
    && lo <= ledgerIndex <= hi
    && var p := (ledgerIndex - lo) / ENTRIES_PER_CHUNK;
    && p < |chunks| && chunks[p].first <= ledgerIndex <= chunks[p].last
    && ReadChunk(index, chunks[p], rules).Ok?
    && ReadLedger(files, ReadChunk(index, chunks[p], rules).value[ledgerIndex - chunks[p].first], rules) == Ok(ledger)
  }

  lemma ReadChunkIsCaptured(c: Chunk, history: nat -> Ledger, index: Files, rules: Rules)
    requires Faithful(rules) && Lists(c, history, rules) && ReadChunk(index, c, rules).Ok?
    ensures ReadChunk(index, c, rules).value == EntriesOf(history, c.first, c.last + 1, rules)
  {
    var captured := EntriesOf(history, c.first, c.last + 1, rules);
    assert SameDigest(rules, index.indexes[(c.first, c.last)], rules.compress(rules.printEntries(captured)));
  }

  lemma ReadLedgerIsCaptured(ledger: Ledger, files: Files, rules: Rules)
    requires Faithful(rules) && ReadLedger(files, EntryFor(ledger, rules), rules).Ok?
    ensures ReadLedger(files, EntryFor(ledger, rules), rules) == Ok(ledger)
  {
    assert SameDigest(rules, files.ledgers[ledger.index], rules.compress(rules.printLedger(ledger)));
  }

  /**
   Whatever is served is the captured ledger: the digests in the manifest leave no other answer, even when files were
   replaced between the calls.
   */
  lemma ServedIsCaptured(chunks: seq<Chunk>, lo: nat, hi: nat, history: nat -> Ledger,
                         index: Files, files: Files, ledgerIndex: nat, rules: Rules, ledger: Ledger)
    requires Faithful(rules) && IsCapture(chunks, lo, hi, history, rules)
    requires ServedFrom(chunks, lo, hi, index, files, ledgerIndex, rules, ledger)
    ensures ledger == history(ledgerIndex)
  {
    hide Faithful, IsAligned, ReadChunk, ReadLedger, EntryFor;
    var c := chunks[(ledgerIndex - lo) / ENTRIES_PER_CHUNK];
    assert Lists(c, history, rules);
    ReadChunkIsCaptured(c, history, index, rules);
    assert EntriesOf(history, c.first, c.last + 1, rules)[ledgerIndex - c.first] == EntryFor(history(ledgerIndex), rules);
    ReadLedgerIsCaptured(history(ledgerIndex), files, rules);
  }

  lemma CapturedChunkReads(c: Chunk, history: nat -> Ledger, files: Files, rules: Rules)
    requires Faithful(rules) && Lists(c, history, rules) && HoldsChunk(files, history, c, rules)
    requires forall i: nat :: c.first <= i <= c.last ==> history(i).index == i
    ensures ReadChunk(files, c, rules) == Ok(EntriesOf(history, c.first, c.last + 1, rules))
  {
    var captured := EntriesOf(history, c.first, c.last + 1, rules);
    forall i | 0 <= i < |captured| ensures captured[i].ledgerIndex == c.first + i {
      assert captured[i] == EntryFor(history(c.first + i), rules);
    }
  }

  lemma CapturedLedgerReads(history: nat -> Ledger, files: Files, i: nat, rules: Rules)
    requires Faithful(rules) && HoldsLedger(files, history, i, rules) && history(i).index == i
    ensures ReadLedger(files, EntryFor(history(i), rules), rules) == Ok(history(i))
  {
  }

  /** From the files that the capture wrote, every ledger of the range is served. */
  lemma CapturedIsServed(chunks: seq<Chunk>, lo: nat, hi: nat, history: nat -> Ledger, files: Files, ledgerIndex: nat,
                         rules: Rules)
    requires Faithful(rules) && IsCapture(chunks, lo, hi, history, rules)
    requires HoldsAll(files, chunks, lo, hi, history, rules) && lo <= ledgerIndex <= hi
    ensures FreshRead(chunks, lo, hi, files, ledgerIndex, rules) == Ok(history(ledgerIndex))
  {
    hide Faithful, IsAligned, ReadChunk, ReadLedger, EntryFor, HoldsLedger, HoldsChunk;
    var p := (ledgerIndex - lo) / ENTRIES_PER_CHUNK;
    PositionIsExact(chunks, lo, hi, ledgerIndex, p);
    AlignedAt(chunks, lo, hi, p);
    var c := chunks[p];
    assert Lists(c, history, rules) && HoldsChunk(files, history, c, rules);
    CapturedChunkReads(c, history, files, rules);
    assert EntriesOf(history, c.first, c.last + 1, rules)[ledgerIndex - c.first] == EntryFor(history(ledgerIndex), rules);
    CapturedLedgerReads(history, files, ledgerIndex, rules);
  }
}
