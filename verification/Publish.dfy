/**
 Publishing a captured bundle file by file into a directory of its own, with the manifest as the last file, and
 taking everything back when a step fails. Any step, of the publication or of the rollback, may fail, and a step that
 is reported as failed may have taken effect all the same.
 */
module Publish {
  import opened Base

  /** What can exist at the destination. */
  datatype Path =
    | Output
    | IndexesDir
    | LedgersDir
    | IndexFile(position: nat)
    | LedgerFile(ledgerIndex: nat)
    | ManifestFile

  function ParentOf(p: Path): Option<Path> {
    match p
    case Output => None
    case IndexesDir => Some(Output)
    case LedgersDir => Some(Output)
    case IndexFile(_) => Some(IndexesDir)
    case LedgerFile(_) => Some(LedgersDir)
    case ManifestFile => Some(Output)
  }

  /** The ledgers and the number of index chunks of a bundle. */
  datatype Bundle = Bundle(lo: nat, hi: nat, chunks: nat)

  function IndexFiles(n: nat): set<Path> {
    set p: nat | 0 <= p < n :: IndexFile(p)
  }

  function LedgerFiles(lo: nat, next: nat): set<Path> {
    set i: nat | lo <= i < next :: LedgerFile(i)
  }

  function Evidence(b: Bundle): set<Path> {
    IndexFiles(b.chunks) + LedgerFiles(b.lo, b.hi + 1)
  }

  function Everything(b: Bundle): set<Path> {
    {Output, IndexesDir, LedgersDir, ManifestFile} + Evidence(b)
  }

  /** The manifest is the completion marker: where it stands, all evidence stands too. */
  predicate IsComplete(present: set<Path>, b: Bundle) {
    ManifestFile in present ==> Evidence(b) <= present
  }

  // ---- Which steps fail -------------------------------------------------------------------------------

  /** What becomes of a step: it works, it fails without effect, or it takes effect and is reported as failed. */
  datatype Fate = Works | Fails | LosesReply

  predicate AllWork(fate: nat -> Fate, from: nat, to: nat) {
    forall k :: from <= k < to ==> fate(k).Works?
  }

  predicate AllFail(fate: nat -> Fate, from: nat, to: nat) {
    forall k :: from <= k < to ==> fate(k).Fails?
  }

  /** All of these steps take effect, whatever is reported of them. */
  predicate AllTakeEffect(fate: nat -> Fate, from: nat, to: nat) {
    forall k :: from <= k < to ==> !fate(k).Fails?
  }

  predicate FailsFirst(fate: nat -> Fate, start: nat, failed: nat) {
    start <= failed && AllWork(fate, start, failed) && !fate(failed).Works?
  }

  function EvidenceCount(b: Bundle): nat
    requires b.lo <= b.hi
  {
    b.chunks + (b.hi + 1 - b.lo)
  }

  /** The steps until the manifest stands: three directories, the evidence, the manifest itself. */
  function StepsToManifest(b: Bundle): nat
    requires b.lo <= b.hi
  {
    3 + EvidenceCount(b) + 1
  }

  /** The manifest is followed by three changes of permissions. */
  function StepsOf(b: Bundle): nat
    requires b.lo <= b.hi
  {
    StepsToManifest(b) + 3
  }

  /** The step that failed has created its file or directory all the same. */
  predicate LeavesStray(fate: nat -> Fate, b: Bundle, start: nat, failed: nat)
    requires b.lo <= b.hi
  {
    fate(failed).LosesReply? && failed < start + StepsToManifest(b)
  }

  /**
   The two ways to a manifest without its evidence. Either a change of permissions is the first step to fail, taking the
   manifest back fails too, and after that some removal of evidence takes effect; or the manifest is linked but reported
   as failed, so that nobody takes it back, and some removal of evidence takes effect.
   */
  ghost predicate ManifestSticks(fate: nat -> Fate, b: Bundle, start: nat)
    requires b.lo <= b.hi
  {
    exists failed: nat :: FailsFirst(fate, start, failed) && SticksAfter(fate, b, start, failed)
  }

  predicate SticksAfter(fate: nat -> Fate, b: Bundle, start: nat, failed: nat)
    requires b.lo <= b.hi
  {
    || (start + StepsToManifest(b) <= failed < start + StepsOf(b) && fate(failed + 1).Fails?
        && !AllFail(fate, failed + 2, failed + 2 + EvidenceCount(b)))
    || (failed + 1 == start + StepsToManifest(b) && fate(failed).LosesReply?
        && !AllFail(fate, failed + 1, failed + 1 + EvidenceCount(b)))
  }

  /** The disk at the destination; `fate` says what becomes of its steps, counted from the first. */
  class Disk {
    const fate: nat -> Fate
    const bundle: Bundle
    var present: set<Path>
    var step: nat
    /** Whether the first state and every state that any step has left behind so far was complete. */
    ghost var allComplete: bool

    constructor (present: set<Path>, bundle: Bundle, fate: nat -> Fate)
      ensures this.present == present && this.bundle == bundle && this.fate == fate && step == 0
      ensures allComplete == IsComplete(present, bundle)
    {
      this.present, this.bundle, this.fate, step := present, bundle, fate, 0;
      allComplete := IsComplete(present, bundle);
    }

    ghost predicate Valid()
      reads this
    {
      allComplete ==> IsComplete(present, bundle)
    }

    /** One step was taken, and the state it left was looked at. */
    twostate predicate Stepped()
      reads this
    {
      step == old(step) + 1 && allComplete == (old(allComplete) && IsComplete(present, bundle))
    }

    method Create(p: Path) returns (ok: bool)
      modifies this
      ensures Stepped()
      ensures ok <==> fate(old(step)).Works? && p !in old(present)
      ensures present == if !fate(old(step)).Fails? then old(present) + {p} else old(present)
    {
      ok := fate(step).Works? && p !in present;
      if !fate(step).Fails? { present := present + {p}; }
      step := step + 1;
      allComplete := allComplete && IsComplete(present, bundle);
    }

    method Unlink(p: Path) returns (ok: bool)
      modifies this
      ensures Stepped()
      ensures ok <==> fate(old(step)).Works? && p in old(present)
      ensures present == if !fate(old(step)).Fails? then old(present) - {p} else old(present)
    {
      ok := fate(step).Works? && p in present;
      if !fate(step).Fails? { present := present - {p}; }
      step := step + 1;
      allComplete := allComplete && IsComplete(present, bundle);
    }

    /** A directory can only go when it is empty. */
    method Rmdir(p: Path) returns (ok: bool)
      modifies this
      ensures Stepped()
      ensures ok <==> fate(old(step)).Works? && p in old(present) && IsEmpty(p, old(present))
      ensures present == if !fate(old(step)).Fails? && IsEmpty(p, old(present)) then old(present) - {p} else old(present)
    {
      ok := fate(step).Works? && p in present && IsEmpty(p, present);
      if !fate(step).Fails? && IsEmpty(p, present) { present := present - {p}; }
      step := step + 1;
      allComplete := allComplete && IsComplete(present, bundle);
    }

    method Chmod() returns (ok: bool)
      modifies this
      ensures Stepped() && present == old(present)
      ensures ok <==> fate(old(step)).Works?
    {
      ok := fate(step).Works?;
      step := step + 1;
      allComplete := allComplete && IsComplete(present, bundle);
    }
  }

  predicate IsEmpty(p: Path, present: set<Path>) {
    forall q :: q in present ==> ParentOf(q) != Some(p)
  }

  /** Either all n steps were taken and all worked, or the last one taken is the first that did not. */
  twostate predicate Ran(d: Disk, ok: bool, n: nat)
    reads d
  {
    if ok then d.step == old(d.step) + n && AllWork(d.fate, old(d.step), d.step)
    else old(d.step) < d.step <= old(d.step) + n && FailsFirst(d.fate, old(d.step), d.step - 1)
  }

  /** How far a publication came, as far as it knows. */
  datatype Progress = Progress(
    outputCreated: bool,
    indexesCreated: bool,
    ledgersCreated: bool,
    linkedChunks: nat,
    nextLedger: nat,
    manifestLinked: bool)

  function Flag(on: bool, p: Path): set<Path> {
    if on then {p} else {}
  }

  /** What a publication knows to have created so far. */
  function CreatedBy(b: Bundle, g: Progress): set<Path> {
    Flag(g.outputCreated, Output) + Flag(g.indexesCreated, IndexesDir) + Flag(g.ledgersCreated, LedgersDir)
    + IndexFiles(g.linkedChunks) + LedgerFiles(b.lo, g.nextLedger) + Flag(g.manifestLinked, ManifestFile)
  }

  /** What it creates next, in this order. */
  function NextOf(b: Bundle, g: Progress): Path {
    if !g.outputCreated then Output
    else if !g.indexesCreated then IndexesDir
    else if !g.ledgersCreated then LedgersDir
    else if g.linkedChunks < b.chunks then IndexFile(g.linkedChunks)
    else if g.nextLedger <= b.hi then LedgerFile(g.nextLedger)
    else ManifestFile
  }

  predicate IsProgress(b: Bundle, g: Progress) {
    && b.lo <= g.nextLedger <= b.hi + 1 && g.linkedChunks <= b.chunks
    && (g.indexesCreated ==> g.outputCreated) && (g.ledgersCreated ==> g.indexesCreated)
    && (g.linkedChunks > 0 ==> g.ledgersCreated) && (g.nextLedger > b.lo ==> g.ledgersCreated && g.linkedChunks == b.chunks)
    && (g.manifestLinked ==> g.ledgersCreated && g.linkedChunks == b.chunks && g.nextLedger == b.hi + 1)
  }

  /** What stands beside it: nothing, or the file or directory whose creation was reported as failed. */
  function Stray(b: Bundle, g: Progress, lost: bool): set<Path> {
    Flag(lost && !g.manifestLinked, NextOf(b, g))
  }

  /** The disk after forward steps: what is known, and after a failure perhaps a stray. */
  predicate StandsAt(d: Disk, b: Bundle, g: Progress, ok: bool)
    reads d
  {
    && IsProgress(b, g) && d.bundle == b && (ok || d.step > 0)
    && d.present == CreatedBy(b, g) + Stray(b, g, !ok && d.fate(d.step - 1).LosesReply?)
  }

  function Advance(b: Bundle, g: Progress): Progress {
    match NextOf(b, g)
    case Output => g.(outputCreated := true)
    case IndexesDir => g.(indexesCreated := true)
    case LedgersDir => g.(ledgersCreated := true)
    case IndexFile(_) => g.(linkedChunks := g.linkedChunks + 1)
    case LedgerFile(_) => g.(nextLedger := g.nextLedger + 1)
    case ManifestFile => g.(manifestLinked := true)
  }

  /** Each creation is new and makes the progress one step longer; the manifest comes after all evidence. */
  lemma AdvanceCreates(b: Bundle, g: Progress)
    requires IsProgress(b, g) && !g.manifestLinked
    ensures IsProgress(b, Advance(b, g)) && NextOf(b, g) !in CreatedBy(b, g)
    ensures CreatedBy(b, Advance(b, g)) == CreatedBy(b, g) + {NextOf(b, g)}
    ensures IsComplete(CreatedBy(b, g), b) && IsComplete(CreatedBy(b, g) + {NextOf(b, g)}, b)
  {
    assert IndexFiles(g.linkedChunks + 1) == IndexFiles(g.linkedChunks) + {IndexFile(g.linkedChunks)};
    assert LedgerFiles(b.lo, g.nextLedger + 1) == LedgerFiles(b.lo, g.nextLedger) + {LedgerFile(g.nextLedger)};
  }

  /** Creating what comes next. */
  method Make(d: Disk, b: Bundle, start: Progress, p: Path) returns (ok: bool, g: Progress)
    requires d.Valid() && d.allComplete && StandsAt(d, b, start, true) && !start.manifestLinked && p == NextOf(b, start)
    modifies d
    ensures d.Valid() && d.allComplete && Ran(d, ok, 1) && StandsAt(d, b, g, ok)
    ensures g == if ok then Advance(b, start) else start
  {
    hide IsComplete, CreatedBy, IsProgress, Advance, NextOf;
    AdvanceCreates(b, start);
    assert d.present == CreatedBy(b, start);
    ok := d.Create(p);
    g := if ok then Advance(b, start) else start;
  }

  /** The first directory that fails decides; EEXIST is one way to fail. */
  method MakeDirectories(d: Disk, b: Bundle) returns (ok: bool, g: Progress)
    requires d.Valid() && d.allComplete && d.bundle == b && b.lo <= b.hi && (Output !in d.present ==> d.present == {})
    modifies d
    ensures d.Valid() && d.allComplete
    ensures Output in old(d.present) ==> !ok && !g.outputCreated && d.present == old(d.present)
    ensures Output !in old(d.present) ==> Ran(d, ok, 3) && StandsAt(d, b, g, ok)
    ensures g.outputCreated ==> Output !in old(d.present)
    ensures !g.outputCreated ==> d.step == old(d.step) + 1
    ensures !g.manifestLinked && g.linkedChunks == 0 && g.nextLedger == b.lo && (ok ==> g.ledgersCreated)
    ensures IsProgress(b, g)
  {
    hide Evidence;
    g := Progress(false, false, false, 0, b.lo, false);
    assert CreatedBy(b, g) == {};
    assert ManifestFile in d.present + {Output} ==> ManifestFile in d.present;
    ok := d.Create(Output);
    if !ok { return; }
    g := g.(outputCreated := true);
    ok, g := Make(d, b, g, IndexesDir);
    if !ok { return; }
    ok, g := Make(d, b, g, LedgersDir);
  }

  method LinkChunks(d: Disk, b: Bundle, start: Progress) returns (ok: bool, g: Progress)
    requires d.Valid() && d.allComplete && StandsAt(d, b, start, true)
    requires start.ledgersCreated && start.linkedChunks == 0 && !start.manifestLinked
    modifies d
    ensures d.Valid() && d.allComplete && Ran(d, ok, b.chunks) && StandsAt(d, b, g, ok)
    ensures g == start.(linkedChunks := g.linkedChunks) && (ok <==> g.linkedChunks == b.chunks)
  {
    hide CreatedBy, Evidence, IsComplete;
    g := start;
    ok := true;
    while g.linkedChunks < b.chunks
      invariant ok && g == start.(linkedChunks := g.linkedChunks)
      invariant d.Valid() && d.allComplete && StandsAt(d, b, g, true) && Ran(d, true, g.linkedChunks)
      decreases b.chunks - g.linkedChunks
    {
      ok, g := Make(d, b, g, IndexFile(g.linkedChunks));
      if !ok { return; }
    }
  }

  method LinkLedgers(d: Disk, b: Bundle, start: Progress) returns (ok: bool, g: Progress)
    requires d.Valid() && d.allComplete && StandsAt(d, b, start, true)
    requires start.ledgersCreated && start.linkedChunks == b.chunks && start.nextLedger == b.lo && !start.manifestLinked
    modifies d
    ensures d.Valid() && d.allComplete && Ran(d, ok, b.hi + 1 - b.lo) && StandsAt(d, b, g, ok)
    ensures g == start.(nextLedger := g.nextLedger) && (ok <==> g.nextLedger == b.hi + 1)
  {
    hide CreatedBy, Evidence, IsComplete;
    g := start;
    ok := true;
    while g.nextLedger <= b.hi
      invariant ok && g == start.(nextLedger := g.nextLedger)
      invariant d.Valid() && d.allComplete && StandsAt(d, b, g, true) && Ran(d, true, g.nextLedger - b.lo)
      decreases b.hi + 1 - g.nextLedger
    {
      ok, g := Make(d, b, g, LedgerFile(g.nextLedger));
      if !ok { return; }
    }
  }

  // ---- Taking it back ------------------------------------------------------------------------------------

  /** Each of n steps removed its own part of `gone`, or did not take effect. */
  twostate predicate Removed(d: Disk, gone: set<Path>, n: nat)
    reads d
  {
    && d.step == old(d.step) + n
    && old(d.present) - gone <= d.present <= old(d.present)
    && (AllTakeEffect(d.fate, old(d.step), d.step) <==> d.present !! gone)
    && (AllFail(d.fate, old(d.step), d.step) <==> d.present == old(d.present))
    && (d.allComplete <==> old(d.allComplete) && IsComplete(d.present, d.bundle))
  }

  /** Removing evidence never makes an incomplete state complete. */
  lemma StaysIncomplete(b: Bundle, before: set<Path>, after: set<Path>)
    requires after <= before && (ManifestFile in after <==> ManifestFile in before)
    ensures IsComplete(after, b) ==> IsComplete(before, b)
  {
  }

  method RemoveLedgers(d: Disk, b: Bundle, next: nat)
    requires d.Valid() && d.bundle == b && b.lo <= next <= b.hi + 1 && LedgerFiles(b.lo, next) <= d.present
    modifies d
    ensures Removed(d, LedgerFiles(b.lo, next), next - b.lo)
  {
    hide IsComplete;
    var i := next;
    assert LedgerFiles(next, next) == {};
    while i > b.lo
      invariant b.lo <= i <= next && LedgerFiles(b.lo, i) <= d.present
      invariant Removed(d, LedgerFiles(i, next), next - i)
    {
      i := i - 1;
      assert LedgerFiles(i, next) == LedgerFiles(i + 1, next) + {LedgerFile(i)};
      ghost var before := d.present;
      var ok := d.Unlink(LedgerFile(i));
      StaysIncomplete(b, before, d.present);
    }
  }

  method RemoveChunks(d: Disk, b: Bundle, n: nat)
    requires d.Valid() && d.bundle == b && n <= b.chunks && IndexFiles(n) <= d.present
    modifies d
    ensures Removed(d, IndexFiles(n), n)
  {
    hide IsComplete;
    var position := n;
    while position > 0
      invariant 0 <= position <= n && IndexFiles(position) <= d.present
      invariant Removed(d, IndexFiles(n) - IndexFiles(position), n - position)
    {
      position := position - 1;
      assert IndexFiles(n) - IndexFiles(position) == (IndexFiles(n) - IndexFiles(position + 1)) + {IndexFile(position)};
      ghost var before := d.present;
      var ok := d.Unlink(IndexFile(position));
      StaysIncomplete(b, before, d.present);
    }
    assert IndexFiles(0) == {};
  }

  method RemoveDirectory(d: Disk, b: Bundle, p: Path)
    requires d.Valid() && d.bundle == b && p in {Output, IndexesDir, LedgersDir}
    modifies d
    ensures d.Stepped() && (IsComplete(d.present, b) <==> IsComplete(old(d.present), b))
    ensures d.present == if !d.fate(old(d.step)).Fails? && IsEmpty(p, old(d.present)) then old(d.present) - {p} else old(d.present)
  {
    NoDirectory(b);
    var ok := d.Rmdir(p);
  }

  lemma NoDirectory(b: Bundle)
    ensures Output !in Evidence(b) && LedgersDir !in Evidence(b) && IndexesDir !in Evidence(b)
  {
  }

  function Directories(g: Progress): set<Path> {
    Flag(g.outputCreated, Output) + Flag(g.indexesCreated, IndexesDir) + Flag(g.ledgersCreated, LedgersDir)
  }

  /** The known directories, innermost first: nothing is left exactly when nothing else was there and each step took effect. */
  method RemoveDirectories(d: Disk, b: Bundle, g: Progress)
    requires d.Valid() && d.bundle == b && IsProgress(b, g) && g.outputCreated && Directories(g) <= d.present
    modifies d
    ensures d.Valid() && old(d.step) < d.step && d.present <= old(d.present)
    ensures d.present == {} <==> old(d.present) == Directories(g) && AllTakeEffect(d.fate, old(d.step), d.step)
    ensures IsComplete(d.present, b) <==> IsComplete(old(d.present), b)
    ensures d.allComplete <==> old(d.allComplete) && IsComplete(d.present, b)
  {
    hide IsComplete;
    if g.ledgersCreated { RemoveDirectory(d, b, LedgersDir); }
    if g.indexesCreated { RemoveDirectory(d, b, IndexesDir); }
    RemoveDirectory(d, b, Output);
  }

  /** The manifest stands while its evidence goes. */
  predicate Exposes(fate: nat -> Fate, b: Bundle, g: Progress, start: nat)
    requires b.lo <= b.hi && start > 0
  {
    if g.manifestLinked then fate(start).Fails? && !AllFail(fate, start + 1, start + 1 + EvidenceCount(b))
    else fate(start - 1).LosesReply? && NextOf(b, g).ManifestFile? && !AllFail(fate, start, start + EvidenceCount(b))
  }

  /**
   Removing what was created, as far as known, newest first; a removal that fails is passed over. Nothing is left exactly
   when there is no stray and all removals take effect. The states on the way stay complete except in one case: the
   manifest stands, because it could not be removed or was not known to stand, and some of its evidence goes.
   */
  method RollBack(d: Disk, b: Bundle, g: Progress)
    requires d.Valid() && d.allComplete && b.lo <= b.hi && StandsAt(d, b, g, false) && g.outputCreated
    modifies d
    ensures old(d.step) < d.step
    ensures d.present == {} <==>
              (d.fate(old(d.step) - 1).LosesReply? ==> g.manifestLinked) && AllTakeEffect(d.fate, old(d.step), d.step)
    ensures d.allComplete <==> IsComplete(d.present, b)
    ensures d.allComplete <==> !Exposes(d.fate, b, g, old(d.step))
  {
    hide CreatedBy, IsComplete, NextOf, Evidence, LedgerFiles, IndexFiles, Directories;
    CreatedFacts(b, g);
    ghost var stray := Stray(b, g, d.fate(d.step - 1).LosesReply?);
    if g.manifestLinked {
      var ok := d.Unlink(ManifestFile);
    }
    label Files:
    ghost var files := d.present;
    FilesStand(b, g, stray, files);
    RemoveLedgers(d, b, g.nextLedger);
    ghost var ledgersTried := d.present;
    RemoveChunks(d, b, g.linkedChunks);
    ghost var tried := d.present;
    StaysIncomplete(b, ledgersTried, tried);
    FilesTried(b, g, stray, files, ledgersTried, tried);
    RemoveDirectories(d, b, g);
  }

  lemma CreatedFacts(b: Bundle, g: Progress)
    requires IsProgress(b, g)
    ensures ManifestFile in CreatedBy(b, g) <==> g.manifestLinked
    ensures IsComplete(CreatedBy(b, g), b) && IsComplete(CreatedBy(b, g) - {ManifestFile}, b)
    ensures LedgerFiles(b.lo, g.nextLedger) + IndexFiles(g.linkedChunks) + Directories(g) <= CreatedBy(b, g)
    ensures NextOf(b, g) !in CreatedBy(b, g) || g.manifestLinked
  {
  }

  /** What stands before the files are removed. */
  lemma FilesStand(b: Bundle, g: Progress, stray: set<Path>, files: set<Path>)
    requires IsProgress(b, g) && (stray == {} || (stray == {NextOf(b, g)} && !g.manifestLinked))
    requires files == CreatedBy(b, g) + stray || files == CreatedBy(b, g) + stray - {ManifestFile}
    ensures LedgerFiles(b.lo, g.nextLedger) <= files && IndexFiles(g.linkedChunks) <= files
    ensures IndexFiles(g.linkedChunks) !! LedgerFiles(b.lo, g.nextLedger)
    ensures ManifestFile !in IndexFiles(g.linkedChunks) && ManifestFile !in LedgerFiles(b.lo, g.nextLedger)
    ensures ManifestFile in CreatedBy(b, g) + stray ==>
              g.linkedChunks == b.chunks && g.nextLedger == b.hi + 1
              && (g.manifestLinked || (stray == {ManifestFile} && NextOf(b, g).ManifestFile?))
    ensures stray != {} && NextOf(b, g).ManifestFile? ==> ManifestFile in CreatedBy(b, g) + stray
  {
  }

  /** What is left when the removal of the files was tried. */
  lemma FilesTried(b: Bundle, g: Progress, stray: set<Path>, files: set<Path>, ledgersTried: set<Path>, tried: set<Path>)
    requires IsProgress(b, g) && g.outputCreated && (stray == {} || (stray == {NextOf(b, g)} && !g.manifestLinked))
    requires files == CreatedBy(b, g) + stray || (g.manifestLinked && files == CreatedBy(b, g) - {ManifestFile})
    requires files - LedgerFiles(b.lo, g.nextLedger) <= ledgersTried <= files
    requires ledgersTried - IndexFiles(g.linkedChunks) <= tried <= ledgersTried
    ensures Directories(g) <= tried
    ensures tried == Directories(g) <==>
              && stray == {} && ManifestFile !in files
              && ledgersTried !! LedgerFiles(b.lo, g.nextLedger) && tried !! IndexFiles(g.linkedChunks)
    ensures IsComplete(tried, b) <==> (ManifestFile in files ==> tried == files)
  {
  }

  // ---- The whole publication --------------------------------------------------------------------------------

  /** Everything up to the manifest, which is linked when all evidence is. */
  method LinkEverything(d: Disk, b: Bundle) returns (ok: bool, g: Progress)
    requires d.Valid() && d.bundle == b && b.lo <= b.hi && d.allComplete && (Output !in d.present ==> d.present == {})
    modifies d
    ensures d.Valid() && d.allComplete && IsProgress(b, g) && g.manifestLinked == ok
    ensures Output in old(d.present) ==> !ok && !g.outputCreated && d.present == old(d.present)
    ensures Output !in old(d.present) ==> Ran(d, ok, StepsToManifest(b)) && StandsAt(d, b, g, ok)
    ensures !ok && Output !in old(d.present) ==>
              (NextOf(b, g).ManifestFile? <==> d.step == old(d.step) + StepsToManifest(b))
    ensures g.outputCreated ==> Output !in old(d.present)
    ensures !g.outputCreated ==> d.step == old(d.step) + 1
  {
    hide Evidence, CreatedBy, IsComplete;
    ok, g := MakeDirectories(d, b);
    if !ok { return; }
    ok, g := LinkChunks(d, b, g);
    if !ok { return; }
    ok, g := LinkLedgers(d, b, g);
    if !ok { return; }
    ok, g := Make(d, b, g, ManifestFile);
  }

  /** The changes of permissions after the manifest. */
  method OpenToReaders(d: Disk) returns (ok: bool)
    requires d.Valid() && d.allComplete
    modifies d
    ensures d.Valid() && d.allComplete && d.present == old(d.present) && Ran(d, ok, 3)
  {
    ok := d.Chmod();
    if ok { ok := d.Chmod(); }
    if ok { ok := d.Chmod(); }
  }

  /**
   Success, which is where every step works, leaves exactly the bundle; a destination that exists already is never
   touched. A failed publication leaves nothing behind exactly when the failed step left no stray and all removals took
   effect. No state on the way shows a manifest without its evidence, unless the manifest sticks; and then the last
   state shows it too.
   */
  method PublishBundleNoClobber(d: Disk, b: Bundle) returns (ok: bool)
    requires d.Valid() && d.bundle == b && b.lo <= b.hi && d.allComplete && (Output !in d.present ==> d.present == {})
    modifies d
    ensures Output in old(d.present) ==> !ok && d.present == old(d.present)
    ensures Output !in old(d.present) ==> (ok <==> AllWork(d.fate, old(d.step), old(d.step) + StepsOf(b)))
    ensures ok ==> d.present == Everything(b)
    ensures forall failed: nat ::
              Output !in old(d.present) && FailsFirst(d.fate, old(d.step), failed) && failed < old(d.step) + StepsOf(b) ==>
                (d.present == {} <==>
                   !LeavesStray(d.fate, b, old(d.step), failed) && AllTakeEffect(d.fate, failed + 1, d.step))
    ensures d.allComplete <==> IsComplete(d.present, b)
    ensures Output !in old(d.present) ==> (d.allComplete <==> !ManifestSticks(d.fate, b, old(d.step)))
  {
    hide Evidence, CreatedBy, IsComplete, ManifestSticks, Everything, SticksAfter, Exposes, NextOf;
    var g: Progress;
    ok, g := LinkEverything(d, b);
    if ok { ok := OpenToReaders(d); }
    if Output !in old(d.present) {
      OnlyFailure(d.fate, b, old(d.step), d.step, ok);
      if !ok { SameExposure(d.fate, b, g, old(d.step), d.step); }
    }
    Extremes(b, g);
    if !ok && g.outputCreated { RollBack(d, b, g); }
  }

  /** What a run of the forward steps says about the publication as a whole. */
  lemma OnlyFailure(fate: nat -> Fate, b: Bundle, start: nat, end: nat, ok: bool)
    requires b.lo <= b.hi && start <= end
    requires if ok then end == start + StepsOf(b) && AllWork(fate, start, end)
             else start < end <= start + StepsOf(b) && FailsFirst(fate, start, end - 1)
    ensures ok <==> AllWork(fate, start, start + StepsOf(b))
    ensures forall failed: nat :: FailsFirst(fate, start, failed) && failed < start + StepsOf(b) ==> failed == end - 1
    ensures ManifestSticks(fate, b, start) <==> !ok && SticksAfter(fate, b, start, end - 1)
  {
    if ok {
      forall failed: nat | FailsFirst(fate, start, failed) ensures !SticksAfter(fate, b, start, failed) {
        assert failed >= end;
      }
    } else {
      assert !fate(end - 1).Works?;
      forall other: nat | FailsFirst(fate, start, other) ensures other == end - 1 {
      }
    }
  }

  /** The manifest sticks after a failed step exactly when the rollback exposes it. */
  lemma SameExposure(fate: nat -> Fate, b: Bundle, g: Progress, start: nat, end: nat)
    requires b.lo <= b.hi && start < end <= start + StepsOf(b)
    requires g.manifestLinked <==> end > start + StepsToManifest(b)
    requires !g.manifestLinked ==> (NextOf(b, g).ManifestFile? <==> end == start + StepsToManifest(b))
    ensures SticksAfter(fate, b, start, end - 1) <==> Exposes(fate, b, g, end)
    ensures !g.manifestLinked && !NextOf(b, g).ManifestFile? ==> !Exposes(fate, b, g, end)
  {
    assert (end - 1) + 1 == end && (end - 1) + 2 == end + 1;
  }

  /** Before the first step nothing is known to stand, with the manifest everything. */
  lemma Extremes(b: Bundle, g: Progress)
    requires IsProgress(b, g)
    ensures !g.outputCreated ==> CreatedBy(b, g) == {} && NextOf(b, g) == Output && !g.manifestLinked
    ensures g.manifestLinked ==> CreatedBy(b, g) == Everything(b)
  {
  }

  // ---- The failures are real --------------------------------------------------------------------------------

  /** One ledger, one chunk: the first change of permissions and the removal after it fail. */
  lemma ManifestCanStick(fate: nat -> Fate)
    requires forall k :: fate(k) == if k == 6 || k == 7 then Fails else Works
    ensures ManifestSticks(fate, Bundle(1, 1, 1), 0)
  {
    assert FailsFirst(fate, 0, 6) && !fate(8).Fails?;
  }

  /** Or the one reply that is lost is the one to linking the manifest. */
  lemma LostReplyIsEnough(fate: nat -> Fate)
    requires forall k :: fate(k) == if k == 5 then LosesReply else Works
    ensures ManifestSticks(fate, Bundle(1, 1, 1), 0)
  {
    assert FailsFirst(fate, 0, 5) && !fate(6).Fails?;
  }

  /** What is left on the disk after the lost reply. */
  method ManifestWithoutEvidence() returns (d: Disk)
    ensures fresh(d) && ManifestFile in d.present && !(Evidence(Bundle(1, 1, 1)) <= d.present)
  {
    hide Evidence, ManifestSticks;
    var b := Bundle(1, 1, 1);
    d := new Disk({}, b, (k: nat) => if k == 5 then LosesReply else Works);
    LostReplyIsEnough(d.fate);
    var ok := PublishBundleNoClobber(d, b);
  }
}
