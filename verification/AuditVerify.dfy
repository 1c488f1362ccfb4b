/** An audit directory and how it is verified (crates/sv-audit/src/lib.rs). */
module AuditVerify {
  import opened Crypto
  import opened Effects
  import opened AuditChain

  datatype Checkpoint = Checkpoint(state: CheckpointState, mac: Mac)

  datatype CheckpointFile = Parsed(checkpoint: Checkpoint) | Unparsable

  datatype Dir = Dir(checkpoint: Option<CheckpointFile>, active: Option<Segment>, archives: map<nat, Segment>)

  datatype Report = Passed(entries: nat) | Broken(at: nat, legacy: nat)

  function Signed(state: CheckpointState, key: Key): Option<CheckpointFile> {
    Some(Parsed(Checkpoint(state, CheckpointTag(key, state))))
  }

  const GENESIS := CheckpointState(FORMAT_VERSION, 0, Zero, 0, 0, Zero)

  /** The checkpoint that authenticates under `key`, if there is one. */
  function LoadCheckpoint(d: Dir, key: Key): Option<CheckpointState> {
    match d.checkpoint
    case Some(Parsed(Checkpoint(state, mac))) =>
      if state.version == FORMAT_VERSION && !state.head.NotHex? && !state.activeStart.NotHex?
         && mac == CheckpointTag(key, state) && state.activeCount <= state.recordCount
         && state.recordCount <= MAX_U64 && state.segment <= MAX_U64
      then Some(state) else None
    case _ => None
  }

  /** What a checkpoint may count. */
  predicate Sensible(c: CheckpointState) {
    && c.version == FORMAT_VERSION && c.activeCount <= c.recordCount <= MAX_U64 && c.segment <= MAX_U64
    && !c.head.NotHex? && !c.activeStart.NotHex?
  }

  /** A checkpoint is loaded if and only if it is one that the holder of the key signed. */
  lemma LoadedIsSigned(d: Dir, key: Key, c: CheckpointState)
    ensures LoadCheckpoint(d, key) == Some(c) <==> d.checkpoint == Signed(c, key) && Sensible(c)
  {
  }

  predicate HasAtLeast(archives: map<nat, Segment>, n: nat) {
    forall i :: 0 <= i < n ==> i in archives
  }

  /** The archives on disk are exactly numbers 0 to n - 1. */
  predicate HasArchives(d: Dir, n: nat) {
    HasAtLeast(d.archives, n) && forall i :: i in d.archives ==> i < n
  }

  function ArchiveFiles(archives: map<nat, Segment>, n: nat): (r: seq<Segment>)
    requires HasAtLeast(archives, n)
    ensures |r| == n && forall i :: 0 <= i < n ==> r[i] == archives[i]
  {
    seq(n, i requires 0 <= i < n => archives[i])
  }

  // ---- the three verifications -----------------------------------------------------

  function AsReport(scan: Scan): Outcome<Report>
    requires !scan.Valid?
  {
    if scan.Invalid? then Ok(Broken(scan.at, scan.legacy)) else Err
  }

  function VerifyAgainst(d: Dir, c: CheckpointState, key: Key): Outcome<Report> {
    if !HasArchives(d, c.segment) || d.active.None? then Ok(Broken(0, 0))
    else
      var archived := ScanSegments(ArchiveFiles(d.archives, c.segment), 0, Zero, key);
      if !archived.Valid? then AsReport(archived)
      else if c.activeCount > c.recordCount then Err
      else if archived.entries != c.recordCount - c.activeCount || archived.head != c.activeStart then
        Ok(Broken(archived.entries, 0))
      else
        var scanned := ScanSegments([d.active.value], archived.entries, archived.head, key);
        if !scanned.Valid? then AsReport(scanned)
        else if scanned.entries != c.recordCount || scanned.head != c.head then Ok(Broken(scanned.entries, 0))
        else Ok(Passed(scanned.entries))
  }

  function VerifyActiveAgainst(d: Dir, c: CheckpointState, key: Key): Outcome<Report> {
    if d.active.None? then Ok(Broken(0, 0))
    else if c.activeCount > c.recordCount then Err
    else
      var scanned := ScanSegments([d.active.value], c.recordCount - c.activeCount, c.activeStart, key);
      if !scanned.Valid? then AsReport(scanned)
      else if scanned.entries != c.recordCount || scanned.head != c.head then Ok(Broken(scanned.entries, 0))
      else Ok(Passed(c.recordCount))
  }

  function VerifyCommittedArchives(d: Dir, c: CheckpointState, key: Key): Outcome<Report> {
    if !HasArchives(d, c.segment) && !HasArchives(d, c.segment + 1) then Ok(Broken(0, 0))
    else
      var scanned := ScanSegments(ArchiveFiles(d.archives, c.segment), 0, Zero, key);
      if !scanned.Valid? then AsReport(scanned)
      else if c.activeCount > c.recordCount then Err
      else if scanned.entries != c.recordCount - c.activeCount || scanned.head != c.activeStart then
        Ok(Broken(scanned.entries, 0))
      else Ok(Passed(scanned.entries))
  }

  predicate Accepts(report: Outcome<Report>) {
    report.Ok? && report.value.Passed?
  }

  /** The archives of `d` scan to the boundary that the checkpoint records. */
  predicate ArchivesReachBoundary(d: Dir, c: CheckpointState, key: Key) {
    && HasArchives(d, c.segment)
    && c.activeCount <= c.recordCount
    && ScanSegments(ArchiveFiles(d.archives, c.segment), 0, Zero, key)
       == Valid(c.recordCount - c.activeCount, c.activeStart)
  }

  /** The append-time check decides as the full one does, except for archives;
  full verification is exactly the two partial ones. */
  lemma FastCheckAgrees(d: Dir, c: CheckpointState, key: Key)
    ensures ArchivesReachBoundary(d, c, key) ==> VerifyActiveAgainst(d, c, key) == VerifyAgainst(d, c, key)
    ensures Accepts(VerifyAgainst(d, c, key)) <==>
              ArchivesReachBoundary(d, c, key) && Accepts(VerifyActiveAgainst(d, c, key))
    ensures ArchivesReachBoundary(d, c, key) <==>
              HasArchives(d, c.segment) && Accepts(VerifyCommittedArchives(d, c, key))
  {
    if d.active.Some? && c.activeCount <= c.recordCount {
      ScanOne(d.active.value, c.recordCount - c.activeCount, c.activeStart, key);
    }
  }

  /** The archived lines and then the active lines are clean, form one chain
  from the beginning, and end where the checkpoint says. */
  ghost predicate HoldsChain(d: Dir, c: CheckpointState, key: Key) {
    && HasArchives(d, c.segment) && d.active.Some? && c.activeCount <= c.recordCount <= MAX_U64
    && var files, active := ArchiveFiles(d.archives, c.segment), d.active.value;
    && Clean(active) && (forall i :: 0 <= i < |files| ==> Clean(files[i]))
    && |Flatten(files)| == c.recordCount - c.activeCount && |active.lines| == c.activeCount
    && Linked(Flatten(files), 0, Zero, key) && HeadOf(Flatten(files), Zero) == c.activeStart
    && Linked(active.lines, |Flatten(files)|, c.activeStart, key) && HeadOf(active.lines, c.activeStart) == c.head
  }

  /** All lines of a directory, archived and active. */
  ghost function AllLines(d: Dir, n: nat): seq<Line>
    requires HasAtLeast(d.archives, n) && d.active.Some?
  {
    Flatten(ArchiveFiles(d.archives, n)) + d.active.value.lines
  }

  /** The first line that does not belong to the chain. */
  ghost predicate BreaksAt(lines: seq<Line>, at: nat, legacy: nat, key: Key) {
    && at < |lines| && Linked(lines[..at], 0, Zero, key) && !LinkedAt(lines, at, 0, Zero, key)
    && legacy == if lines[at].Legacy? then 1 else 0
  }

  /** What a failed verification says of the archived lines and of all lines. */
  ghost predicate Located(report: Report, archived: seq<Line>, all: seq<Line>, c: CheckpointState, key: Key)
    requires report.Broken?
  {
    || BreaksAt(all, report.at, report.legacy, key)
    || (&& report == Broken(|archived|, 0) && Linked(archived, 0, Zero, key)
        && (|archived| != c.recordCount - c.activeCount || HeadOf(archived, Zero) != c.activeStart))
    || (&& report == Broken(|all|, 0) && Linked(all, 0, Zero, key)
        && (|all| != c.recordCount || HeadOf(all, Zero) != c.head))
  }

  /** A failed verification reports the place of the first line that does not belong there,
  or where the chain is intact and disagrees with the checkpoint, at the boundary or at
  the end. */
  lemma ReportNamesPlace(d: Dir, c: CheckpointState, key: Key)
    requires HasArchives(d, c.segment) && d.active.Some? && Clean(d.active.value)
    requires forall i :: 0 <= i < c.segment ==> Clean(d.archives[i])
    requires VerifyAgainst(d, c, key).Ok? && VerifyAgainst(d, c, key).value.Broken?
    ensures Located(VerifyAgainst(d, c, key).value, Flatten(ArchiveFiles(d.archives, c.segment)),
                    AllLines(d, c.segment), c, key)
  {
    var files, active := ArchiveFiles(d.archives, c.segment), d.active.value;
    var archived := Flatten(files);
    ScanFlattens(files, 0, Zero, key);
    ScanMeansLinked(archived, 0, Zero, key);
    var first := ScanLines(archived, 0, Zero, key);
    if first.Invalid? {
      FailureNamesFirst(archived, 0, Zero, key);
      BreakInFirst(archived, active.lines, first.at, first.legacy, key);
    } else if first.Valid? {
      ScanOne(active, |archived|, first.head, key);
      ActiveIsLocated(archived, active.lines, c, key);
    }
  }

  lemma ActiveIsLocated(archived: seq<Line>, lines: seq<Line>, c: CheckpointState, key: Key)
    requires Linked(archived, 0, Zero, key) && |archived| <= MAX_U64
    ensures
      var scan := ScanLines(lines, |archived|, HeadOf(archived, Zero), key);
      && (scan.Invalid? ==> BreaksAt(archived + lines, scan.at, scan.legacy, key))
      && (scan.Valid? ==>
            && Linked(archived + lines, 0, Zero, key)
            && scan == Valid(|archived + lines|, HeadOf(archived + lines, Zero)))
  {
    var head := HeadOf(archived, Zero);
    var scan := ScanLines(lines, |archived|, head, key);
    ScanMeansLinked(lines, |archived|, head, key);
    LinkedJoin(archived, lines, 0, Zero, key);
    if scan.Invalid? {
      FailureNamesFirst(lines, |archived|, head, key);
      BreakInSecond(archived, lines, scan.at - |archived|, scan.legacy, key);
    }
  }

  lemma BreakInFirst(a: seq<Line>, b: seq<Line>, at: nat, legacy: nat, key: Key)
    requires BreaksAt(a, at, legacy, key)
    ensures BreaksAt(a + b, at, legacy, key)
  {
    assert (a + b)[..at] == a[..at];
    assert LinkedAt(a + b, at, 0, Zero, key) <==> LinkedAt(a, at, 0, Zero, key);
  }

  lemma BreakInSecond(a: seq<Line>, b: seq<Line>, i: nat, legacy: nat, key: Key)
    requires Linked(a, 0, Zero, key) && i < |b| && Linked(b[..i], |a|, HeadOf(a, Zero), key)
    requires !LinkedAt(b, i, |a|, HeadOf(a, Zero), key) && legacy == if b[i].Legacy? then 1 else 0
    ensures BreaksAt(a + b, |a| + i, legacy, key)
  {
    assert (a + b)[..|a| + i] == a + b[..i];
    LinkedJoin(a, b[..i], 0, Zero, key);
    assert LinkedAt(a + b, |a| + i, 0, Zero, key) <==> LinkedAt(b, i, |a|, HeadOf(a, Zero), key);
  }

  lemma AcceptanceMeansChain(d: Dir, c: CheckpointState, key: Key)
    ensures Accepts(VerifyAgainst(d, c, key)) <==> HoldsChain(d, c, key)
  {
    FastCheckAgrees(d, c, key);
    if HasArchives(d, c.segment) && d.active.Some? && c.activeCount <= c.recordCount {
      BoundaryMeansChain(ArchiveFiles(d.archives, c.segment), c.recordCount - c.activeCount, c.activeStart, key);
    }
    if d.active.Some? && c.activeCount <= c.recordCount && c.recordCount - c.activeCount <= MAX_U64 {
      ActiveMeansChain(d, c, key);
    }
  }

  lemma BoundaryMeansChain(files: seq<Segment>, n: nat, head: Mac, key: Key)
    ensures ScanSegments(files, 0, Zero, key) == Valid(n, head) <==>
            && (forall i :: 0 <= i < |files| ==> Clean(files[i]))
            && Linked(Flatten(files), 0, Zero, key) && |Flatten(files)| == n <= MAX_U64
            && HeadOf(Flatten(files), Zero) == head
  {
    if ScanSegments(files, 0, Zero, key).Valid? {
      ValidScanIsClean(files, 0, Zero, key);
    }
    if forall i :: 0 <= i < |files| ==> Clean(files[i]) {
      ScanFlattens(files, 0, Zero, key);
      ScanMeansLinked(Flatten(files), 0, Zero, key);
    }
  }

  lemma ActiveMeansChain(d: Dir, c: CheckpointState, key: Key)
    requires d.active.Some? && c.activeCount <= c.recordCount && c.recordCount - c.activeCount <= MAX_U64
    ensures
      var active, n := d.active.value, c.recordCount - c.activeCount;
      Accepts(VerifyActiveAgainst(d, c, key)) <==>
      && Clean(active) && |active.lines| == c.activeCount && c.recordCount <= MAX_U64
      && Linked(active.lines, n, c.activeStart, key) && HeadOf(active.lines, c.activeStart) == c.head
  {
    ScanOne(d.active.value, c.recordCount - c.activeCount, c.activeStart, key);
    ScanMeansLinked(d.active.value.lines, c.recordCount - c.activeCount, c.activeStart, key);
  }

  /** Two directories accepted against the same checkpoint hold the same
  archived records and the same active records. */
  lemma TamperEvidence(d: Dir, e: Dir, c: CheckpointState, key: Key)
    requires Accepts(VerifyAgainst(d, c, key)) && Accepts(VerifyAgainst(e, c, key))
    ensures HasArchives(d, c.segment) && HasArchives(e, c.segment) && d.active.Some? && e.active.Some?
    ensures Records(Flatten(ArchiveFiles(d.archives, c.segment)))
            == Records(Flatten(ArchiveFiles(e.archives, c.segment)))
    ensures Records(d.active.value.lines) == Records(e.active.value.lines)
  {
    AcceptanceMeansChain(d, c, key);
    AcceptanceMeansChain(e, c, key);
    HeadDeterminesChain(Flatten(ArchiveFiles(d.archives, c.segment)), Flatten(ArchiveFiles(e.archives, c.segment)), 0,
                        Zero, Zero, key);
    HeadDeterminesChain(d.active.value.lines, e.active.value.lines, c.recordCount - c.activeCount, c.activeStart,
                        c.activeStart, key);
  }
}
