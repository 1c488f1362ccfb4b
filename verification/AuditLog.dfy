/** The operations of the audit log (crates/sv-audit/src/lib.rs), on any
directory contents and under any interruption. */
module AuditLog {
  import opened Crypto
  import opened Effects
  import opened AuditChain
  import opened AuditVerify
  import opened AuditShapes

  /** Appends to the active segment; after an unfinished line the two run
  together. */
  function AppendTo(segment: Segment, line: Line): Segment {
    if segment.tail == 0 then segment.(lines := segment.lines + [line])
    else Segment(segment.lines + [Garbage(segment.tail + LineBytes(line))], 0)
  }

  /** Some, all or none of the bytes of `line` reached the active segment. */
  ghost predicate Appended(d: Dir, e: Dir, line: Line) {
    || e == d
    || (&& d.active.Some?
        && (|| e == d.(active := Some(AppendTo(d.active.value, line)))
            || (&& e.active.Some? && d.active.value.tail < e.active.value.tail < d.active.value.tail + LineBytes(line)
                && e == d.(active := Some(d.active.value.(tail := e.active.value.tail))))))
  }

  /** The next step, an append of `size` bytes, is cut short inside its line. */
  predicate TearsAt(fates: seq<(Fate, nat)>, size: nat) {
    fates != [] && !fates[0].0.Good? && !fates[0].0.late && 0 < fates[0].1 < size
  }

  /** A vault root as the audit log sees it. Each durable step meets one fate;
  the number beside it says how many bytes of an append that is cut short reach
  the disk. */
  class Store {
    var dir: Dir
    var fates: seq<(Fate, nat)>

    constructor (dir: Dir)
      ensures this.dir == dir && fates == []
    {
      this.dir, this.fates := dir, [];
    }

    method NextFate() returns (fate: Fate, kept: nat)
      modifies this`fates
      ensures old(fates) == [] ==> fate == Good && fates == []
      ensures old(fates) != [] ==> (fate, kept) == old(fates)[0]
    {
      if fates == [] {
        return Good, 0;
      }
      fate, kept := fates[0].0, fates[0].1;
      fates := fates[1..];
    }

    /** One atomic replace or rename. */
    method Commit(next: Dir) returns (r: Io)
      modifies this
      ensures dir == old(dir) || dir == next
      ensures r.Done? ==> dir == next
      ensures old(fates) == [] ==> r.Done? && fates == []
    {
      var fate, kept := NextFate();
      if fate.Good? || fate.late {
        dir := next;
      }
      r := if fate.Good? then Done else if fate.Fail? then Failed else Crashed;
    }

    /** Write one line at the end of the active segment and sync it. */
    method Append(line: Line) returns (r: Io)
      modifies this
      ensures Appended(old(dir), dir, line)
      ensures r.Done? ==>
                old(dir).active.Some? && dir == old(dir).(active := Some(AppendTo(old(dir).active.value, line)))
      ensures old(fates) == [] ==> fates == [] && (r.Done? <==> old(dir).active.Some?)
      ensures old(dir).active.Some? && old(dir).active.value.tail == 0 ==>
                && dir.active.Some? && (dir.active.value.tail > 0 <==> TearsAt(old(fates), LineBytes(line)))
                && (TearsAt(old(fates), LineBytes(line)) ==> !r.Done?)
    {
      if dir.active.None? {
        return Failed;
      }
      var fate, kept := NextFate();
      if fate.Good? || fate.late || kept >= LineBytes(line) {
        dir := dir.(active := Some(AppendTo(dir.active.value, line)));
      } else if kept > 0 {
        dir := dir.(active := Some(dir.active.value.(tail := dir.active.value.tail + kept)));
      }
      r := if fate.Good? then Done else if fate.Fail? then Failed else Crashed;
    }
  }

  function FromStep<T>(io: Io, value: T): Outcome<T> {
    match io
    case Done => Ok(value)
    case Failed => Err
    case Crashed => Stopped
  }

  // ---- recovery ------------------------------------------------------------------------

  function SaturatingNext(n: nat): nat {
    if n >= MAX_U64 then MAX_U64 else n + 1
  }

  /** What the active segment says about the checkpoint. */
  datatype Finding = Matches | Lags(entries: nat, head: Mac) | Elsewhere | PastCeiling

  function Examine(d: Dir, c: CheckpointState, key: Key): Finding
    requires c.activeCount <= c.recordCount
  {
    if d.active.None? then Elsewhere
    else
      var scanned := ScanSegments([d.active.value], c.recordCount - c.activeCount, c.activeStart, key);
      if scanned.Overflow? then PastCeiling
      else if scanned.Invalid? then Elsewhere
      else if scanned.entries == c.recordCount && scanned.head == c.head then Matches
      else if scanned.entries == SaturatingNext(c.recordCount) && scanned.head != c.head then
        Lags(scanned.entries, scanned.head)
      else Elsewhere
  }

  /** The checkpoint counts 2^64 - 1 records, as many as the active segment ends
  at, but names another head: the saturating increment takes it for a checkpoint
  that lags by one. */
  ghost predicate Saturated(d: Dir, key: Key) {
    && LoadCheckpoint(d, key).Some?
    && var c := LoadCheckpoint(d, key).value;
    && c.recordCount == MAX_U64 && c.activeCount < MAX_U64 && Examine(d, c, key).Lags?
  }

  /** What is found in each shape. */
  lemma ShapedFinding(d: Dir, key: Key)
    requires LogOk(d, key)
    ensures LoadCheckpoint(d, key) == Some(State(d))
    ensures
      var c := State(d);
      var finding := Examine(d, c, key);
      && (finding.Matches? <==> Settled(d, c, key))
      && (finding.Lags? <==> Ahead(d, c, key) && !Wedged(d, key))
      && (finding.PastCeiling? <==> Ahead(d, c, key) && Wedged(d, key))
      && (finding.Elsewhere? <==> Torn(d, c, key) || Renamed(d, c, key))
      && (Wedged(d, key) <==> Torn(d, c, key) || finding.PastCeiling?)
      && (finding.Lags? ==> c.recordCount < MAX_U64 && finding == Lags(c.recordCount + 1, HeadOf(Lines(d), Zero)))
  {
    ShapedLoads(d, key);
    ShapesAreExclusive(d, key);
    if d.active.Some? { ShapedScan(d, key); }
  }

  /** The append-time check would accept the checkpoint on disk. */
  ghost predicate ActiveAccepted(d: Dir, key: Key) {
    LoadCheckpoint(d, key).Some? && Accepts(VerifyActiveAgainst(d, LoadCheckpoint(d, key).value, key))
  }

  /** What recovery does to a directory that the log itself produced. */
  ghost predicate Recovers(d: Dir, e: Dir, r: Outcome<bool>, key: Key)
    requires HasCheckpoint(d)
  {
    && LogOk(e, key) && Lines(e) == Lines(d)
    && (r == Ok(true) ==> Settled(e, State(e), key))
    && (r == Ok(false) ==> Torn(d, State(d), key) && e == d)
    && (Wedged(d, key) ==> e == d && !r.Stopped? && r != Ok(true))
    && (Settled(d, State(d), key) ==> e == d && r == Ok(true))
  }

  lemma ValidHeadIsHex(segment: Segment, sequence: nat, prev: Mac, key: Key)
    requires sequence <= MAX_U64 && !prev.NotHex?
    ensures
      var scan := ScanSegments([segment], sequence, prev, key);
      scan.Valid? ==> !scan.head.NotHex? && scan.entries == sequence + |segment.lines| <= MAX_U64
  {
    ScanOne(segment, sequence, prev, key);
    ScanMeansLinked(segment.lines, sequence, prev, key);
    if ScanSegments([segment], sequence, prev, key).Valid? {
      HeadIsHex(segment.lines, sequence, prev, key);
    }
  }

  function CaughtUp(c: CheckpointState, finding: Finding): CheckpointState
    requires finding.Lags?
  {
    c.(recordCount := finding.entries, head := finding.head, activeCount := c.activeCount + 1)
  }

  /** The checkpoint that catching up writes passes the append-time check,
  except at the ceiling. */
  lemma CaughtUpIsAccepted(d: Dir, c: CheckpointState, key: Key)
    requires LoadCheckpoint(d, key) == Some(c) && Examine(d, c, key).Lags? && c.activeCount < MAX_U64
    ensures ActiveAccepted(d.(checkpoint := Signed(CaughtUp(c, Examine(d, c, key)), key)), key) <==>
              c.recordCount < MAX_U64
  {
    ValidHeadIsHex(d.active.value, c.recordCount - c.activeCount, c.activeStart, key);
    var next := CaughtUp(c, Examine(d, c, key));
    ValidHeadIsHex(d.active.value, next.recordCount - next.activeCount, next.activeStart, key);
  }

  /** Sign the checkpoint that covers the one record beyond it. */
  method CatchUp(store: Store, key: Key, c: CheckpointState, finding: Finding) returns (r: Outcome<bool>)
    requires LoadCheckpoint(store.dir, key) == Some(c) && finding == Examine(store.dir, c, key) && finding.Lags?
    modifies store
    ensures old(store.fates) == [] ==> store.fates == []
    ensures store.dir == old(store.dir) || store.dir == old(store.dir).(checkpoint := Signed(CaughtUp(c, finding), key))
    ensures r == Ok(true) ==> (ActiveAccepted(store.dir, key) <==> c.recordCount < MAX_U64)
    ensures r == Ok(true) ==>
              store.dir == old(store.dir).(checkpoint := Signed(CaughtUp(c, finding), key)) && c.activeCount < MAX_U64
    ensures r != Ok(false)
    ensures old(store.fates) == [] && c.activeCount < MAX_U64 ==> r == Ok(true)
  {
    if c.activeCount >= MAX_U64 {
      return Err;
    }
    CaughtUpIsAccepted(store.dir, c, key);
    var io := store.Commit(store.dir.(checkpoint := Signed(CaughtUp(c, finding), key)));
    r := FromStep(io, true);
  }

  /** The rename of a rotation took place and nothing after it but an empty
  active segment: all archives scan to the checkpoint. */
  predicate Interrupted(d: Dir, c: CheckpointState, key: Key) {
    && HasArchives(d, c.segment + 1)
    && ScanSegments(ArchiveFiles(d.archives, c.segment + 1), 0, Zero, key) == Valid(c.recordCount, c.head)
    && (d.active.None? || d.active.value == EMPTY)
  }

  /** Finish a rotation that was interrupted. */
  method RecoverRotation(store: Store, key: Key, c: CheckpointState) returns (r: Outcome<bool>)
    requires LoadCheckpoint(store.dir, key) == Some(c)
    modifies store
    ensures old(store.fates) == [] ==> store.fates == []
    ensures !Interrupted(old(store.dir), c, key) ==> store.dir == old(store.dir) && !r.Stopped? && r != Ok(true)
    ensures !HasArchives(old(store.dir), c.segment + 1) || r == Ok(false) ==>
              r == Ok(false) && !Interrupted(old(store.dir), c, key)
    ensures
      var emptied := old(store.dir).(active := Some(EMPTY));
      var done := emptied.(checkpoint := Signed(NextSegment(c), key));
      && (store.dir == old(store.dir) || store.dir == emptied || store.dir == done)
      && (r == Ok(true) ==> store.dir == done && ActiveAccepted(done, key))
    ensures Interrupted(old(store.dir), c, key) && c.segment < MAX_U64 && old(store.fates) == [] ==> r == Ok(true)
  {
    ghost var d := store.dir;
    if !HasArchives(store.dir, c.segment + 1) {
      return Ok(false);
    }
    var scanned := ScanPathsFrom(ArchiveFiles(store.dir.archives, c.segment + 1), 0, Zero, key);
    if scanned.Overflow? {
      return Err;
    }
    if !scanned.Valid? || scanned.entries != c.recordCount || scanned.head != c.head {
      return Ok(false);
    }
    if store.dir.active.None? {
      var io := store.Commit(store.dir.(active := Some(EMPTY)));
      if !io.Done? {
        return FromStep(io, true);
      }
    } else {
      EmptyIffNoBytes(store.dir.active.value);
      if Bytes(store.dir.active.value) != 0 {
        return Ok(false);
      }
    }
    assert store.dir == d.(active := Some(EMPTY));
    if c.segment >= MAX_U64 {
      return Err;
    }
    FreshSegmentIsAccepted(store.dir, c, key);
    var io := store.Commit(store.dir.(checkpoint := Signed(NextSegment(c), key)));
    r := FromStep(io, true);
  }

  lemma FreshSegmentIsAccepted(d: Dir, c: CheckpointState, key: Key)
    requires LoadCheckpoint(d, key) == Some(c) && d.active == Some(EMPTY) && c.segment < MAX_U64
    ensures ActiveAccepted(d.(checkpoint := Signed(NextSegment(c), key)), key)
  {
    ScanOne(EMPTY, c.recordCount, c.head, key);
  }

  /** Every directory and result that recovery of `d` can end with; `calm` says
  that no step fails. */
  ghost predicate RecoverySteps(d: Dir, e: Dir, r: Outcome<bool>, calm: bool, c: CheckpointState, key: Key)
    requires c.activeCount <= c.recordCount
  {
    var finding := Examine(d, c, key);
    match finding
    case PastCeiling => e == d && r.Err?
    case Matches => e == d && r == Ok(true)
    case Lags(_, _) =>
      var next := d.(checkpoint := Signed(CaughtUp(c, finding), key));
      && (e == d || e == next) && r != Ok(false) && (r == Ok(true) ==> e == next)
      && (calm && c.activeCount < MAX_U64 ==> r == Ok(true))
    case Elsewhere =>
      var emptied := d.(active := Some(EMPTY));
      var done := emptied.(checkpoint := Signed(NextSegment(c), key));
      && (!Interrupted(d, c, key) ==> e == d && !r.Stopped? && r != Ok(true))
      && (!HasArchives(d, c.segment + 1) || r == Ok(false) ==> r == Ok(false) && !Interrupted(d, c, key))
      && (e == d || e == emptied || e == done) && (r == Ok(true) ==> e == done)
      && (Interrupted(d, c, key) && c.segment < MAX_U64 && calm ==> r == Ok(true))
  }

  /** No line moves; a missing or empty active segment may become an empty one. */
  ghost predicate SegmentsStay(d: Dir, e: Dir) {
    && e.archives == d.archives
    && (e.active == d.active || (e.active == Some(EMPTY) && (d.active.None? || d.active.value == EMPTY)))
  }

  /** Bring the checkpoint up to date after an interrupted append or rotation;
  `true` says that the active segment is then known to match it. */
  method Recover(store: Store, key: Key) returns (r: Outcome<bool>)
    modifies store
    ensures old(store.fates) == [] ==> store.fates == []
    ensures LoadCheckpoint(old(store.dir), key).None? ==> r.Err? && store.dir == old(store.dir)
    ensures LoadCheckpoint(old(store.dir), key).Some? ==>
              RecoverySteps(old(store.dir), store.dir, r, old(store.fates) == [],
                            LoadCheckpoint(old(store.dir), key).value, key)
    ensures r == Ok(true) ==> (ActiveAccepted(store.dir, key) <==> !Saturated(old(store.dir), key))
    ensures (&& LoadCheckpoint(old(store.dir), key).Some?
             && Examine(old(store.dir), LoadCheckpoint(old(store.dir), key).value, key).Matches?) ==>
              store.fates == old(store.fates)
    ensures SegmentsStay(old(store.dir), store.dir)
  {
    var loaded := LoadCheckpoint(store.dir, key);
    if loaded.None? {
      return Err;
    }
    var c := loaded.value;
    var finding := ExamineActive(store.dir, c, key);
    match finding
    case PastCeiling =>
      r := Err;
    case Matches =>
      r := Ok(true);
    case Lags(_, _) =>
      r := CatchUp(store, key, c, finding);
    case Elsewhere =>
      r := RecoverRotation(store, key, c);
  }

  lemma RenamedIsInterrupted(d: Dir, key: Key)
    requires LogOk(d, key) && Examine(d, State(d), key).Elsewhere?
    ensures Torn(d, State(d), key) ==> !HasArchives(d, State(d).segment + 1)
    ensures Renamed(d, State(d), key) ==> Interrupted(d, State(d), key) && State(d).segment < MAX_U64
  {
    if Renamed(d, State(d), key) {
      RenamedScan(d, key);
    } else {
      assert State(d).segment !in d.archives;
    }
  }

  /** Recovery of a directory that the log itself produced keeps every record. */
  lemma RecoveryKeepsLog(d: Dir, e: Dir, r: Outcome<bool>, calm: bool, key: Key)
    requires LogOk(d, key) && RecoverySteps(d, e, r, calm, State(d), key)
    ensures LoadCheckpoint(d, key) == Some(State(d))
    ensures Recovers(d, e, r, key) && (calm && !Wedged(d, key) ==> r == Ok(true))
  {
    ShapedFinding(d, key);
    match Examine(d, State(d), key)
    case PastCeiling =>
    case Matches =>
    case Lags(_, _) =>
      CheckpointCatchesUp(d, key);
    case Elsewhere =>
      RenamedIsInterrupted(d, key);
      if Renamed(d, State(d), key) {
        RotationCompletes(d, key);
      }
  }

  /** Scan the active segment, if there is one, and compare. */
  method ExamineActive(d: Dir, c: CheckpointState, key: Key) returns (finding: Finding)
    requires c.activeCount <= c.recordCount
    ensures finding == Examine(d, c, key)
  {
    if d.active.None? {
      return Elsewhere;
    }
    var scanned := ScanPathsFrom([d.active.value], c.recordCount - c.activeCount, c.activeStart, key);
    if scanned.Overflow? {
      return PastCeiling;
    }
    if scanned.Valid? && scanned.entries == c.recordCount && scanned.head == c.head {
      return Matches;
    }
    if scanned.Valid? && scanned.entries == SaturatingNext(c.recordCount) && scanned.head != c.head {
      return Lags(scanned.entries, scanned.head);
    }
    return Elsewhere;
  }

  // ---- recording -------------------------------------------------------------------------

  ghost predicate KeepsLog(d: Dir, e: Dir, key: Key) {
    LogOk(e, key) && Lines(e) == Lines(d)
  }


  function ActiveArchived(d: Dir, c: CheckpointState): Dir
    requires d.active.Some?
  {
    d.(active := None, archives := d.archives[c.segment := d.active.value])
  }

  /** Every directory a rotation passes through holds the same log. */
  lemma RotationStages(d: Dir, c: CheckpointState, key: Key)
    requires SettledAt(d, c, key) && d.active != Some(EMPTY)
    ensures d.active.Some? && c.segment !in d.archives && c.segment < MAX_U64
    ensures
      var renamed := ActiveArchived(d, c);
      var emptied := renamed.(active := Some(EMPTY));
      var done := RotatedDir(d, c, key);
      && KeepsLog(d, renamed, key) && KeepsLog(d, emptied, key)
      && KeepsLog(d, done, key) && Settled(done, State(done), key)
  {
    RotationStarts(d, key);
    RotationCompletes(ActiveArchived(d, c), key);
    RenamedScan(ActiveArchived(d, c), key);
  }

  ghost function RotatedDir(d: Dir, c: CheckpointState, key: Key): Dir
    requires d.active.Some?
  {
    ActiveArchived(d, c).(active := Some(EMPTY), checkpoint := Signed(NextSegment(c), key))
  }

  /** Archive the active segment and start an empty one. */
  method Rotate(store: Store, key: Key, c: CheckpointState) returns (r: Outcome<CheckpointState>)
    requires c.version == FORMAT_VERSION
    modifies store
    ensures old(store.fates) == [] ==> store.fates == []
    ensures store.dir != old(store.dir) ==>
              && old(store.dir).active.Some? && c.segment !in old(store.dir).archives
              && (|| store.dir == ActiveArchived(old(store.dir), c)
                  || store.dir == ActiveArchived(old(store.dir), c).(active := Some(EMPTY))
                  || store.dir == RotatedDir(old(store.dir), c, key))
    ensures r.Ok? ==>
              && old(store.dir).active.Some? && store.dir == RotatedDir(old(store.dir), c, key)
              && r.value == NextSegment(c)
    ensures (&& old(store.fates) == [] && old(store.dir).active.Some?
             && c.segment !in old(store.dir).archives && c.segment < MAX_U64) ==> r.Ok?
  {
    if c.segment in store.dir.archives || store.dir.active.None? {
      return Err;
    }
    var io := store.Commit(ActiveArchived(store.dir, c));
    if !io.Done? {
      return FromStep(io, c);
    }
    io := store.Commit(store.dir.(active := Some(EMPTY)));
    if !io.Done? {
      return FromStep(io, c);
    }
    if c.segment >= MAX_U64 {
      return Err;
    }
    var next := CheckpointState(FORMAT_VERSION, c.recordCount, c.head, c.segment + 1, 0, c.head);
    io := store.Commit(store.dir.(checkpoint := Signed(next, key)));
    r := FromStep(io, next);
  }

  /** What recording does to a directory that the log itself produced. */
  ghost predicate RecordsAtMost(d: Dir, e: Dir, event: Event, size: Size, key: Key) {
    && LogOk(e, key)
    && (|| Lines(e) == Lines(d)
        || (size <= MAX_ACTIVE_VERIFY_BYTES && Lines(e) == Lines(d) + [Entry(Next(d, event, key), size)]))
  }

  // What the record is for: names are stored as their keyed digest only.

  ghost predicate HiddenAs(key: Key, given: Option<Field>, stored: Option<Field>) {
    if given.Some? then stored == Some(Digest(key, given.value)) else stored.None?
  }

  ghost predicate StoredAs(key: Key, event: Event, stored: Event) {
    && stored.action == event.action && stored.detail == event.detail
    && HiddenAs(key, event.container, stored.container) && HiddenAs(key, event.fileName, stored.fileName)
  }

  /** One record more, authentic and next in the chain, that stores this event. */
  ghost predicate Extends(before: seq<Line>, after: seq<Line>, event: Event, size: Size, key: Key) {
    && |after| == |before| + 1 && after[..|before|] == before && after[|before|].Entry?
    && after[|before|].size == size
    && var record := after[|before|].record;
    && record.payload.version == 2 && record.payload.sequence == |before|
    && record.payload.prev == HeadOf(before, Zero) && record.mac == RecordTag(key, record.payload)
    && StoredAs(key, event, record.payload.event)
  }

  lemma RedactedExtends(d: Dir, e: Dir, event: Event, size: Size, key: Key)
    requires Lines(e) == Lines(d) + [Entry(Next(d, Redact(key, event), key), size)]
    ensures Extends(Lines(d), Lines(e), event, size, key)
  {
  }

  ghost predicate RecordsAll(d: Dir, e: Dir, event: Event, size: Size, key: Key) {
    && LogOk(e, key) && Settled(e, State(e), key)
    && Lines(e) == Lines(d) + [Entry(Next(d, event, key), size)]
  }

  lemma SignedIsNext(d: Dir, event: Event, key: Key)
    requires LogOk(d, key) && Settled(d, State(d), key)
    ensures SignRecord(State(d).recordCount, State(d).head, event, key) == Next(d, event, key)
  {
    ShapeLines(d, key);
  }

  /** Every outcome of appending to a settled directory. */
  lemma AppendStages(d: Dir, event: Event, size: Size, key: Key)
    requires LogOk(d, key) && Settled(d, State(d), key) && Bytes(d.active.value) + size <= MAX_ACTIVE_VERIFY_BYTES
    ensures
      var line := Entry(Next(d, event, key), size);
      var e := d.(active := Some(AppendTo(d.active.value, line)));
      var f := e.(checkpoint := Signed(Advanced(State(d), line.record.mac), key));
      && (forall x :: Appended(d, x, line) ==> RecordsAtMost(d, x, event, size, key))
      && RecordsAtMost(d, e, event, size, key)
      && (State(d).recordCount < MAX_U64 ==> RecordsAll(d, f, event, size, key))
  {
    var line := Entry(Next(d, event, key), size);
    AppendGoesAhead(d, event, size, key);
    var e := d.(active := Some(AppendTo(d.active.value, line)));
    forall x | Appended(d, x, line) ensures RecordsAtMost(d, x, event, size, key) {
      if x != d && x != e {
        AppendTears(d, x.active.value.tail, key);
      }
    }
    if State(d).recordCount < MAX_U64 {
      CheckpointCatchesUp(e, key);
    }
  }

  /** The line is added at the end of the active segment, or, unless `all`, some of it
  or nothing is. */
  ghost predicate GrowsBy(d: Dir, e: Dir, line: Line, all: bool) {
    && e.archives == d.archives
    && (|| (e.active == d.active && !all)
        || (&& d.active.Some? && e.active.Some?
            && (|| e.active.value == AppendTo(d.active.value, line)
                || (e.active.value == d.active.value.(tail := e.active.value.tail) && !all))))
  }

  /** Append a signed record and then the checkpoint that covers it. */
  method AppendRecord(store: Store, key: Key, c: CheckpointState, record: AuditRecord, size: Size)
    returns (r: Outcome<()>)
    modifies store
    ensures old(store.fates) == [] ==> store.fates == []
    ensures (&& LogOk(old(store.dir), key) && Settled(old(store.dir), State(old(store.dir)), key)
             && c == State(old(store.dir)) && record == Next(old(store.dir), record.payload.event, key)
             && Bytes(old(store.dir).active.value) + size <= MAX_ACTIVE_VERIFY_BYTES) ==>
              && RecordsAtMost(old(store.dir), store.dir, record.payload.event, size, key)
              && (r.Ok? ==> RecordsAll(old(store.dir), store.dir, record.payload.event, size, key))
              && (old(store.fates) == [] && c.recordCount < MAX_U64 ==> r.Ok?)
              && store.dir.active.Some? && (store.dir.active.value.tail > 0 <==> TearsAt(old(store.fates), size))
    ensures GrowsBy(old(store.dir), store.dir, Entry(record, size), r.Ok?)
  {
    ghost var d := store.dir;
    ghost var ok :=
      && LogOk(d, key) && Settled(d, State(d), key) && c == State(d) && record == Next(d, record.payload.event, key)
      && Bytes(d.active.value) + size <= MAX_ACTIVE_VERIFY_BYTES;
    if ok { AppendStages(d, record.payload.event, size, key); }
    var io := store.Append(Entry(record, size));
    if !io.Done? {
      return FromStep(io, ());
    }
    if c.recordCount >= MAX_U64 || c.activeCount >= MAX_U64 {
      return Err;
    }
    io := store.Commit(store.dir.(checkpoint := Signed(Advanced(c, record.mac), key)));
    r := FromStep(io, ());
  }

  ghost predicate SettledAt(d: Dir, c: CheckpointState, key: Key) {
    LogOk(d, key) && c == State(d) && Settled(d, c, key)
  }

  /** Room for one more line before the active segment must be archived. */
  predicate NeedsRotation(active: Segment, size: Size, maxBytes: nat) {
    && Bytes(active) > 0
    && Bytes(active) + size > (if maxBytes < MAX_ACTIVE_VERIFY_BYTES then maxBytes else MAX_ACTIVE_VERIFY_BYTES)
  }

  /** There is room in the active segment: it is empty, or stays within the threshold
  and within the 256 KiB that append-time verification reads. */
  ghost predicate Roomy(active: Segment, size: Size, maxBytes: nat) {
    active == EMPTY || (Bytes(active) + size <= maxBytes && Bytes(active) + size <= 0x4_0000)
  }

  /** Where a line goes: to the active segment if there is room, and otherwise to a new
  one, after the active segment has become the next archive. */
  ghost predicate Placed(d: Dir, e: Dir, segment: nat, line: Line, size: Size, maxBytes: nat, all: bool)
    requires d.active.Some?
  {
    var archived := d.(archives := d.archives[segment := d.active.value], active := Some(EMPTY));
    if Roomy(d.active.value, size, maxBytes) then GrowsBy(d, e, line, all)
    else
      || (e.archives == d.archives && e.active == d.active && !all)
      || (e.archives == archived.archives && e.active.None? && !all)
      || GrowsBy(archived, e, line, all)
  }

  /** Sign, rotate if the active segment is full, sign again and append. */
  method WriteRecord(store: Store, key: Key, maxBytes: nat, c: CheckpointState, event: Event, size: Size)
    returns (r: Outcome<()>)
    requires c.version == FORMAT_VERSION
    modifies store
    ensures old(store.fates) == [] ==> store.fates == []
    ensures SettledAt(old(store.dir), c, key) ==> RecordsAtMost(old(store.dir), store.dir, event, size, key)
    ensures SettledAt(old(store.dir), c, key) && r.Ok? ==> RecordsAll(old(store.dir), store.dir, event, size, key)
    ensures (&& SettledAt(old(store.dir), c, key) && old(store.fates) == []
             && size <= MAX_ACTIVE_VERIFY_BYTES && c.recordCount < MAX_U64) ==> r.Ok?
    ensures (&& SettledAt(old(store.dir), c, key) && size <= MAX_ACTIVE_VERIFY_BYTES
             && Roomy(old(store.dir).active.value, size, maxBytes)) ==>
              store.dir.active.Some? && (store.dir.active.value.tail > 0 <==> TearsAt(old(store.fates), size))
    ensures SettledAt(old(store.dir), c, key) ==>
              Placed(old(store.dir), store.dir, c.segment, Entry(Next(old(store.dir), event, key), size), size,
                     maxBytes, r.Ok?)
  {
    ghost var d := store.dir;
    ghost var ok := SettledAt(d, c, key);
    if d.active.Some? { EmptyIffNoBytes(d.active.value); }
    if ok { SignedIsNext(d, event, key); }
    var record := SignRecord(c.recordCount, c.head, event, key);
    if size > MAX_ACTIVE_VERIFY_BYTES || store.dir.active.None? {
      return Err;
    }
    if !NeedsRotation(store.dir.active.value, size, maxBytes) {
      r := AppendRecord(store, key, c, record, size);
      return;
    }
    if ok { RotationStages(d, c, key); }
    var rotated := Rotate(store, key, c);
    if !rotated.Ok? {
      return if rotated.Err? then Err else Stopped;
    }
    ghost var signedBefore := record;
    record := SignRecord(rotated.value.recordCount, rotated.value.head, record.payload.event, key);
    assert record == signedBefore;
    r := AppendRecord(store, key, rotated.value, record, size);
  }

  /** Append one event. */
  method Record(store: Store, key: Key, maxBytes: nat, event: Event, size: Size) returns (r: Outcome<()>)
    modifies store
    ensures old(store.fates) == [] ==> store.fates == []
    ensures LoadCheckpoint(old(store.dir), key).None? ==> r.Err? && store.dir == old(store.dir)
    ensures LogOk(old(store.dir), key) ==>
              && LogOk(store.dir, key)
              && (|| Lines(store.dir) == Lines(old(store.dir))
                  || (&& size <= MAX_ACTIVE_VERIFY_BYTES
                      && Extends(Lines(old(store.dir)), Lines(store.dir), event, size, key)))
    ensures LogOk(old(store.dir), key) && r.Ok? ==>
              && Settled(store.dir, State(store.dir), key)
              && Extends(Lines(old(store.dir)), Lines(store.dir), event, size, key)
    ensures LogOk(old(store.dir), key) && Wedged(old(store.dir), key) ==> r.Err? && store.dir == old(store.dir)
    ensures (&& LogOk(old(store.dir), key) && !Wedged(old(store.dir), key) && old(store.fates) == []
             && size <= MAX_ACTIVE_VERIFY_BYTES && |Lines(old(store.dir))| < MAX_U64) ==> r.Ok?
    // a record leaves an unfinished line exactly if its append is cut short inside it
    ensures (&& LogOk(old(store.dir), key) && Settled(old(store.dir), State(old(store.dir)), key)
             && size <= MAX_ACTIVE_VERIFY_BYTES && Roomy(old(store.dir).active.value, size, maxBytes)) ==>
              store.dir.active.Some? && (store.dir.active.value.tail > 0 <==> TearsAt(old(store.fates), size))
    // and goes where there is room
    ensures LogOk(old(store.dir), key) && Settled(old(store.dir), State(old(store.dir)), key) && r.Ok? ==>
              PlacedLast(old(store.dir), store.dir, size, maxBytes)
    ensures LogOk(old(store.dir), key) ==>
              forall limit :: maxBytes <= limit && Segmented(old(store.dir), limit) ==> Segmented(store.dir, limit)
  {
    ghost var d := store.dir;
    var ready := RecoverFirst(store, key);
    ghost var m := store.dir;
    if !ready.Ok? {
      return if ready.Err? then Err else Stopped;
    }
    r := WriteRecord(store, key, maxBytes, ready.value, Redact(key, event), size);
    if LogOk(d, key) { RecordedLine(d, m, store.dir, r, event, size, maxBytes, ready.value, key); }
  }

  /** A successful record is the last line of the active segment, alone there if there was
  no room beside the others, which are archived then; nothing else moves. */
  ghost predicate PlacedLast(d: Dir, e: Dir, size: Size, maxBytes: nat)
    requires HasCheckpoint(d) && d.active.Some? && |Lines(e)| > 0
  {
    var last := Lines(e)[|Lines(e)| - 1];
    && e.active.Some?
    && if Roomy(d.active.value, size, maxBytes) then
         e.archives == d.archives && e.active.value.lines == d.active.value.lines + [last]
       else
         e.archives == d.archives[State(d).segment := d.active.value] && e.active.value.lines == [last]
  }

  /** A segment holds one record, or no more bytes than `limit`. */
  ghost predicate Bounded(segment: Segment, limit: nat) {
    |segment.lines| <= 1 || LinesBytes(segment.lines) <= limit
  }

  ghost predicate Segmented(d: Dir, limit: nat) {
    && (d.active.Some? ==> Bounded(d.active.value, limit))
    && forall i :: i in d.archives ==> Bounded(d.archives[i], limit)
  }

  lemma RecordedLine(d: Dir, m: Dir, e: Dir, r: Outcome<()>, event: Event, size: Size, maxBytes: nat,
                     c: CheckpointState, key: Key)
    requires LogOk(d, key) && SettledAt(m, c, key) && Lines(m) == Lines(d) && SegmentsStay(d, m)
    requires Settled(d, State(d), key) ==> m == d
    requires RecordsAtMost(m, e, Redact(key, event), size, key)
    requires r.Ok? ==> RecordsAll(m, e, Redact(key, event), size, key)
    requires Placed(m, e, c.segment, Entry(Next(m, Redact(key, event), key), size), size, maxBytes, r.Ok?)
    ensures Lines(e) == Lines(d) || (size <= MAX_ACTIVE_VERIFY_BYTES && Extends(Lines(d), Lines(e), event, size, key))
    ensures r.Ok? ==> Extends(Lines(d), Lines(e), event, size, key)
    ensures Settled(d, State(d), key) && r.Ok? ==> PlacedLast(d, e, size, maxBytes)
    ensures forall limit :: maxBytes <= limit && Segmented(d, limit) ==> Segmented(e, limit)
  {
    var line := Entry(Next(m, Redact(key, event), key), size);
    if Lines(e) == Lines(m) + [line] { RedactedExtends(m, e, event, size, key); }
    forall limit | maxBytes <= limit && Segmented(d, limit) ensures Segmented(e, limit) {
      PlacedSegments(m, e, c.segment, line, size, maxBytes, r.Ok?, limit);
    }
  }

  lemma PlacedSegments(d: Dir, e: Dir, segment: nat, line: Line, size: Size, maxBytes: nat, all: bool, limit: nat)
    requires d.active.Some? && d.active.value.tail == 0 && LineBytes(line) == size
    requires Placed(d, e, segment, line, size, maxBytes, all) && maxBytes <= limit && Segmented(d, limit)
    ensures Segmented(e, limit)
  {
    BytesAppend(d.active.value.lines, line);
  }

  /** What recovering before a record does to a directory that the log itself produced. */
  ghost predicate ReadiesLog(d: Dir, e: Dir, r: Outcome<CheckpointState>, calm: bool, key: Key) {
    && KeepsLog(d, e, key)
    && (r.Ok? ==> SettledAt(e, r.value, key) && r.value.recordCount == |Lines(d)|)
    && (Wedged(d, key) ==> r.Err? && e == d)
    && (!Wedged(d, key) && calm ==> r.Ok?)
    && (HasCheckpoint(d) && Settled(d, State(d), key) ==> r.Ok? && e == d)
  }

  /** Recover what an earlier record left, and read the checkpoint. */
  method RecoverFirst(store: Store, key: Key) returns (r: Outcome<CheckpointState>)
    modifies store
    ensures old(store.fates) == [] ==> store.fates == []
    ensures r.Ok? ==> r.value.version == FORMAT_VERSION
    ensures LoadCheckpoint(old(store.dir), key).None? ==> r.Err? && store.dir == old(store.dir)
    ensures LogOk(old(store.dir), key) ==> ReadiesLog(old(store.dir), store.dir, r, old(store.fates) == [], key)
    ensures LogOk(old(store.dir), key) && Settled(old(store.dir), State(old(store.dir)), key) ==>
              store.fates == old(store.fates)
    ensures SegmentsStay(old(store.dir), store.dir)
  {
    ghost var d := store.dir;
    ghost var ok := LogOk(d, key);
    if ok { ShapedFinding(d, key); ShapesAreExclusive(d, key); }
    var recovered := Recover(store, key);
    if ok { RecoveryKeepsLog(d, store.dir, recovered, old(store.fates) == [], key); }
    if !recovered.Ok? {
      return if recovered.Err? then Err else Stopped;
    }
    if ok { ShapedLoads(store.dir, key); ShapeLines(store.dir, key); }
    var loaded := LoadCheckpoint(store.dir, key);
    if loaded.None? {
      return Err;
    }
    if !recovered.value {
      if ok { TornIsRejected(store.dir, key); }
      var report := VerifyActiveAgainst(store.dir, loaded.value, key);
      if !Accepts(report) {
        return Err;
      }
    }
    return Ok(loaded.value);
  }

  /** Of all shapes only the torn one has an unfinished line. */
  lemma TailIsTorn(d: Dir, key: Key)
    requires LogOk(d, key)
    ensures Torn(d, State(d), key) <==> d.active.Some? && d.active.value.tail > 0
  {
    ShapesAreExclusive(d, key);
  }

  lemma TornIsRejected(d: Dir, key: Key)
    requires LogOk(d, key) && Torn(d, State(d), key)
    ensures !Accepts(VerifyActiveAgainst(d, State(d), key))
  {
    ShapedScan(d, key);
  }
}
