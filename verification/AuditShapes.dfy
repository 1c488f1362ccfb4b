/** The states an audit directory can be in (crates/sv-audit/src/lib.rs).

The log is the list of all complete records on disk, archived and active. Every
durable step keeps that list or appends one record to it; the checkpoint covers
all of it but possibly the last record. */
module AuditShapes {
  import opened Crypto
  import opened Effects
  import opened AuditChain
  import opened AuditVerify

  /** The largest active segment that append-time verification reads. */
  const MAX_ACTIVE_VERIFY_BYTES: nat := 256 * 1024

  function LineBytes(line: Line): nat {
    if line.Blank? then 1 else line.size
  }

  function LinesBytes(lines: seq<Line>): nat {
    if lines == [] then 0 else LinesBytes(lines[..|lines| - 1]) + LineBytes(lines[|lines| - 1])
  }

  function Bytes(segment: Segment): nat {
    LinesBytes(segment.lines) + segment.tail
  }

  lemma BytesAppend(lines: seq<Line>, line: Line)
    ensures LinesBytes(lines + [line]) == LinesBytes(lines) + LineBytes(line)
  {
    assert (lines + [line])[..|lines|] == lines;
  }

  lemma EmptyIffNoBytes(segment: Segment)
    ensures Bytes(segment) == 0 <==> segment == EMPTY
  {
  }

  // ---- the log on disk ------------------------------------------------------------

  ghost function Archived(d: Dir, n: nat): seq<Line>
    requires HasAtLeast(d.archives, n)
  {
    Flatten(ArchiveFiles(d.archives, n))
  }

  ghost function ActiveLines(d: Dir): seq<Line> {
    if d.active.Some? then d.active.value.lines else []
  }

  /** What one archive holds once the log has put it there. */
  ghost predicate GoodArchive(segment: Segment) {
    Clean(segment) && segment.lines != [] && Bytes(segment) <= MAX_ACTIVE_VERIFY_BYTES
  }

  ghost predicate Stored(d: Dir, n: nat) {
    && HasArchives(d, n)
    && (forall i :: i in d.archives ==> GoodArchive(d.archives[i]))
    && (d.active.Some? ==> IsText(d.active.value.lines) && Bytes(d.active.value) <= MAX_ACTIVE_VERIFY_BYTES)
  }

  /** The checkpoint `c` is signed and describes a prefix of the chain of lines
  in the first `n` archives and the active segment. */
  ghost predicate Anchored(d: Dir, n: nat, c: CheckpointState, key: Key) {
    && d.checkpoint == Signed(c, key) && c.version == FORMAT_VERSION
    && Stored(d, n) && c.segment <= n
    && var lines := Archived(d, n) + ActiveLines(d);
    && Linked(lines, 0, Zero, key)
    && c.activeCount <= c.recordCount <= |lines| && c.recordCount <= MAX_U64
    && c.head == Before(lines, c.recordCount, Zero)
    && |Archived(d, c.segment)| == c.recordCount - c.activeCount
    && c.activeStart == HeadOf(Archived(d, c.segment), Zero)
  }

  ghost predicate Settled(d: Dir, c: CheckpointState, key: Key) {
    && Anchored(d, c.segment, c, key)
    && d.active.Some? && d.active.value.tail == 0
    && |Archived(d, c.segment)| + |ActiveLines(d)| == c.recordCount
  }

  /** One record is complete on disk but not yet covered by the checkpoint. */
  ghost predicate Ahead(d: Dir, c: CheckpointState, key: Key) {
    && Anchored(d, c.segment, c, key)
    && d.active.Some? && d.active.value.tail == 0
    && |Archived(d, c.segment)| + |ActiveLines(d)| == c.recordCount + 1
  }

  /** An append was cut short inside its record. */
  ghost predicate Torn(d: Dir, c: CheckpointState, key: Key) {
    && Anchored(d, c.segment, c, key)
    && d.active.Some? && d.active.value.tail > 0
    && |Archived(d, c.segment)| + |ActiveLines(d)| == c.recordCount
  }

  /** A rotation has renamed the active segment and not yet moved the checkpoint:
  the new active segment is missing, or empty. */
  ghost predicate Renamed(d: Dir, c: CheckpointState, key: Key) {
    && Anchored(d, c.segment + 1, c, key)
    && (d.active.None? || d.active.value == EMPTY)
    && c.activeCount > 0
    && |Archived(d, c.segment + 1)| == c.recordCount
  }

  ghost predicate Shaped(d: Dir, c: CheckpointState, key: Key) {
    Settled(d, c, key) || Ahead(d, c, key) || Torn(d, c, key) || Renamed(d, c, key)
  }

  ghost predicate HasCheckpoint(d: Dir) {
    d.checkpoint.Some? && d.checkpoint.value.Parsed?
  }

  ghost function State(d: Dir): CheckpointState
    requires HasCheckpoint(d)
  {
    d.checkpoint.value.checkpoint.state
  }

  ghost predicate LogOk(d: Dir, key: Key) {
    HasCheckpoint(d) && Shaped(d, State(d), key)
  }

  /** Before the first checkpoint is written. */
  ghost predicate Unborn(d: Dir) {
    d.checkpoint.None? && d.archives == map[] && (d.active.None? || d.active.value == EMPTY)
  }

  ghost predicate AuditInv(d: Dir, key: Key) {
    Unborn(d) || LogOk(d, key)
  }

  /** No operation can proceed: the last append was torn, or it wrote the record
  that a 64-bit count cannot cover. */
  ghost predicate Wedged(d: Dir, key: Key) {
    && HasCheckpoint(d)
    && (Torn(d, State(d), key) || (Ahead(d, State(d), key) && State(d).recordCount == MAX_U64))
  }

  /** All complete lines on disk. */
  ghost function Lines(d: Dir): seq<Line> {
    if !HasCheckpoint(d) then []
    else
      var n := if State(d).segment in d.archives then State(d).segment + 1 else State(d).segment;
      if HasAtLeast(d.archives, n) then Archived(d, n) + ActiveLines(d) else []
  }

  // ---- facts about shapes ------------------------------------------------------------

  lemma {:induction false} FlattenAppend(files: seq<Segment>, last: Segment)
    ensures Flatten(files + [last]) == Flatten(files) + last.lines
    decreases |files|
  {
    if files == [] {
      assert files + [last] == [last];
      assert [last][1..] == [];
    } else {
      assert (files + [last])[1..] == files[1..] + [last];
      FlattenAppend(files[1..], last);
    }
  }

  lemma ArchivedGrows(d: Dir, n: nat)
    requires HasAtLeast(d.archives, n + 1)
    ensures Archived(d, n + 1) == Archived(d, n) + d.archives[n].lines
  {
    assert ArchiveFiles(d.archives, n + 1) == ArchiveFiles(d.archives, n) + [d.archives[n]];
    FlattenAppend(ArchiveFiles(d.archives, n), d.archives[n]);
  }

  lemma ArchivedDependsOnArchives(d: Dir, e: Dir, n: nat)
    requires HasAtLeast(d.archives, n) && HasAtLeast(e.archives, n)
    requires forall i :: 0 <= i < n ==> d.archives[i] == e.archives[i]
    ensures Archived(d, n) == Archived(e, n)
  {
    assert ArchiveFiles(d.archives, n) == ArchiveFiles(e.archives, n);
  }

  lemma {:induction false} ArchivesAreNonEmpty(d: Dir, n: nat)
    requires HasAtLeast(d.archives, n)
    requires forall i :: 0 <= i < n ==> d.archives[i].lines != []
    ensures |Archived(d, n)| >= n
  {
    if n > 0 {
      ArchivedGrows(d, n - 1);
      ArchivesAreNonEmpty(d, n - 1);
    }
  }

  lemma ShapeLines(d: Dir, key: Key)
    requires LogOk(d, key)
    ensures
      var c := State(d);
      && HasAtLeast(d.archives, c.segment)
      && (!Renamed(d, c, key) ==> Lines(d) == Archived(d, c.segment) + ActiveLines(d))
      && (Renamed(d, c, key) ==> HasAtLeast(d.archives, c.segment + 1) && Lines(d) == Archived(d, c.segment + 1))
      && Linked(Lines(d), 0, Zero, key) && c.recordCount <= |Lines(d)| <= c.recordCount + 1
      && c.head == Before(Lines(d), c.recordCount, Zero)
  {
    var c := State(d);
    if Renamed(d, c, key) {
      assert Archived(d, c.segment + 1) + ActiveLines(d) == Archived(d, c.segment + 1);
    }
  }

  /** The tag before a position of a chain is in canonical hex. */
  lemma BeforeIsHex(lines: seq<Line>, i: nat, key: Key)
    requires Linked(lines, 0, Zero, key) && i <= |lines|
    ensures !Before(lines, i, Zero).NotHex?
  {
    if i > 0 {
      assert LinkedAt(lines, i - 1, 0, Zero, key);
    }
  }

  lemma ArchivedIsLinked(d: Dir, n: nat, c: CheckpointState, key: Key)
    requires Anchored(d, n, c, key) && (n == c.segment || n == c.segment + 1)
    ensures Linked(Archived(d, n), 0, Zero, key) && Linked(Archived(d, c.segment), 0, Zero, key)
  {
    LinkedJoin(Archived(d, n), ActiveLines(d), 0, Zero, key);
    if n == c.segment + 1 {
      ArchivedGrows(d, c.segment);
      LinkedJoin(Archived(d, c.segment), d.archives[c.segment].lines, 0, Zero, key);
    }
  }

  lemma ShapedLoads(d: Dir, key: Key)
    requires LogOk(d, key)
    ensures LoadCheckpoint(d, key) == Some(State(d))
  {
    var c := State(d);
    ShapeLines(d, key);
    BeforeIsHex(Lines(d), c.recordCount, key);
    ArchivedIsLinked(d, if Renamed(d, c, key) then c.segment + 1 else c.segment, c, key);
    BeforeIsHex(Archived(d, c.segment), |Archived(d, c.segment)|, key);
    ArchivesAreNonEmpty(d, c.segment);
  }

  /** No directory is in two shapes at once. */
  lemma ShapesAreExclusive(d: Dir, key: Key)
    requires LogOk(d, key)
    ensures
      var c := State(d);
      && (Settled(d, c, key) ==> !Ahead(d, c, key) && !Torn(d, c, key) && !Renamed(d, c, key))
      && (Ahead(d, c, key) ==> !Torn(d, c, key) && !Renamed(d, c, key))
      && (Torn(d, c, key) ==> !Renamed(d, c, key))
  {
    assert Renamed(d, State(d), key) ==> State(d).segment in d.archives;
  }

  /** What the scan of an active segment that continues the archives comes to. */
  lemma ActiveScan(d: Dir, key: Key)
    requires LogOk(d, key) && !Renamed(d, State(d), key)
    ensures
      var c := State(d);
      var n := c.recordCount - c.activeCount;
      && Lines(d) == Archived(d, c.segment) + ActiveLines(d) && |Archived(d, c.segment)| == n
      && ScanLines(ActiveLines(d), n, c.activeStart, key)
         == (if |Lines(d)| <= MAX_U64 then Valid(|Lines(d)|, HeadOf(Lines(d), Zero)) else Overflow)
  {
    var c := State(d);
    ShapeLines(d, key);
    LinkedJoin(Archived(d, c.segment), ActiveLines(d), 0, Zero, key);
    ScanMeansLinked(ActiveLines(d), c.recordCount - c.activeCount, c.activeStart, key);
  }

  /** What the scan of the active segment finds in each shape. */
  lemma ShapedScan(d: Dir, key: Key)
    requires LogOk(d, key) && d.active.Some?
    ensures
      var c := State(d);
      var scan := ScanSegments([d.active.value], c.recordCount - c.activeCount, c.activeStart, key);
      && (Settled(d, c, key) ==> scan == Valid(c.recordCount, c.head))
      && (Ahead(d, c, key) ==>
            if c.recordCount == MAX_U64 then scan.Overflow?
            else scan == Valid(c.recordCount + 1, HeadOf(Lines(d), Zero)) && HeadOf(Lines(d), Zero) != c.head)
      && (Torn(d, c, key) ==> scan.Invalid?)
      && (Renamed(d, c, key) ==> scan == Valid(c.recordCount - c.activeCount, c.activeStart))
  {
    var c := State(d);
    var n := c.recordCount - c.activeCount;
    ScanOne(d.active.value, n, c.activeStart, key);
    if !Renamed(d, c, key) {
      ActiveScan(d, key);
      ShapeLines(d, key);
      if Ahead(d, c, key) {
        assert LinkedAt(Lines(d), c.recordCount, 0, Zero, key);
        HeadIsNew(Lines(d)[c.recordCount].record, c.head, key);
      }
    }
  }

  /** A tag is never the tag it was chained to. */
  lemma HeadIsNew(record: AuditRecord, prev: Mac, key: Key)
    requires VerifyRecord(record, record.payload.sequence, prev, key)
    ensures record.mac != prev
  {
    assert record.mac.payload.prev < record.mac.payload < record.mac;
  }

  // ---- the durable steps ---------------------------------------------------------------

  function Advanced(c: CheckpointState, head: Mac): CheckpointState {
    c.(recordCount := c.recordCount + 1, head := head, activeCount := c.activeCount + 1)
  }

  function NextSegment(c: CheckpointState): CheckpointState {
    c.(segment := c.segment + 1, activeCount := 0, activeStart := c.head)
  }

  lemma CheckpointCatchesUp(d: Dir, key: Key)
    requires LogOk(d, key) && Ahead(d, State(d), key) && State(d).recordCount < MAX_U64
    ensures
      var e := d.(checkpoint := Signed(Advanced(State(d), HeadOf(Lines(d), Zero)), key));
      LogOk(e, key) && Settled(e, State(e), key) && Lines(e) == Lines(d)
  {
    ShapeLines(d, key);
    var e := d.(checkpoint := Signed(Advanced(State(d), HeadOf(Lines(d), Zero)), key));
    ArchivedDependsOnArchives(d, e, State(d).segment);
  }

  /** The archives of an interrupted rotation scan to the checkpoint. */
  lemma RenamedScan(d: Dir, key: Key)
    requires LogOk(d, key) && Renamed(d, State(d), key)
    ensures HasArchives(d, State(d).segment + 1)
    ensures ScanSegments(ArchiveFiles(d.archives, State(d).segment + 1), 0, Zero, key)
            == Valid(State(d).recordCount, State(d).head)
    ensures State(d).segment < MAX_U64
  {
    var c := State(d);
    ShapeLines(d, key);
    ArchivedIsLinked(d, c.segment + 1, c, key);
    BoundaryMeansChain(ArchiveFiles(d.archives, c.segment + 1), c.recordCount, c.head, key);
    ArchivesAreNonEmpty(d, c.segment + 1);
  }

  lemma RotationEmpties(d: Dir, key: Key)
    requires LogOk(d, key) && Renamed(d, State(d), key)
    ensures
      var e := d.(active := Some(EMPTY));
      LogOk(e, key) && Renamed(e, State(e), key) && Lines(e) == Lines(d)
  {
    var c := State(d);
    var e := d.(active := Some(EMPTY));
    ArchivedDependsOnArchives(d, e, c.segment);
    ArchivedDependsOnArchives(d, e, c.segment + 1);
    assert ActiveLines(e) == ActiveLines(d) == [];
  }

  lemma RotationCommits(d: Dir, key: Key)
    requires LogOk(d, key) && Renamed(d, State(d), key) && d.active == Some(EMPTY)
    ensures
      var f := d.(checkpoint := Signed(NextSegment(State(d)), key));
      LogOk(f, key) && Settled(f, State(f), key) && Lines(f) == Lines(d)
  {
    var c := State(d);
    var f := d.(checkpoint := Signed(NextSegment(c), key));
    ShapeLines(d, key);
    ArchivedDependsOnArchives(d, f, c.segment + 1);
    assert Archived(d, c.segment + 1) + [] == Archived(d, c.segment + 1);
  }

  lemma RotationCompletes(d: Dir, key: Key)
    requires LogOk(d, key) && Renamed(d, State(d), key)
    ensures
      var e := d.(active := Some(EMPTY));
      var f := e.(checkpoint := Signed(NextSegment(State(d)), key));
      && LogOk(e, key) && Renamed(e, State(e), key) && Lines(e) == Lines(d)
      && LogOk(f, key) && Settled(f, State(f), key) && Lines(f) == Lines(d)
  {
    RotationEmpties(d, key);
    RotationCommits(d.(active := Some(EMPTY)), key);
  }

  /** An active segment moved into the archives is stored there. */
  lemma StoredMoves(d: Dir, n: nat)
    requires Stored(d, n) && d.active.Some? && d.active.value.tail == 0 && d.active.value.lines != []
    ensures
      var e := d.(active := None, archives := d.archives[n := d.active.value]);
      && n !in d.archives && Stored(e, n + 1)
      && Archived(e, n) == Archived(d, n) && Archived(e, n + 1) == Archived(d, n) + ActiveLines(d)
  {
    var e := d.(active := None, archives := d.archives[n := d.active.value]);
    ArchivedDependsOnArchives(d, e, n);
    ArchivedGrows(e, n);
  }

  lemma RotationStarts(d: Dir, key: Key)
    requires LogOk(d, key) && Settled(d, State(d), key) && d.active.value != EMPTY
    ensures State(d).segment !in d.archives
    ensures
      var e := d.(active := None, archives := d.archives[State(d).segment := d.active.value]);
      LogOk(e, key) && Renamed(e, State(e), key) && Lines(e) == Lines(d)
  {
    var c := State(d);
    ShapeLines(d, key);
    var e := d.(active := None, archives := d.archives[c.segment := d.active.value]);
    StoredMoves(d, c.segment);
    assert Archived(e, c.segment + 1) + [] == Archived(e, c.segment + 1);
  }

  /** The record the log signs next. */
  ghost function Next(d: Dir, event: Event, key: Key): AuditRecord {
    SignRecord(|Lines(d)|, HeadOf(Lines(d), Zero), event, key)
  }

  lemma StoredAppend(d: Dir, n: nat, line: Line)
    requires Stored(d, n) && d.active.Some? && d.active.value.tail == 0 && line.Entry?
    requires Bytes(d.active.value) + line.size <= MAX_ACTIVE_VERIFY_BYTES
    ensures
      var e := d.(active := Some(Segment(d.active.value.lines + [line], 0)));
      Stored(e, n) && Archived(e, n) == Archived(d, n)
  {
    ArchivedDependsOnArchives(d, d.(active := Some(Segment(d.active.value.lines + [line], 0))), n);
    BytesAppend(d.active.value.lines, line);
  }

  lemma AppendGoesAhead(d: Dir, event: Event, size: Size, key: Key)
    requires LogOk(d, key) && Settled(d, State(d), key)
    requires Bytes(d.active.value) + size <= MAX_ACTIVE_VERIFY_BYTES
    ensures
      var line := Entry(Next(d, event, key), size);
      var e := d.(active := Some(Segment(d.active.value.lines + [line], 0)));
      LogOk(e, key) && Ahead(e, State(e), key) && Lines(e) == Lines(d) + [line]
  {
    var c := State(d);
    ShapeLines(d, key);
    var line := Entry(Next(d, event, key), size);
    var e := d.(active := Some(Segment(d.active.value.lines + [line], 0)));
    LinkedAppend(Lines(d), event, size, key);
    StoredAppend(d, c.segment, line);
    assert Archived(e, c.segment) + ActiveLines(e) == Lines(d) + [line];
  }

  lemma AppendTears(d: Dir, kept: nat, key: Key)
    requires LogOk(d, key) && Settled(d, State(d), key)
    requires 0 < kept && Bytes(d.active.value) + kept <= MAX_ACTIVE_VERIFY_BYTES
    ensures
      var e := d.(active := Some(d.active.value.(tail := kept)));
      LogOk(e, key) && Torn(e, State(e), key) && Lines(e) == Lines(d)
  {
    var e := d.(active := Some(d.active.value.(tail := kept)));
    ShapeLines(d, key);
    ArchivedDependsOnArchives(d, e, State(d).segment);
  }
}
