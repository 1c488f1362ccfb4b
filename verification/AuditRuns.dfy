/** Creating and opening an audit log, and every run of its operations
(crates/sv-audit/src/lib.rs). */
module AuditRuns {
  import opened Crypto
  import opened Effects
  import opened AuditChain
  import opened AuditVerify
  import opened AuditShapes
  import opened AuditLog

  // ---- the sequence ceiling ----------------------------------------------------------

  /** One record in the last position but one, and an authentic checkpoint that
  counts 2^64 - 1 records and names another head. */
  function CeilingDir(key: Key, event: Event): Dir {
    var last := SignRecord(MAX_U64 - 1, Zero, event, key);
    var ahead := CheckpointState(FORMAT_VERSION, MAX_U64, Noise(0), 0, 1, Zero);
    Dir(Signed(ahead, key), Some(Segment([Entry(last, 1)], 0)), map[])
  }

  /** At the ceiling recovery reports success and leaves a checkpoint that the
  append-time check rejects. */
  method CeilingIsMisread(key: Key, event: Event) returns (store: Store, r: Outcome<bool>)
    ensures fresh(store) && r == Ok(true) && !ActiveAccepted(store.dir, key)
  {
    var d := CeilingDir(key, event);
    CeilingIsSaturated(key, event);
    store := new Store(d);
    r := Recover(store, key);
  }

  lemma CeilingIsSaturated(key: Key, event: Event)
    ensures Saturated(CeilingDir(key, event), key)
  {
    var d := CeilingDir(key, event);
    ScanOne(d.active.value, MAX_U64 - 1, Zero, key);
    assert d.active.value.lines[1..] == [];
    assert IsText(d.active.value.lines);
    assert ScanLines(d.active.value.lines, MAX_U64 - 1, Zero, key)
        == Valid(MAX_U64, d.active.value.lines[0].record.mac);
    assert LoadCheckpoint(d, key).Some?;
  }

  // ---- create and open ---------------------------------------------------------------

  function Born(d: Dir, key: Key): Dir {
    d.(active := Some(EMPTY), checkpoint := Signed(GENESIS, key))
  }

  lemma GenesisSettles(d: Dir, key: Key)
    requires Unborn(d)
    ensures LogOk(Born(d, key), key) && Settled(Born(d, key), State(Born(d, key)), key) && Lines(Born(d, key)) == []
  {
    var e := Born(d, key);
    assert ArchiveFiles(e.archives, 0) == [];
    assert Archived(e, 0) + ActiveLines(e) == [];
  }

  /** The directories that creating a log can leave. */
  ghost predicate CreateSteps(d: Dir, e: Dir, r: Outcome<()>, calm: bool, key: Key) {
    && (e == d || e == d.(active := Some(EMPTY)) || e == Born(d, key))
    && (r.Ok? ==> e == Born(d, key))
    && (calm ==> r.Ok?)
  }

  lemma CreateKeepsInv(d: Dir, e: Dir, r: Outcome<()>, calm: bool, key: Key)
    requires Unborn(d) && CreateSteps(d, e, r, calm, key)
    ensures AuditInv(e, key) && Lines(e) == []
    ensures r.Ok? ==> LogOk(e, key) && Settled(e, State(e), key)
  {
    GenesisSettles(d, key);
  }

  method Create(store: Store, key: Key) returns (r: Outcome<()>)
    modifies store
    ensures old(store.fates) == [] ==> store.fates == []
    ensures r.Ok? ==>
              && Unborn(old(store.dir))
              && LogOk(store.dir, key) && Settled(store.dir, State(store.dir), key) && Lines(store.dir) == []
    ensures Unborn(old(store.dir)) ==>
              && AuditInv(store.dir, key) && Lines(store.dir) == []
              && CreateSteps(old(store.dir), store.dir, r, old(store.fates) == [], key)
    ensures !Unborn(old(store.dir)) ==> r.Err? && store.dir == old(store.dir)
  {
    if store.dir.active.Some? { EmptyIffNoBytes(store.dir.active.value); }
    if store.dir.archives != map[] || store.dir.checkpoint.Some? {
      return Err;
    }
    if store.dir.active.Some? && Bytes(store.dir.active.value) != 0 {
      return Err;
    }
    r := WriteGenesis(store, key);
    CreateKeepsInv(old(store.dir), store.dir, r, old(store.fates) == [], key);
  }

  /** The durable steps of creating a log. */
  method WriteGenesis(store: Store, key: Key) returns (r: Outcome<()>)
    requires Unborn(store.dir)
    modifies store
    ensures old(store.fates) == [] ==> store.fates == []
    ensures CreateSteps(old(store.dir), store.dir, r, old(store.fates) == [], key)
  {
    if store.dir.active.None? {
      var io := store.Commit(store.dir.(active := Some(EMPTY)));
      if !io.Done? {
        return FromStep(io, ());
      }
    }
    var io := store.Commit(store.dir.(checkpoint := Signed(GENESIS, key)));
    r := FromStep(io, ());
  }

  /** In every shape the committed archives verify. */
  lemma ArchivesVerify(d: Dir, key: Key)
    requires LogOk(d, key)
    ensures Accepts(VerifyCommittedArchives(d, State(d), key))
  {
    var c := State(d);
    ArchivedIsLinked(d, if Renamed(d, c, key) then c.segment + 1 else c.segment, c, key);
    BoundaryMeansChain(ArchiveFiles(d.archives, c.segment), c.recordCount - c.activeCount, c.activeStart, key);
  }

  /** In every shape the committed archives verify, and a settled directory
  passes full verification. */
  lemma ShapedVerifies(d: Dir, key: Key)
    requires LogOk(d, key)
    ensures Accepts(VerifyCommittedArchives(d, State(d), key))
    ensures Settled(d, State(d), key) <==> Accepts(VerifyAgainst(d, State(d), key))
  {
    ArchivesVerify(d, key);
    if d.active.Some? { ShapedScan(d, key); }
    ShapesAreExclusive(d, key);
    FastCheckAgrees(d, State(d), key);
  }

  /** What opening does to a directory that the log itself produced. */
  ghost predicate OpensTo(d: Dir, e: Dir, r: Outcome<()>, calm: bool, key: Key) {
    && KeepsLog(d, e, key)
    && (r.Ok? ==> Settled(e, State(e), key))
    && (HasCheckpoint(d) && Settled(d, State(d), key) ==> r.Ok? && e == d)
    && (Wedged(d, key) ==> r.Err? && e == d)
    && (!Wedged(d, key) && calm ==> r.Ok?)
  }

  /** A recovered directory passes full verification. */
  lemma RecoveredOpens(d: Dir, e: Dir, recovered: Outcome<bool>, r: Outcome<()>, calm: bool, key: Key)
    requires LogOk(d, key) && Recovers(d, e, recovered, key)
    requires calm && !Wedged(d, key) ==> recovered == Ok(true)
    requires recovered.Err? ==> r.Err?
    requires recovered.Stopped? ==> r.Stopped?
    requires
      recovered.Ok? ==>
        r == if LoadCheckpoint(e, key) == Some(State(e)) && Accepts(VerifyAgainst(e, State(e), key)) then Ok(())
             else Err
    ensures OpensTo(d, e, r, calm, key)
  {
    ShapedLoads(e, key);
    ShapedVerifies(e, key);
    ShapesAreExclusive(d, key);
  }

  method OpenLog(store: Store, key: Key) returns (r: Outcome<()>)
    modifies store
    ensures old(store.fates) == [] ==> store.fates == []
    ensures r.Ok? ==>
              LoadCheckpoint(store.dir, key).Some? && HoldsChain(store.dir, LoadCheckpoint(store.dir, key).value, key)
    ensures LoadCheckpoint(old(store.dir), key).None? ==> r.Err? && store.dir == old(store.dir)
    ensures LogOk(old(store.dir), key) ==> OpensTo(old(store.dir), store.dir, r, old(store.fates) == [], key)
    ensures SegmentsStay(old(store.dir), store.dir)
  {
    ghost var d := store.dir;
    ghost var calm := store.fates == [];
    if LogOk(d, key) { ShapedLoads(d, key); ShapedVerifies(d, key); }
    var loaded := LoadCheckpoint(store.dir, key);
    if loaded.None? || !Accepts(VerifyCommittedArchives(store.dir, loaded.value, key)) {
      return Err;
    }
    var recovered := Recover(store, key);
    if LogOk(d, key) { RecoveryKeepsLog(d, store.dir, recovered, calm, key); ShapedLoads(store.dir, key); }
    loaded := LoadCheckpoint(store.dir, key);
    if !recovered.Ok? {
      r := if recovered.Err? then Err else Stopped;
    } else if loaded.None? || !Accepts(VerifyAgainst(store.dir, loaded.value, key)) {
      r := Err;
    } else {
      AcceptanceMeansChain(store.dir, loaded.value, key);
      r := Ok(());
    }
    if LogOk(d, key) { RecoveredOpens(d, store.dir, recovered, r, calm, key); }
  }

  method NewLog(key: Key) returns (store: Store)
    ensures fresh(store) && store.fates == [] && LogOk(store.dir, key) && Settled(store.dir, State(store.dir), key)
    ensures store.dir.active == Some(EMPTY)
  {
    store := new Store(Dir(None, None, map[]));
    var created := Create(store, key);
  }

  /** A new log whose first record is cut short inside its line: from then on recording
  and opening are refused, and nothing changes any more. */
  method TearNewLog(key: Key, event: Event, size: Size, kept: nat, another: Event, length: Size)
    returns (store: Store, torn: Outcome<()>, recorded: Outcome<()>, reopened: Outcome<()>)
    requires 0 < kept < size <= MAX_ACTIVE_VERIFY_BYTES
    ensures fresh(store) && LogOk(store.dir, key) && Wedged(store.dir, key)
    ensures !torn.Ok? && recorded.Err? && reopened.Err?
  {
    store := NewLog(key);
    store.fates := [(Crash(false), kept)];
    torn := Record(store, key, MAX_ACTIVE_VERIFY_BYTES, event, size);
    TailIsTorn(store.dir, key);
    recorded := Record(store, key, MAX_ACTIVE_VERIFY_BYTES, another, length);
    reopened := OpenLog(store, key);
  }

  // ---- runs ----------------------------------------------------------------------------

  datatype AuditCommand =
    | CreateLog
    | Reopen
    | RecordEvent(event: Event, size: Size, maxBytes: nat)

  /** What one command may do to the lines on disk: a record may add its event, and does
  if it reports success; nothing else changes them. */
  ghost predicate LinesStep(command: AuditCommand, key: Key, before: seq<Line>, after: seq<Line>, r: Outcome<()>) {
    || (after == before && !(command.RecordEvent? && r.Ok?))
    || (&& command.RecordEvent? && command.size <= MAX_ACTIVE_VERIFY_BYTES
        && Extends(before, after, command.event, command.size, key))
  }

  /** Containers and files are named by their keyed digests, and by nothing else. */
  ghost predicate NamesHidden(lines: seq<Line>, key: Key) {
    forall i :: 0 <= i < |lines| && lines[i].Entry? ==>
                  && Hidden(lines[i].record.payload.event.container, key)
                  && Hidden(lines[i].record.payload.event.fileName, key)
  }

  predicate Hidden(field: Option<Field>, key: Key) {
    field.Some? ==> field.value.Digest? && field.value.key == key
  }

  lemma HiddenStays(command: AuditCommand, key: Key, before: seq<Line>, after: seq<Line>, r: Outcome<()>)
    requires LinesStep(command, key, before, after, r) && NamesHidden(before, key)
    ensures NamesHidden(after, key) && before <= after
  {
    if after != before {
      forall i | 0 <= i < |before| ensures after[i] == before[i] {
        assert after[i] == after[..|before|][i];
      }
    }
  }

  method Perform(store: Store, key: Key, command: AuditCommand) returns (r: Outcome<()>)
    requires AuditInv(store.dir, key)
    modifies store
    ensures AuditInv(store.dir, key)
    ensures LinesStep(command, key, old(Lines(store.dir)), Lines(store.dir), r)
    ensures LogOk(old(store.dir), key) && Wedged(old(store.dir), key) ==> r.Err? && store.dir == old(store.dir)
    ensures forall limit :: Segmented(old(store.dir), limit) && (command.RecordEvent? ==> command.maxBytes <= limit) ==>
                              Segmented(store.dir, limit)
  {
    match command
    case CreateLog =>
      r := Create(store, key);
    case Reopen =>
      r := OpenLog(store, key);
    case RecordEvent(event, size, maxBytes) =>
      r := Record(store, key, maxBytes, event, size);
  }

  /** The lines on disk after each of the first commands: they only ever grow, by the
  commands that say so, and no name is among them. */
  ghost predicate Grows(script: seq<AuditCommand>, history: seq<seq<Line>>, results: seq<Outcome<()>>, key: Key) {
    && |history| == |results| + 1 <= |script| + 1 && history[0] == []
    && (forall i :: 0 <= i < |results| ==> LinesStep(script[i], key, history[i], history[i + 1], results[i]))
    && (forall i, j :: 0 <= i <= j < |history| ==> history[i] <= history[j])
    && (forall i :: 0 <= i < |history| ==> NamesHidden(history[i], key))
  }

  lemma GrowsOn(script: seq<AuditCommand>, history: seq<seq<Line>>, results: seq<Outcome<()>>, key: Key,
                next: seq<Line>, r: Outcome<()>)
    requires Grows(script, history, results, key) && |results| < |script|
    requires LinesStep(script[|results|], key, history[|results|], next, r)
    ensures Grows(script, history + [next], results + [r], key)
  {
    var n := |results|;
    HiddenStays(script[n], key, history[n], next, r);
    forall i, j | 0 <= i <= j < n + 2 ensures (history + [next])[i] <= (history + [next])[j] {
      if j == n + 1 && i <= n { assert history[i] <= history[n] <= next; }
    }
  }

  /** No command uses a larger threshold than `limit`. */
  ghost predicate Within(script: seq<AuditCommand>, limit: nat) {
    forall i :: 0 <= i < |script| && script[i].RecordEvent? ==> script[i].maxBytes <= limit
  }

  lemma SegmentsAreSmall(d: Dir, key: Key)
    requires AuditInv(d, key)
    ensures d.active.Some? ==> Bytes(d.active.value) <= MAX_ACTIVE_VERIFY_BYTES
    ensures forall i :: i in d.archives ==>
                          d.archives[i].lines != [] && Bytes(d.archives[i]) <= MAX_ACTIVE_VERIFY_BYTES
  {
  }

  /** Every run from an empty directory, with every interruption: the directory
  stays in one of the known states, the log on disk only ever grows, one recorded
  event at a time, what was reported as recorded is there for good, no name is ever
  stored in clear, and every segment holds one record or stays within the largest
  threshold in use. */
  method RunAudit(store: Store, key: Key, script: seq<AuditCommand>, ghost limit: nat)
    returns (ghost history: seq<seq<Line>>, results: seq<Outcome<()>>)
    requires Unborn(store.dir)
    modifies store
    ensures AuditInv(store.dir, key)
    ensures |results| == |script| && Grows(script, history, results, key) && history[|script|] == Lines(store.dir)
    ensures Within(script, limit) ==> Segmented(store.dir, limit)
    ensures store.dir.active.Some? ==> Bytes(store.dir.active.value) <= MAX_ACTIVE_VERIFY_BYTES
    ensures forall i :: i in store.dir.archives ==>
              store.dir.archives[i].lines != [] && Bytes(store.dir.archives[i]) <= MAX_ACTIVE_VERIFY_BYTES
  {
    history, results := [Lines(store.dir)], [];
    for n := 0 to |script|
      invariant AuditInv(store.dir, key) && |results| == n
      invariant Grows(script, history, results, key) && history[n] == Lines(store.dir)
      invariant Within(script, limit) ==> Segmented(store.dir, limit)
    {
      var r := Perform(store, key, script[n]);
      GrowsOn(script, history, results, key, Lines(store.dir), r);
      history, results := history + [Lines(store.dir)], results + [r];
    }
    SegmentsAreSmall(store.dir, key);
  }
}
