/** The authenticated audit record chain (crates/sv-audit/src/lib.rs).

Authentication tags are terms of a free algebra: a tag determines the key and
the payload it was computed over, and nothing else equals it. A line of a
segment is what the JSON parser makes of it, together with its length in bytes,
newline included. */
module AuditChain {
  import opened Crypto

  const MAX_U64: nat := 0xFFFF_FFFF_FFFF_FFFF
  const FORMAT_VERSION: nat := 2

  datatype Field = Clear(text: string) | Digest(key: Key, field: Field)

  datatype Event = Event(action: nat, container: Option<Field>, fileName: Option<Field>, detail: string)

  datatype Mac =
    | Zero
    | RecordTag(key: Key, payload: Payload)
    | CheckpointTag(key: Key, state: CheckpointState)
    | Noise(id: nat)
    | NotHex(id: nat)

  datatype Payload = Payload(version: nat, sequence: nat, prev: Mac, event: Event)

  datatype AuditRecord = AuditRecord(payload: Payload, mac: Mac)

  datatype CheckpointState = CheckpointState(
    version: nat,
    recordCount: nat,
    head: Mac,
    segment: nat,
    activeCount: nat,
    activeStart: Mac)

  type Size = n: int | n > 0 witness 1

  datatype Line =
    | Entry(record: AuditRecord, size: Size)
    | Blank
    | Legacy(size: Size)
    | Garbage(size: Size)
    | NotUtf8(size: Size)

  /** The complete lines of a segment, and how many bytes follow the last
  newline. */
  datatype Segment = Segment(lines: seq<Line>, tail: nat)

  const EMPTY := Segment([], 0)

  predicate IsText(lines: seq<Line>) {
    forall i :: 0 <= i < |lines| ==> !lines[i].NotUtf8?
  }

  predicate Clean(segment: Segment) {
    segment.tail == 0 && IsText(segment.lines)
  }

  // ---- records ----------------------------------------------------------------

  function RedactField(key: Key, field: Option<Field>): Option<Field> {
    match field
    case None => None
    case Some(value) => Some(Digest(key, value))
  }

  function Redact(key: Key, event: Event): Event {
    event.(container := RedactField(key, event.container), fileName := RedactField(key, event.fileName))
  }

  function SignRecord(sequence: nat, prev: Mac, event: Event, key: Key): AuditRecord {
    var payload := Payload(FORMAT_VERSION, sequence, prev, event);
    AuditRecord(payload, RecordTag(key, payload))
  }

  predicate VerifyRecord(record: AuditRecord, sequence: nat, prev: Mac, key: Key) {
    && record.payload.version == FORMAT_VERSION
    && record.payload.sequence == sequence
    && record.payload.prev == prev
    && !record.payload.prev.NotHex?
    && record.mac == RecordTag(key, record.payload)
  }

  // ---- scanning ---------------------------------------------------------------

  datatype Scan =
    | Valid(entries: nat, head: Mac)
    | Invalid(at: nat, legacy: nat)
    | Overflow

  function ScanLines(lines: seq<Line>, sequence: nat, prev: Mac, key: Key): Scan
    decreases |lines|
  {
    if lines == [] then Valid(sequence, prev)
    else if lines[0].Legacy? then Invalid(sequence, 1)
    else if !lines[0].Entry? || !VerifyRecord(lines[0].record, sequence, prev, key) then Invalid(sequence, 0)
    else if sequence >= MAX_U64 then Overflow
    else ScanLines(lines[1..], sequence + 1, lines[0].record.mac, key)
  }

  function ScanSegment(segment: Segment, sequence: nat, prev: Mac, key: Key): Scan {
    if Clean(segment) then ScanLines(segment.lines, sequence, prev, key) else Invalid(sequence, 0)
  }

  function ScanSegments(segments: seq<Segment>, sequence: nat, prev: Mac, key: Key): Scan
    decreases |segments|
  {
    if segments == [] then Valid(sequence, prev)
    else
      var first := ScanSegment(segments[0], sequence, prev, key);
      if first.Valid? then ScanSegments(segments[1..], first.entries, first.head, key) else first
  }

  /** The nested loop over segments and their lines. */
  method ScanPathsFrom(segments: seq<Segment>, sequence: nat, prev: Mac, key: Key) returns (r: Scan)
    ensures r == ScanSegments(segments, sequence, prev, key)
  {
    var expectedSequence: nat, expectedPrev := sequence, prev;
    for i := 0 to |segments|
      invariant ScanSegments(segments, sequence, prev, key)
                == ScanSegments(segments[i..], expectedSequence, expectedPrev, key)
    {
      if !Clean(segments[i]) {
        return Invalid(expectedSequence, 0);
      }
      var lines := segments[i].lines;
      ghost var start, from := expectedSequence, expectedPrev;
      for j := 0 to |lines|
        invariant ScanLines(lines, start, from, key) == ScanLines(lines[j..], expectedSequence, expectedPrev, key)
      {
        if lines[j].Legacy? {
          return Invalid(expectedSequence, 1);
        }
        if !lines[j].Entry? || !VerifyRecord(lines[j].record, expectedSequence, expectedPrev, key) {
          return Invalid(expectedSequence, 0);
        }
        if expectedSequence >= MAX_U64 {
          return Overflow;
        }
        assert lines[j..][1..] == lines[j + 1..];
        expectedPrev, expectedSequence := lines[j].record.mac, expectedSequence + 1;
      }
      assert segments[i..][1..] == segments[i + 1..];
    }
    return Valid(expectedSequence, expectedPrev);
  }

  // ---- what a scan means --------------------------------------------------------

  /** The tag that position `i` of a chain must name. */
  function Before(lines: seq<Line>, i: nat, prev: Mac): Mac
    requires i <= |lines|
  {
    if i == 0 then prev else if lines[i - 1].Entry? then lines[i - 1].record.mac else Zero
  }

  function HeadOf(lines: seq<Line>, prev: Mac): Mac {
    Before(lines, |lines|, prev)
  }

  ghost predicate LinkedAt(lines: seq<Line>, i: nat, sequence: nat, prev: Mac, key: Key)
    requires i < |lines|
  {
    lines[i].Entry? && VerifyRecord(lines[i].record, sequence + i, Before(lines, i, prev), key)
  }

  /** Every line is a record that names its position and the tag before it and
  carries its own tag. */
  ghost predicate Linked(lines: seq<Line>, sequence: nat, prev: Mac, key: Key) {
    forall i :: 0 <= i < |lines| ==> LinkedAt(lines, i, sequence, prev, key)
  }

  lemma {:induction false} ScanMeansLinked(lines: seq<Line>, sequence: nat, prev: Mac, key: Key)
    requires sequence <= MAX_U64
    ensures ScanLines(lines, sequence, prev, key).Valid? <==>
              Linked(lines, sequence, prev, key) && sequence + |lines| <= MAX_U64
    ensures ScanLines(lines, sequence, prev, key).Valid? ==>
              ScanLines(lines, sequence, prev, key) == Valid(sequence + |lines|, HeadOf(lines, prev))
    ensures Linked(lines, sequence, prev, key) && sequence + |lines| > MAX_U64 ==>
              ScanLines(lines, sequence, prev, key).Overflow?
    decreases |lines|
  {
    if lines != [] {
      LinkedSplit(lines, 1, sequence, prev, key);
      assert Linked(lines[..1], sequence, prev, key) <==> LinkedAt(lines, 0, sequence, prev, key) by {
        assert LinkedAt(lines[..1], 0, sequence, prev, key) <==> LinkedAt(lines, 0, sequence, prev, key);
      }
      if LinkedAt(lines, 0, sequence, prev, key) && sequence < MAX_U64 {
        ScanMeansLinked(lines[1..], sequence + 1, lines[0].record.mac, key);
      }
    }
  }

  /** A scan that fails names the first line that does not belong there, and says of
  it whether it has the old format. */
  lemma {:induction false} FailureNamesFirst(lines: seq<Line>, sequence: nat, prev: Mac, key: Key)
    requires ScanLines(lines, sequence, prev, key).Invalid?
    ensures
      var scan := ScanLines(lines, sequence, prev, key);
      var i := scan.at - sequence;
      && 0 <= i < |lines| && Linked(lines[..i], sequence, prev, key) && !LinkedAt(lines, i, sequence, prev, key)
      && scan.legacy == if lines[i].Legacy? then 1 else 0
    decreases |lines|
  {
    if LinkedAt(lines, 0, sequence, prev, key) {
      FailureNamesFirst(lines[1..], sequence + 1, lines[0].record.mac, key);
      var i := ScanLines(lines, sequence, prev, key).at - sequence;
      LinkedSplit(lines[..i], 1, sequence, prev, key);
      assert lines[..i][1..] == lines[1..][..i - 1];
      assert LinkedAt(lines[..i][..1], 0, sequence, prev, key);
      assert Linked(lines[..i][..1], sequence, prev, key);
      assert LinkedAt(lines, i, sequence, prev, key) <==>
             LinkedAt(lines[1..], i - 1, sequence + 1, lines[0].record.mac, key);
    }
  }

  lemma LinkedSplit(lines: seq<Line>, n: nat, sequence: nat, prev: Mac, key: Key)
    requires n <= |lines|
    ensures Linked(lines, sequence, prev, key) <==>
            Linked(lines[..n], sequence, prev, key) && Linked(lines[n..], sequence + n, HeadOf(lines[..n], prev), key)
    ensures HeadOf(lines[n..], HeadOf(lines[..n], prev)) == HeadOf(lines, prev)
  {
    forall i | 0 <= i < |lines|
      ensures LinkedAt(lines, i, sequence, prev, key) <==>
              if i < n then LinkedAt(lines[..n], i, sequence, prev, key)
              else LinkedAt(lines[n..], i - n, sequence + n, HeadOf(lines[..n], prev), key)
    {
    }
    if Linked(lines, sequence, prev, key) {
      var rest, start, boundary := lines[n..], sequence + n, HeadOf(lines[..n], prev);
      forall i | 0 <= i < |rest| ensures LinkedAt(rest, i, start, boundary, key) {
        assert LinkedAt(lines, n + i, sequence, prev, key);
      }
    }
  }

  lemma LinkedJoin(a: seq<Line>, b: seq<Line>, sequence: nat, prev: Mac, key: Key)
    ensures Linked(a + b, sequence, prev, key) <==>
            Linked(a, sequence, prev, key) && Linked(b, sequence + |a|, HeadOf(a, prev), key)
    ensures HeadOf(a + b, prev) == HeadOf(b, HeadOf(a, prev))
  {
    assert (a + b)[..|a|] == a && (a + b)[|a|..] == b;
    LinkedSplit(a + b, |a|, sequence, prev, key);
  }

  /** Appending the record the log signs next extends the chain by one. */
  lemma LinkedAppend(lines: seq<Line>, event: Event, size: Size, key: Key)
    requires Linked(lines, 0, Zero, key)
    ensures Linked(lines + [Entry(SignRecord(|lines|, HeadOf(lines, Zero), event, key), size)], 0, Zero, key)
  {
    var entry := Entry(SignRecord(|lines|, HeadOf(lines, Zero), event, key), size);
    HeadIsHex(lines, 0, Zero, key);
    assert LinkedAt([entry], 0, |lines|, HeadOf(lines, Zero), key);
    assert Linked([entry], |lines|, HeadOf(lines, Zero), key);
    LinkedJoin(lines, [entry], 0, Zero, key);
  }

  lemma HeadIsHex(lines: seq<Line>, sequence: nat, prev: Mac, key: Key)
    requires Linked(lines, sequence, prev, key)
    ensures lines != [] ==> HeadOf(lines, prev).RecordTag?
  {
    if lines != [] {
      assert LinkedAt(lines, |lines| - 1, sequence, prev, key);
    }
  }

  // ---- segments are scanned as one chain ------------------------------------------

  function Flatten(segments: seq<Segment>): seq<Line> {
    if segments == [] then [] else segments[0].lines + Flatten(segments[1..])
  }

  lemma ScanOne(segment: Segment, sequence: nat, prev: Mac, key: Key)
    ensures ScanSegments([segment], sequence, prev, key) == ScanSegment(segment, sequence, prev, key)
  {
    assert [segment][1..] == [];
  }

  lemma {:induction false} ScanLinesJoin(a: seq<Line>, b: seq<Line>, sequence: nat, prev: Mac, key: Key)
    ensures
      var first := ScanLines(a, sequence, prev, key);
      ScanLines(a + b, sequence, prev, key)
      == if first.Valid? then ScanLines(b, first.entries, first.head, key) else first
    decreases |a|
  {
    if a == [] {
      assert a + b == b;
    } else {
      assert (a + b)[1..] == a[1..] + b;
      if a[0].Entry? && VerifyRecord(a[0].record, sequence, prev, key) && sequence < MAX_U64 {
        ScanLinesJoin(a[1..], b, sequence + 1, a[0].record.mac, key);
      }
    }
  }

  /** Where one segment ends and the next begins makes no difference. */
  lemma {:induction false} ScanFlattens(segments: seq<Segment>, sequence: nat, prev: Mac, key: Key)
    requires forall i :: 0 <= i < |segments| ==> Clean(segments[i])
    ensures ScanSegments(segments, sequence, prev, key) == ScanLines(Flatten(segments), sequence, prev, key)
    decreases |segments|
  {
    if segments != [] {
      ScanLinesJoin(segments[0].lines, Flatten(segments[1..]), sequence, prev, key);
      var first := ScanSegment(segments[0], sequence, prev, key);
      if first.Valid? {
        ScanFlattens(segments[1..], first.entries, first.head, key);
      }
    }
  }

  lemma {:induction false} ValidScanIsClean(segments: seq<Segment>, sequence: nat, prev: Mac, key: Key)
    requires ScanSegments(segments, sequence, prev, key).Valid?
    ensures forall i :: 0 <= i < |segments| ==> Clean(segments[i])
    decreases |segments|
  {
    if segments != [] {
      var first := ScanSegment(segments[0], sequence, prev, key);
      ValidScanIsClean(segments[1..], first.entries, first.head, key);
      forall i | 0 <= i < |segments| ensures Clean(segments[i]) {
        if i > 0 { assert segments[i] == segments[1..][i - 1]; }
      }
    }
  }

  // ---- tamper evidence -------------------------------------------------------------

  /** The records of a chain, whatever white space their JSON uses. */
  ghost function Records(lines: seq<Line>): seq<Option<AuditRecord>>
  {
    seq(|lines|, i requires 0 <= i < |lines| => if lines[i].Entry? then Some(lines[i].record) else None)
  }

  /** The last tag and the number of records determine every record: backward
  induction along the chain. */
  lemma {:induction false} HeadDeterminesChain(a: seq<Line>, b: seq<Line>, sequence: nat, p: Mac, q: Mac, key: Key)
    requires Linked(a, sequence, p, key) && Linked(b, sequence, q, key)
    requires |a| == |b| && HeadOf(a, p) == HeadOf(b, q)
    ensures Records(a) == Records(b) && p == q
    decreases |a|
  {
    if a != [] {
      var n := |a| - 1;
      assert LinkedAt(a, n, sequence, p, key) && LinkedAt(b, n, sequence, q, key);
      assert a[n].record == b[n].record;
      LinkedSplit(a, n, sequence, p, key);
      LinkedSplit(b, n, sequence, q, key);
      HeadDeterminesChain(a[..n], b[..n], sequence, p, q, key);
      assert Records(a) == Records(a[..n]) + [Some(a[n].record)];
      assert Records(b) == Records(b[..n]) + [Some(b[n].record)];
    }
  }
}
