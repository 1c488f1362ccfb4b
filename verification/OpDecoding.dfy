/** Reading an operation back from the bytes that are hashed into its digest. */
module OpDecoding {
  import opened Crypto
  import opened OpEncoding

  /** The number that bytes stand for, most significant first. */
  function Number(bytes: seq<Byte>): nat {
    if bytes == [] then 0 else 256 * Number(bytes[..|bytes| - 1]) + bytes[|bytes| - 1]
  }

  // The parts below take the way lengths are read as a parameter.

  function ReadLength(read: seq<Byte> -> nat, bytes: seq<Byte>): Option<(nat, seq<Byte>)> {
    if |bytes| < 8 then None else Some((read(bytes[..8]), bytes[8..]))
  }

  /** A length, and as many bytes. */
  function ReadPrefixed(read: seq<Byte> -> nat, bytes: seq<Byte>): Option<(seq<Byte>, seq<Byte>)> {
    match ReadLength(read, bytes)
    case None => None
    case Some((n, rest)) => if |rest| < n then None else Some((rest[..n], rest[n..]))
  }

  /** The flag, the name, the value. */
  function ReadField(read: seq<Byte> -> nat, bytes: seq<Byte>): Option<(Field, seq<Byte>)> {
    if bytes == [] || bytes[0] > 1 then None
    else
      match ReadPrefixed(read, bytes[1..])
      case None => None
      case Some((name, more)) =>
        match ReadPrefixed(read, more)
        case None => None
        case Some((value, rest)) => Some((Field(name, value, bytes[0] == 1), rest))
  }

  type FieldReader = seq<Byte> -> Option<(Field, seq<Byte>)>

  function ReadFields(one: FieldReader, bytes: seq<Byte>, n: nat): Option<(seq<Field>, seq<Byte>)>
    decreases n
  {
    if n == 0 then Some(([], bytes))
    else
      match one(bytes)
      case None => None
      case Some((field, more)) =>
        match ReadFields(one, more, n - 1)
        case None => None
        case Some((fields, rest)) => Some(([field] + fields, rest))
  }

  /** The kind, how many fields, the fields, and nothing else. */
  function ReadBody(read: seq<Byte> -> nat, bytes: seq<Byte>): Option<OpDescriptor> {
    match ReadPrefixed(read, bytes)
    case None => None
    case Some((kind, more)) =>
      match ReadLength(read, more)
      case None => None
      case Some((n, rest)) =>
        match ReadFields(bs => ReadField(read, bs), rest, n)
        case None => None
        case Some((fields, end)) => if end == [] then Some(OpDescriptor(kind, fields)) else None
  }

  function Ascii(text: string): seq<Byte> {
    seq(|text|, i requires 0 <= i < |text| => text[i] as int % 256)
  }

  const LABEL := "sv-presence-op-v1"

  function Decode(bytes: seq<Byte>): Option<OpDescriptor> {
    if |bytes| < |LABEL| || bytes[..|LABEL|] != Ascii(LABEL) then None else ReadBody(Number, bytes[|LABEL|..])
  }

  // ---- it undoes the encoding ---------------------------------------------------------------

  lemma {:induction false} NumberOfBigEndian(n: nat, width: nat)
    requires n < Power256(width)
    ensures Number(BigEndian(n, width)) == n
    decreases width
  {
    if width > 0 {
      NumberOfBigEndian(n / 256, width - 1);
      var init := BigEndian(n / 256, width - 1);
      assert BigEndian(n, width)[..width - 1] == init;
    }
  }

  /** Lengths below 2^64 are written in eight bytes that read back as them. */
  ghost predicate Inverts(read: seq<Byte> -> nat, write: nat -> seq<Byte>) {
    && (forall n: nat :: |write(n)| == 8)
    && (forall n: nat :: n < TWO_TO_THE_64 ==> read(write(n)) == n)
  }

  lemma NumberInverts()
    ensures Inverts(Number, WriteLength)
  {
    EightBytesCount();
    forall n: nat | n < TWO_TO_THE_64 ensures Number(WriteLength(n)) == n {
      NumberOfBigEndian(n, 8);
    }
  }

  lemma EightBytesCount()
    ensures Power256(8) == TWO_TO_THE_64
  {
    assert Power256(2) == 0x1_0000;
    assert Power256(4) == 0x1_0000_0000;
    assert Power256(6) == 0x1_0000_0000_0000;
  }

  lemma LengthReads(read: seq<Byte> -> nat, write: nat -> seq<Byte>, n: nat, rest: seq<Byte>)
    requires Inverts(read, write) && n < TWO_TO_THE_64
    ensures ReadLength(read, write(n) + rest) == Some((n, rest))
  {
    assert (write(n) + rest)[..8] == write(n) && (write(n) + rest)[8..] == rest;
  }

  lemma PrefixedReads(read: seq<Byte> -> nat, write: nat -> seq<Byte>, bytes: seq<Byte>, rest: seq<Byte>)
    requires Inverts(read, write) && |bytes| < TWO_TO_THE_64
    ensures ReadPrefixed(read, LengthPrefixed(write, bytes) + rest) == Some((bytes, rest))
  {
    assert LengthPrefixed(write, bytes) + rest == write(|bytes|) + (bytes + rest);
    LengthReads(read, write, |bytes|, bytes + rest);
    assert (bytes + rest)[..|bytes|] == bytes && (bytes + rest)[|bytes|..] == rest;
  }

  lemma FieldReads(read: seq<Byte> -> nat, write: nat -> seq<Byte>, field: Field, rest: seq<Byte>)
    requires Inverts(read, write) && FieldFits(field)
    ensures ReadField(read, EncodeField(write, field) + rest) == Some((field, rest))
  {
    var all, more := EncodeField(write, field) + rest, LengthPrefixed(write, field.value) + rest;
    assert all[1..] == LengthPrefixed(write, field.name) + more;
    PrefixedReads(read, write, field.name, more);
    PrefixedReads(read, write, field.value, rest);
  }

  /** A reader of single fields that undoes their encoding. */
  ghost predicate ReadsEach(one: FieldReader, put: Field -> seq<Byte>) {
    forall field: Field, rest: seq<Byte> :: FieldFits(field) ==> one(put(field) + rest) == Some((field, rest))
  }

  predicate AllFit(fields: seq<Field>) {
    forall i :: 0 <= i < |fields| ==> FieldFits(fields[i])
  }

  function PutAll(put: Field -> seq<Byte>, fields: seq<Field>): seq<Byte> {
    if fields == [] then [] else put(fields[0]) + PutAll(put, fields[1..])
  }

  lemma {:induction false} FieldsRead(one: FieldReader, put: Field -> seq<Byte>, fields: seq<Field>, rest: seq<Byte>)
    requires ReadsEach(one, put) && AllFit(fields)
    ensures ReadFields(one, PutAll(put, fields) + rest, |fields|) == Some((fields, rest))
    decreases |fields|
  {
    if fields == [] {
      assert PutAll(put, fields) + rest == rest;
    } else {
      var first, others := fields[0], fields[1..];
      var more := PutAll(put, others) + rest;
      assert PutAll(put, fields) + rest == put(first) + more;
      assert FieldFits(first) && AllFit(others);
      FieldsRead(one, put, others, rest);
      assert [first] + others == fields;
    }
  }

  lemma {:induction false} EncodedIsPut(write: nat -> seq<Byte>, fields: seq<Field>)
    ensures EncodeFields(write, fields) == PutAll(field => EncodeField(write, field), fields)
    decreases |fields|
  {
    if fields != [] { EncodedIsPut(write, fields[1..]); }
  }

  lemma EncodedFieldsRead(read: seq<Byte> -> nat, write: nat -> seq<Byte>, fields: seq<Field>, rest: seq<Byte>)
    requires Inverts(read, write) && AllFit(fields)
    ensures ReadFields(bs => ReadField(read, bs), EncodeFields(write, fields) + rest, |fields|) == Some((fields, rest))
  {
    var one: FieldReader, put := bs => ReadField(read, bs), field => EncodeField(write, field);
    forall field: Field, rest: seq<Byte> | FieldFits(field) ensures one(put(field) + rest) == Some((field, rest)) {
      FieldReads(read, write, field, rest);
    }
    FieldsRead(one, put, fields, rest);
    EncodedIsPut(write, fields);
  }

  lemma BodyReads(read: seq<Byte> -> nat, write: nat -> seq<Byte>, op: OpDescriptor)
    requires Inverts(read, write) && Fits(op)
    ensures ReadBody(read, EncodeBody(write, op)) == Some(op)
  {
    var fields := EncodeFields(write, op.fields);
    assert EncodeBody(write, op) == LengthPrefixed(write, op.kind) + (write(|op.fields|) + fields);
    PrefixedReads(read, write, op.kind, write(|op.fields|) + fields);
    LengthReads(read, write, |op.fields|, fields);
    EncodedFieldsRead(read, write, op.fields, []);
    assert fields + [] == fields;
  }

  lemma DomainIsLabel()
    ensures DOMAIN == Ascii(LABEL)
  {
    assert |DOMAIN| == |LABEL| == 17;
    forall i | 0 <= i < 17 ensures DOMAIN[i] == LABEL[i] as int % 256 {
    }
  }

  /** Every operation can be read back from what is hashed: nothing of it is left out, and
  it is laid out as the decoder expects. */
  lemma RoundTrip(op: OpDescriptor)
    requires Fits(op)
    ensures Decode(Encode(op)) == Some(op)
  {
    var body := EncodeBody(WriteLength, op);
    DomainIsLabel();
    assert (DOMAIN + body)[..|LABEL|] == DOMAIN && (DOMAIN + body)[|LABEL|..] == body;
    NumberInverts();
    BodyReads(Number, WriteLength, op);
  }
}
