/** The byte encoding that is hashed into an operation digest
(crates/sv-presence/src/op.rs). The hash is ideal: a digest is the hashed bytes
themselves. Strings are their UTF-8 bytes. */
module OpEncoding {

  type Byte = n: int | 0 <= n < 256 witness 0

  const TWO_TO_THE_64: nat := 0x1_0000_0000_0000_0000

  /** `sv-presence-op-v1` in ASCII. */
  const DOMAIN: seq<Byte> :=
    [0x73, 0x76, 0x2d, 0x70, 0x72, 0x65, 0x73, 0x65, 0x6e, 0x63, 0x65, 0x2d, 0x6f, 0x70, 0x2d, 0x76, 0x31]

  datatype Field = Field(name: seq<Byte>, value: seq<Byte>, shown: bool)

  datatype OpDescriptor = OpDescriptor(kind: seq<Byte>, fields: seq<Field>)

  datatype OpDigest = OpDigest(hashed: seq<Byte>)

  // ---- the encoding --------------------------------------------------------------

  /** The low `width` bytes of `n`, most significant first. */
  function BigEndian(n: nat, width: nat): (r: seq<Byte>)
    ensures |r| == width
  {
    if width == 0 then [] else BigEndian(n / 256, width - 1) + [n % 256]
  }

  /** How lengths are written: eight bytes, big-endian. */
  function WriteLength(n: nat): seq<Byte> {
    BigEndian(n, 8)
  }

  // The parts below take the way lengths are written as a parameter.

  function LengthPrefixed(write: nat -> seq<Byte>, bytes: seq<Byte>): seq<Byte> {
    write(|bytes|) + bytes
  }

  function EncodeField(write: nat -> seq<Byte>, field: Field): seq<Byte> {
    [if field.shown then 1 else 0] + LengthPrefixed(write, field.name) + LengthPrefixed(write, field.value)
  }

  function EncodeFields(write: nat -> seq<Byte>, fields: seq<Field>): seq<Byte> {
    if fields == [] then [] else EncodeField(write, fields[0]) + EncodeFields(write, fields[1..])
  }

  function EncodeBody(write: nat -> seq<Byte>, op: OpDescriptor): seq<Byte> {
    LengthPrefixed(write, op.kind) + write(|op.fields|) + EncodeFields(write, op.fields)
  }

  function Encode(op: OpDescriptor): seq<Byte> {
    DOMAIN + EncodeBody(WriteLength, op)
  }

  /** What `SHA-256` is fed, in the order it is fed. */
  class Hasher {
    var fed: seq<Byte>

    constructor ()
      ensures fed == []
    {
      fed := [];
    }

    method Update(bytes: seq<Byte>)
      modifies this
      ensures fed == old(fed) + bytes
    {
      fed := fed + bytes;
    }

    method Put(write: nat -> seq<Byte>, bytes: seq<Byte>)
      modifies this
      ensures fed == old(fed) + LengthPrefixed(write, bytes)
    {
      Update(write(|bytes|));
      Update(bytes);
    }
  }

  method Digest(op: OpDescriptor) returns (digest: OpDigest)
    ensures digest == OpDigest(Encode(op))
  {
    var hasher := new Hasher();
    hasher.Update(DOMAIN);
    FeedBody(hasher, WriteLength, op);
    digest := OpDigest(hasher.fed);
  }

  method FeedBody(hasher: Hasher, write: nat -> seq<Byte>, op: OpDescriptor)
    modifies hasher
    ensures hasher.fed == old(hasher.fed) + EncodeBody(write, op)
  {
    hasher.Put(write, op.kind);
    hasher.Update(write(|op.fields|));
    FeedFields(hasher, write, op.fields);
  }

  method FeedFields(hasher: Hasher, write: nat -> seq<Byte>, fields: seq<Field>)
    modifies hasher
    ensures hasher.fed == old(hasher.fed) + EncodeFields(write, fields)
  {
    assert fields[..0] == [];
    for i := 0 to |fields|
      invariant hasher.fed == old(hasher.fed) + EncodeFields(write, fields[..i])
    {
      FeedField(hasher, write, fields[i]);
      assert hasher.fed == old(hasher.fed) + EncodeFields(write, fields[..i + 1]) by {
        EncodeFieldsAppend(write, fields[..i], fields[i]);
        assert fields[..i] + [fields[i]] == fields[..i + 1];
      }
    }
    assert fields[..|fields|] == fields;
  }

  method FeedField(hasher: Hasher, write: nat -> seq<Byte>, field: Field)
    modifies hasher
    ensures hasher.fed == old(hasher.fed) + EncodeField(write, field)
  {
    hasher.Update([if field.shown then 1 else 0]);
    hasher.Put(write, field.name);
    hasher.Put(write, field.value);
  }

  lemma {:induction false} EncodeFieldsAppend(write: nat -> seq<Byte>, fields: seq<Field>, last: Field)
    ensures EncodeFields(write, fields + [last]) == EncodeFields(write, fields) + EncodeField(write, last)
    decreases |fields|
  {
    if fields == [] {
      assert [last][1..] == [];
    } else {
      assert (fields + [last])[1..] == fields[1..] + [last];
      EncodeFieldsAppend(write, fields[1..], last);
    }
  }

  // ---- it is injective -------------------------------------------------------------

  function Power256(width: nat): nat {
    if width == 0 then 1 else 256 * Power256(width - 1)
  }

  lemma {:induction false} BigEndianInjective(m: nat, n: nat, width: nat)
    requires m < Power256(width) && n < Power256(width) && BigEndian(m, width) == BigEndian(n, width)
    ensures m == n
    decreases width
  {
    if width > 0 {
      var a, b := BigEndian(m / 256, width - 1), BigEndian(n / 256, width - 1);
      assert a == BigEndian(m, width)[..width - 1] && b == BigEndian(n, width)[..width - 1];
      assert BigEndian(m, width)[width - 1] == m % 256 && BigEndian(n, width)[width - 1] == n % 256;
      BigEndianInjective(m / 256, n / 256, width - 1);
    }
  }

  /** Lengths below 2^64 are written in eight bytes that tell them apart. */
  ghost predicate Distinguishes(write: nat -> seq<Byte>) {
    && (forall n: nat :: |write(n)| == 8)
    && (forall m: nat, n: nat :: m < TWO_TO_THE_64 && n < TWO_TO_THE_64 && write(m) == write(n) ==> m == n)
  }

  lemma EightBytesDistinguish()
    ensures Distinguishes(WriteLength)
  {
    assert Power256(8) == TWO_TO_THE_64 by {
      assert Power256(2) == 0x1_0000;
      assert Power256(4) == 0x1_0000_0000;
      assert Power256(6) == 0x1_0000_0000_0000;
    }
    forall m: nat, n: nat | m < TWO_TO_THE_64 && n < TWO_TO_THE_64 && WriteLength(m) == WriteLength(n) ensures m == n {
      BigEndianInjective(m, n, 8);
    }
  }

  /** Equal byte strings with prefixes of equal length split alike. */
  lemma SplitAlike(p: seq<Byte>, x: seq<Byte>, q: seq<Byte>, y: seq<Byte>)
    requires p + x == q + y && |p| == |q|
    ensures p == q && x == y
  {
    assert p == (p + x)[..|p|] && q == (q + y)[..|q|];
    assert x == (p + x)[|p|..] && y == (q + y)[|q|..];
  }

  lemma PrefixedSplitsAlike(write: nat -> seq<Byte>, a: seq<Byte>, x: seq<Byte>, b: seq<Byte>, y: seq<Byte>)
    requires Distinguishes(write) && |a| < TWO_TO_THE_64 && |b| < TWO_TO_THE_64
    requires LengthPrefixed(write, a) + x == LengthPrefixed(write, b) + y
    ensures a == b && x == y
  {
    var m, n := write(|a|), write(|b|);
    assert m + (a + x) == LengthPrefixed(write, a) + x && n + (b + y) == LengthPrefixed(write, b) + y;
    SplitAlike(m, a + x, n, b + y);
    SplitAlike(a, x, b, y);
  }

  /** Every length fits the 64 bits it is written in. */
  predicate FieldFits(field: Field) {
    |field.name| < TWO_TO_THE_64 && |field.value| < TWO_TO_THE_64
  }

  predicate Fits(op: OpDescriptor) {
    && |op.kind| < TWO_TO_THE_64 && |op.fields| < TWO_TO_THE_64
    && forall i :: 0 <= i < |op.fields| ==> FieldFits(op.fields[i])
  }

  lemma FieldSplitsAlike(write: nat -> seq<Byte>, f: Field, x: seq<Byte>, g: Field, y: seq<Byte>)
    requires Distinguishes(write) && FieldFits(f) && FieldFits(g)
    requires EncodeField(write, f) + x == EncodeField(write, g) + y
    ensures f == g && x == y
  {
    var s: seq<Byte>, t: seq<Byte> := [if f.shown then 1 else 0], [if g.shown then 1 else 0];
    var fx, gy := LengthPrefixed(write, f.value) + x, LengthPrefixed(write, g.value) + y;
    assert s + (LengthPrefixed(write, f.name) + fx) == EncodeField(write, f) + x;
    assert t + (LengthPrefixed(write, g.name) + gy) == EncodeField(write, g) + y;
    SplitAlike(s, LengthPrefixed(write, f.name) + fx, t, LengthPrefixed(write, g.name) + gy);
    assert s[0] == t[0];
    PrefixedSplitsAlike(write, f.name, fx, g.name, gy);
    PrefixedSplitsAlike(write, f.value, x, g.value, y);
  }

  lemma {:induction false} FieldsInjective(write: nat -> seq<Byte>, fs: seq<Field>, gs: seq<Field>)
    requires Distinguishes(write) && |fs| == |gs| && EncodeFields(write, fs) == EncodeFields(write, gs)
    requires forall i :: 0 <= i < |fs| ==> FieldFits(fs[i]) && FieldFits(gs[i])
    ensures fs == gs
    decreases |fs|
  {
    if fs != [] {
      FieldSplitsAlike(write, fs[0], EncodeFields(write, fs[1..]), gs[0], EncodeFields(write, gs[1..]));
      FieldsInjective(write, fs[1..], gs[1..]);
      assert fs == [fs[0]] + fs[1..] && gs == [gs[0]] + gs[1..];
    }
  }

  lemma BodyInjective(write: nat -> seq<Byte>, op: OpDescriptor, other: OpDescriptor)
    requires Distinguishes(write) && Fits(op) && Fits(other) && EncodeBody(write, op) == EncodeBody(write, other)
    ensures op == other
  {
    var m, n := write(|op.fields|), write(|other.fields|);
    var fs, gs := EncodeFields(write, op.fields), EncodeFields(write, other.fields);
    assert EncodeBody(write, op) == LengthPrefixed(write, op.kind) + (m + fs);
    assert EncodeBody(write, other) == LengthPrefixed(write, other.kind) + (n + gs);
    PrefixedSplitsAlike(write, op.kind, m + fs, other.kind, n + gs);
    SplitAlike(m, fs, n, gs);
    FieldsInjective(write, op.fields, other.fields);
  }

  /** Equal digests mean the same kind and the same fields, in order, with the
  same values and the same shown flags. */
  lemma DigestInjective(op: OpDescriptor, other: OpDescriptor)
    requires Fits(op) && Fits(other) && OpDigest(Encode(op)) == OpDigest(Encode(other))
    ensures op == other
  {
    EightBytesDistinguish();
    SplitAlike(DOMAIN, EncodeBody(WriteLength, op), DOMAIN, EncodeBody(WriteLength, other));
    BodyInjective(WriteLength, op, other);
  }
}
