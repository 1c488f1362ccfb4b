/** The keyring file: versioned data-encryption keys (DEKs) wrapped under one
key-encryption key (KEK). Every operation reads the file, edits it and writes
it back; the functions here are the edits, the lifecycle modules do the
writing. */
module Keyring {
  import opened Crypto

  const KEYRING_AAD := "sv-keyring-v1"

  /** DEK versions are unsigned 32-bit numbers. */
  const U32_MODULUS: nat := 0x1_0000_0000

  datatype WrappedDek = WrappedDek(version: nat, wrapped: Sealed<Key>)

  datatype KeyringFile = KeyringFile(active: nat, min: nat, entries: seq<WrappedDek>)

  datatype Unwrapped = Unwrapped(keys: map<nat, Key>, active: nat)

  // ---- what a keyring holds ---------------------------------------------------

  /** The version-to-DEK map inside a list of entries, whoever can open it. */
  function Deks(entries: seq<WrappedDek>): map<nat, Key> {
    if entries == [] then map[]
    else
      var last := entries[|entries| - 1];
      Deks(entries[..|entries| - 1])[last.version := last.wrapped.plain]
  }

  function MaxVersion(entries: seq<WrappedDek>): nat {
    if entries == [] then 0
    else
      var last := entries[|entries| - 1].version;
      var rest := MaxVersion(entries[..|entries| - 1]);
      if rest < last then last else rest
  }

  function MinVersion(entries: seq<WrappedDek>): nat {
    if entries == [] then 1
    else if |entries| == 1 then entries[0].version
    else
      var last := entries[|entries| - 1].version;
      var rest := MinVersion(entries[..|entries| - 1]);
      if last < rest then last else rest
  }

  /** Distinct positive versions. */
  predicate Distinct(entries: seq<WrappedDek>) {
    && (forall i :: 0 <= i < |entries| ==> 1 <= entries[i].version < U32_MODULUS)
    && (forall i, j :: 0 <= i < j < |entries| ==> entries[i].version != entries[j].version)
  }

  predicate WrappedBy(entries: seq<WrappedDek>, kek: Key) {
    forall i :: 0 <= i < |entries| ==>
                  entries[i].wrapped.key == kek && entries[i].wrapped.aad == KEYRING_AAD
  }

  function KekOf(kr: KeyringFile): Key
    requires kr.entries != []
  {
    kr.entries[0].wrapped.key
  }

  /** The version invariant: distinct versions, none below the minimum, the
  active one present, and every entry wrapped by one KEK. */
  predicate KeyringOk(kr: KeyringFile) {
    && kr.entries != []
    && Distinct(kr.entries)
    && WrappedBy(kr.entries, KekOf(kr))
    && (forall i :: 0 <= i < |kr.entries| ==> kr.min <= kr.entries[i].version)
    && kr.active in Deks(kr.entries)
  }

  /** No DEK is newer than the active one. */
  predicate Latest(kr: KeyringFile) {
    forall v :: v in Deks(kr.entries) ==> v <= kr.active
  }

  function ActiveDek(kr: KeyringFile): Key
    requires KeyringOk(kr)
  {
    Deks(kr.entries)[kr.active]
  }

  // ---- operations ---------------------------------------------------------------

  function Create(kek: Key, dek: Key): KeyringFile {
    KeyringFile(1, 1, [WrappedDek(1, Seal(kek, dek, KEYRING_AAD))])
  }

  function ReplaceWithSingle(kek: Key, version: nat, dek: Key): KeyringFile {
    KeyringFile(version, version, [WrappedDek(version, Seal(kek, dek, KEYRING_AAD))])
  }

  function UnwrapEntries(entries: seq<WrappedDek>, min: nat, kek: Key): Option<map<nat, Key>> {
    if entries == [] then Some(map[])
    else
      var last := entries[|entries| - 1];
      match UnwrapEntries(entries[..|entries| - 1], min, kek)
      case None => None
      case Some(keys) =>
        if last.version < min then Some(keys)
        else
          match Open(kek, last.wrapped, KEYRING_AAD)
          case None => None
          case Some(dek) => Some(keys[last.version := dek])
  }

  /** What `load` and `load_staged` compute. */
  function Load(kr: KeyringFile, kek: Key): Option<Unwrapped> {
    match UnwrapEntries(kr.entries, kr.min, kek)
    case None => None
    case Some(keys) =>
      if kr.active in keys then Some(Unwrapped(keys, kr.active)) else None
  }

  method UnwrapKeyring(kr: KeyringFile, kek: Key) returns (r: Option<Unwrapped>)
    ensures r == Load(kr, kek)
    ensures KeyringOk(kr) ==>
              r == if kek == KekOf(kr) then Some(Unwrapped(Deks(kr.entries), kr.active)) else None
  {
    var keys: map<nat, Key> := map[];
    assert kr.entries[..|kr.entries|] == kr.entries;
    for i := 0 to |kr.entries|
      invariant UnwrapEntries(kr.entries[..i], kr.min, kek) == Some(keys)
    {
      var entry := kr.entries[i];
      assert kr.entries[..i + 1][..i] == kr.entries[..i];
      if entry.version < kr.min {
        continue;
      }
      var dek := Open(kek, entry.wrapped, KEYRING_AAD);
      if dek.None? {
        UnwrapFailureSticks(kr.entries, i + 1, kr.min, kek);
        if KeyringOk(kr) { LoadOpens(kr, kek); }
        return None;
      }
      keys := keys[entry.version := dek.value];
    }
    if KeyringOk(kr) { LoadOpens(kr, kek); }
    r := if kr.active in keys then Some(Unwrapped(keys, kr.active)) else None;
  }

  /** The same DEKs under the same versions, possibly under another KEK. */
  predicate Twin(a: KeyringFile, b: KeyringFile) {
    && KeyringOk(a)
    && a.active == b.active && a.min == b.min && |a.entries| == |b.entries|
    && forall i :: 0 <= i < |a.entries| ==>
                     && a.entries[i].version == b.entries[i].version
                     && a.entries[i].wrapped.plain == b.entries[i].wrapped.plain
  }

  /** The replacement keyring of a custody change: each entry is opened under
  the old KEK and sealed again under the new one. */
  method RewrapUnderNewKek(kr: KeyringFile, oldKek: Key, newKek: Key) returns (r: Option<KeyringFile>)
    requires KeyringOk(kr)
    ensures r.Some? <==> oldKek == KekOf(kr)
    ensures r.Some? ==> Twin(r.value, kr) && KekOf(r.value) == newKek
  {
    var entries := kr.entries;
    for i := 0 to |entries|
      invariant |entries| == |kr.entries|
      invariant forall j :: i <= j < |entries| ==> entries[j] == kr.entries[j]
      invariant forall j :: 0 <= j < i ==>
                              && entries[j].version == kr.entries[j].version
                              && entries[j].wrapped == Seal(newKek, kr.entries[j].wrapped.plain, KEYRING_AAD)
      invariant i > 0 ==> oldKek == KekOf(kr)
    {
      var dek := Open(oldKek, entries[i].wrapped, KEYRING_AAD);
      if dek.None? {
        return None;
      }
      entries := entries[i := entries[i].(wrapped := Seal(newKek, dek.value, KEYRING_AAD))];
    }
    ResealedIsTwin(kr, entries, newKek);
    r := Some(kr.(entries := entries));
  }

  lemma ResealedIsTwin(kr: KeyringFile, entries: seq<WrappedDek>, newKek: Key)
    requires KeyringOk(kr) && |entries| == |kr.entries|
    requires forall j :: 0 <= j < |entries| ==>
                           && entries[j].version == kr.entries[j].version
                           && entries[j].wrapped == Seal(newKek, kr.entries[j].wrapped.plain, KEYRING_AAD)
    ensures Twin(kr.(entries := entries), kr) && KekOf(kr.(entries := entries)) == newKek
  {
    SameDeks(entries, kr.entries);
  }

  /** Append a DEK and make it active. The increment is unchecked: it wraps at
  the 32-bit boundary. */
  function AddActive(kr: KeyringFile, kek: Key, dek: Key): KeyringFile {
    var version := (MaxVersion(kr.entries) + 1) % U32_MODULUS;
    kr.(active := version, entries := kr.entries + [WrappedDek(version, Seal(kek, dek, KEYRING_AAD))])
  }

  predicate HasVersion(entries: seq<WrappedDek>, version: nat) {
    exists i :: 0 <= i < |entries| && entries[i].version == version
  }

  function SetActive(kr: KeyringFile, version: nat): Option<KeyringFile> {
    if HasVersion(kr.entries, version) then Some(kr.(active := version)) else None
  }

  function Without(entries: seq<WrappedDek>, version: nat): seq<WrappedDek> {
    if entries == [] then []
    else
      var last := entries[|entries| - 1];
      var rest := Without(entries[..|entries| - 1], version);
      if last.version == version then rest else rest + [last]
  }

  function RemoveVersion(kr: KeyringFile, version: nat): Option<KeyringFile> {
    if kr.active == version then None
    else
      var entries := Without(kr.entries, version);
      Some(kr.(entries := entries, min := MinVersion(entries)))
  }

  // ---- lemmas -------------------------------------------------------------------

  lemma {:induction false} DeksAt(entries: seq<WrappedDek>)
    requires Distinct(entries)
    ensures forall i :: 0 <= i < |entries| ==>
                          && entries[i].version in Deks(entries)
                          && Deks(entries)[entries[i].version] == entries[i].wrapped.plain
    ensures forall v :: v in Deks(entries) ==> HasVersion(entries, v)
  {
    if entries != [] {
      var init := entries[..|entries| - 1];
      DeksAt(init);
      forall v | v in Deks(entries) ensures HasVersion(entries, v) {
        if v in Deks(init) {
          var i :| 0 <= i < |init| && init[i].version == v;
          assert entries[i].version == v;
        } else {
          assert entries[|entries| - 1].version == v;
        }
      }
    }
  }

  lemma {:induction false} SameDeks(a: seq<WrappedDek>, b: seq<WrappedDek>)
    requires |a| == |b|
    requires forall i :: 0 <= i < |a| ==> a[i].version == b[i].version && a[i].wrapped.plain == b[i].wrapped.plain
    ensures Deks(a) == Deks(b)
  {
    if a != [] { SameDeks(a[..|a| - 1], b[..|b| - 1]); }
  }

  lemma {:induction false} UnwrapAll(entries: seq<WrappedDek>, min: nat, kek: Key)
    requires WrappedBy(entries, kek)
    requires forall i :: 0 <= i < |entries| ==> min <= entries[i].version
    ensures UnwrapEntries(entries, min, kek) == Some(Deks(entries))
  {
    if entries != [] { UnwrapAll(entries[..|entries| - 1], min, kek); }
  }

  lemma {:induction false} UnwrapFailureSticks(entries: seq<WrappedDek>, k: nat, min: nat, kek: Key)
    requires k <= |entries|
    requires UnwrapEntries(entries[..k], min, kek).None?
    ensures UnwrapEntries(entries, min, kek).None?
    decreases |entries|
  {
    if k == |entries| {
      assert entries[..k] == entries;
    } else {
      assert entries[..|entries| - 1][..k] == entries[..k];
      UnwrapFailureSticks(entries[..|entries| - 1], k, min, kek);
    }
  }

  /** A well-formed keyring opens under its own KEK, to exactly its own DEKs,
  and under no other key. */
  lemma LoadOpens(kr: KeyringFile, kek: Key)
    requires KeyringOk(kr)
    ensures Load(kr, kek) == if kek == KekOf(kr) then Some(Unwrapped(Deks(kr.entries), kr.active)) else None
  {
    if kek == KekOf(kr) {
      UnwrapAll(kr.entries, kr.min, kek);
    } else {
      assert kr.entries[..1][..0] == [];
      assert UnwrapEntries(kr.entries[..1], kr.min, kek).None?;
      UnwrapFailureSticks(kr.entries, 1, kr.min, kek);
    }
  }

  lemma {:induction false} MaxVersionBounds(entries: seq<WrappedDek>)
    ensures forall i :: 0 <= i < |entries| ==> entries[i].version <= MaxVersion(entries)
    ensures entries != [] ==> HasVersion(entries, MaxVersion(entries))
  {
    if entries != [] {
      var init := entries[..|entries| - 1];
      MaxVersionBounds(init);
      if MaxVersion(init) < entries[|entries| - 1].version || init == [] {
        assert entries[|entries| - 1].version == MaxVersion(entries);
      } else {
        var i :| 0 <= i < |init| && init[i].version == MaxVersion(init);
        assert entries[i].version == MaxVersion(entries);
      }
    }
  }

  lemma {:induction false} MinVersionBounds(entries: seq<WrappedDek>)
    ensures forall i :: 0 <= i < |entries| ==> MinVersion(entries) <= entries[i].version
    ensures entries != [] ==> HasVersion(entries, MinVersion(entries))
  {
    if |entries| == 1 {
      assert entries[0].version == MinVersion(entries);
    } else if |entries| > 1 {
      var init := entries[..|entries| - 1];
      MinVersionBounds(init);
      if MinVersion(entries) == MinVersion(init) {
        var i :| 0 <= i < |init| && init[i].version == MinVersion(init);
        assert entries[i].version == MinVersion(entries);
      } else {
        assert entries[|entries| - 1].version == MinVersion(entries);
      }
    }
  }

  lemma CreateOk(kek: Key, version: nat, dek: Key)
    requires 1 <= version < U32_MODULUS
    ensures Create(kek, dek) == ReplaceWithSingle(kek, 1, dek)
    ensures
      var kr := ReplaceWithSingle(kek, version, dek);
      && KeyringOk(kr) && Latest(kr) && KekOf(kr) == kek && Deks(kr.entries) == map[version := dek]
      && kr.active == version == kr.min
  {
    var kr := ReplaceWithSingle(kek, version, dek);
    assert kr.entries[..0] == [];
    assert Deks(kr.entries) == map[][version := dek];
  }

  /** A new DEK gets the version after the newest one. */
  lemma AddNewest(kr: KeyringFile, dek: Key)
    requires KeyringOk(kr) && MaxVersion(kr.entries) + 1 < U32_MODULUS
    ensures
      var next := AddActive(kr, KekOf(kr), dek);
      && next.active == MaxVersion(kr.entries) + 1
      && KeyringOk(next) && Latest(next) && KekOf(next) == KekOf(kr)
      && Deks(next.entries) == Deks(kr.entries)[next.active := dek]
  {
    var last := WrappedDek(MaxVersion(kr.entries) + 1, Seal(KekOf(kr), dek, KEYRING_AAD));
    AppendNewest(kr, last, kr.(active := last.version, entries := kr.entries + [last]));
  }

  lemma AppendNewest(kr: KeyringFile, last: WrappedDek, next: KeyringFile)
    requires KeyringOk(kr) && last.version == MaxVersion(kr.entries) + 1 < U32_MODULUS
    requires last.wrapped.key == KekOf(kr) && last.wrapped.aad == KEYRING_AAD
    requires next == kr.(active := last.version, entries := kr.entries + [last])
    ensures KeyringOk(next) && Latest(next) && KekOf(next) == KekOf(kr)
    ensures Deks(next.entries) == Deks(kr.entries)[last.version := last.wrapped.plain]
  {
    DistinctNewest(kr.entries, last);
    DeksGrow(kr.entries, last);
    NoneIsNewer(kr.entries);
    assert kr.min <= kr.entries[0].version <= MaxVersion(kr.entries) by { MaxVersionBounds(kr.entries); }
  }

  lemma DistinctNewest(entries: seq<WrappedDek>, last: WrappedDek)
    requires Distinct(entries) && last.version == MaxVersion(entries) + 1 < U32_MODULUS
    ensures Distinct(entries + [last])
  {
    MaxVersionBounds(entries);
  }

  lemma NoneIsNewer(entries: seq<WrappedDek>)
    requires Distinct(entries)
    ensures forall v :: v in Deks(entries) ==> v <= MaxVersion(entries)
  {
    DeksAt(entries);
    MaxVersionBounds(entries);
    forall v | v in Deks(entries) ensures v <= MaxVersion(entries) {
      assert HasVersion(entries, v);
    }
  }

  /** With no rotation pending the version allocated for a new DEK is the
  predicted successor of the active one, and the increment cannot wrap. */
  lemma AddActiveOk(kr: KeyringFile, dek: Key)
    requires KeyringOk(kr) && Latest(kr)
    requires kr.active + 1 < U32_MODULUS
    ensures
      var next := AddActive(kr, KekOf(kr), dek);
      && next.active == kr.active + 1
      && KeyringOk(next) && Latest(next) && KekOf(next) == KekOf(kr)
      && Deks(next.entries) == Deks(kr.entries)[kr.active + 1 := dek]
  {
    MaxVersionBounds(kr.entries);
    DeksAt(kr.entries);
    assert MaxVersion(kr.entries) == kr.active;
    AddNewest(kr, dek);
  }

  /** A DEK wrapped under any other key makes the whole keyring unopenable,
  under that key and under its own. */
  lemma AddUnderWrongKek(kr: KeyringFile, wrong: Key, dek: Key)
    requires KeyringOk(kr) && Latest(kr)
    requires kr.active + 1 < U32_MODULUS && wrong != KekOf(kr)
    ensures forall kek :: Load(AddActive(kr, wrong, dek), kek).None?
  {
    var next := AddActive(kr, wrong, dek);
    assert next.entries[..|kr.entries|] == kr.entries;
    MaxVersionBounds(kr.entries);
    DeksAt(kr.entries);
    forall kek ensures Load(next, kek).None? {
      LoadOpens(kr, kek);
      if kek != KekOf(kr) {
        assert kr.entries[..1][..0] == [];
        assert next.entries[..1] == kr.entries[..1];
        UnwrapFailureSticks(next.entries, 1, next.min, kek);
      }
    }
  }

  lemma SetActiveOk(kr: KeyringFile, version: nat)
    requires KeyringOk(kr)
    ensures SetActive(kr, version).Some? <==> version in Deks(kr.entries)
    ensures SetActive(kr, version).Some? ==>
              KeyringOk(SetActive(kr, version).value) && KekOf(SetActive(kr, version).value) == KekOf(kr)
  {
    DeksAt(kr.entries);
  }

  lemma {:induction false} WithoutSubset(entries: seq<WrappedDek>, version: nat)
    ensures forall e :: e in Without(entries, version) ==> e in entries && e.version != version
  {
    if entries != [] { WithoutSubset(entries[..|entries| - 1], version); }
  }

  lemma {:induction false} WithoutDistinct(entries: seq<WrappedDek>, version: nat)
    requires Distinct(entries)
    ensures Distinct(Without(entries, version))
  {
    if entries != [] {
      var init, last := entries[..|entries| - 1], entries[|entries| - 1];
      WithoutDistinct(init, version);
      WithoutSubset(init, version);
      assert entries == init + [last];
      DistinctAppend(Without(init, version), init, last);
    }
  }

  lemma DistinctAppend(rest: seq<WrappedDek>, init: seq<WrappedDek>, last: WrappedDek)
    requires Distinct(rest) && Distinct(init + [last]) && forall e :: e in rest ==> e in init
    ensures Distinct(rest + [last])
  {
    assert (init + [last])[|init|] == last;
    forall i | 0 <= i < |rest| ensures rest[i].version != last.version {
      assert rest[i] in init;
      var k :| 0 <= k < |init| && init[k] == rest[i];
      assert (init + [last])[k].version != (init + [last])[|init|].version;
    }
  }

  lemma WithoutWrapped(entries: seq<WrappedDek>, version: nat, kek: Key)
    requires WrappedBy(entries, kek)
    ensures WrappedBy(Without(entries, version), kek)
  {
    WithoutSubset(entries, version);
    var rest := Without(entries, version);
    forall i | 0 <= i < |rest| ensures rest[i].wrapped.key == kek && rest[i].wrapped.aad == KEYRING_AAD {
      assert rest[i] in entries;
    }
  }

  lemma DeksGrow(entries: seq<WrappedDek>, last: WrappedDek)
    ensures Deks(entries + [last]) == Deks(entries)[last.version := last.wrapped.plain]
  {
    assert (entries + [last])[..|entries|] == entries;
  }

  lemma UpdateThenRemove(m: map<nat, Key>, k: nat, v: Key, version: nat)
    ensures m[k := v] - {version} == if k == version then m - {version} else (m - {version})[k := v]
  {
  }

  lemma {:induction false} WithoutDeks(entries: seq<WrappedDek>, version: nat)
    ensures Deks(Without(entries, version)) == Deks(entries) - {version}
  {
    if entries == [] {
    } else {
      var init, last := entries[..|entries| - 1], entries[|entries| - 1];
      WithoutDeks(init, version);
      DeksGrow(init, last);
      DeksGrow(Without(init, version), last);
      assert entries == init + [last];
      UpdateThenRemove(Deks(init), last.version, last.wrapped.plain, version);
    }
  }

  lemma RemoveVersionOk(kr: KeyringFile, version: nat)
    requires KeyringOk(kr) && version != kr.active
    ensures RemoveVersion(kr, version).Some?
    ensures
      var next := RemoveVersion(kr, version).value;
      && KeyringOk(next) && KekOf(next) == KekOf(kr) && next.active == kr.active
      && Deks(next.entries) == Deks(kr.entries) - {version}
  {
    var entries := Without(kr.entries, version);
    WithoutWrapped(kr.entries, version, KekOf(kr));
    WithoutDistinct(kr.entries, version);
    WithoutDeks(kr.entries, version);
    MinVersionBounds(entries);
    assert entries != [];
  }

  /** After a removal the minimum is the oldest version that is left. */
  lemma RemoveVersionMinimum(kr: KeyringFile, version: nat)
    requires KeyringOk(kr) && version != kr.active
    ensures RemoveVersion(kr, version).Some?
    ensures
      var next := RemoveVersion(kr, version).value;
      && next.min in Deks(kr.entries) && next.min != version
      && forall v :: v in Deks(kr.entries) && v != version ==> next.min <= v
  {
    RemoveVersionOk(kr, version);
    var entries := RemoveVersion(kr, version).value.entries;
    MinVersionBounds(entries);
    DeksAt(entries);
    forall v | v in Deks(kr.entries) && v != version ensures MinVersion(entries) <= v {
      assert v in Deks(entries) && HasVersion(entries, v);
    }
  }
}
