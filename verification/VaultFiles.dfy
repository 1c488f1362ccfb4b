/** Writing through an unlocked handle: data files and key material. */
module VaultFiles {
  import opened Crypto
  import opened Effects
  import opened Keyring
  import opened VaultDisk
  import opened Handles

  // ---- what can be read again ---------------------------------------------------------

  /** A file written with these DEKs is one the vault can read: the keyring has the DEK,
  under the active version, or either version of a pending rotation. */
  ghost predicate FileFits(hold: Hold, d: Disk) {
    && Moored(hold, d)
    && if d.journal.Some? && d.journal.value.Rotate? then
         hold.1 == d.journal.value.oldVersion || hold.1 == d.journal.value.oldVersion + 1
       else hold.1 == d.keyring.value.active
  }

  /** Material sealed with these DEKs can be opened: the DEK is the active one, or one
  of the two of a pending rotation. Material carries no version. */
  ghost predicate MaterialFits(hold: Hold, d: Disk)
    requires hold.1 in hold.0
  {
    && d.keyring.Some?
    && var deks, dek := Deks(d.keyring.value.entries), hold.0[hold.1];
    if d.journal.Some? && d.journal.value.Rotate? then
      var prior := d.journal.value.oldVersion;
      (prior in deks && dek == deks[prior]) || (prior + 1 in deks && dek == deks[prior + 1])
    else d.keyring.value.active in deks && dek == deks[d.keyring.value.active]
  }

  function Written(d: Disk, hold: Hold, f: FileId, plain: Bytes): Disk
    requires hold.1 in hold.0
  {
    d.(files := d.files[f := Envelope(hold.1, Seal(hold.0[hold.1], plain, AadFor(f)))])
  }

  function Deleted(d: Disk, f: FileId): Disk {
    d.(files := d.files - {f})
  }

  function Added(d: Disk, hold: Hold, id: StoreId, name: string, clear: Bytes, secret: Bytes): Disk
    requires hold.1 in hold.0
  {
    var entry := Material(name, clear, Seal(WrapKey(hold.0[hold.1]), secret, StoreAad(id)));
    d.(stores := d.stores.Set(id, d.stores.Get(id) + [entry]))
  }

  lemma PlainWritten(d: Disk, hold: Hold, f: FileId, plain: Bytes)
    requires hold.1 in hold.0
    ensures ContentsOf(Written(d, hold, f, plain)) == ContentsOf(d).(files := ContentsOf(d).files[f := plain])
  {
    assert PlainFiles(Written(d, hold, f, plain).files) == PlainFiles(d.files)[f := plain];
  }

  lemma PlainDeleted(d: Disk, f: FileId)
    ensures ContentsOf(Deleted(d, f)) == ContentsOf(d).(files := ContentsOf(d).files - {f})
  {
    assert PlainFiles(Deleted(d, f).files) == PlainFiles(d.files) - {f};
  }

  lemma WrittenUnderCore(d: Disk, hold: Hold, f: FileId, plain: Bytes)
    requires Core(d) && hold.1 in hold.0
    ensures Core(Written(d, hold, f, plain)) <==> Moored(hold, d) && hold.1 == d.keyring.value.active
  {
    var e := Written(d, hold, f, plain);
    assert e.files[f] == Envelope(hold.1, Seal(hold.0[hold.1], plain, AadFor(f)));
  }

  lemma WrittenWhileRotating(d: Disk, prior: nat, backup: Bundle, hold: Hold, f: FileId, plain: Bytes)
    requires Rotating(d, prior, backup) && hold.1 in hold.0
    ensures Rotating(Written(d, hold, f, plain), prior, backup) <==>
              Moored(hold, d) && (hold.1 == prior || hold.1 == prior + 1)
  {
    var e := Written(d, hold, f, plain);
    assert e.files[f] == Envelope(hold.1, Seal(hold.0[hold.1], plain, AadFor(f)));
  }

  /** A write keeps the invariant if and only if the file can be read again. */
  lemma WrittenExactly(d: Disk, hold: Hold, f: FileId, plain: Bytes)
    requires Serving(d) && hold.1 in hold.0
    ensures ContentsOf(Written(d, hold, f, plain)) == ContentsOf(d).(files := ContentsOf(d).files[f := plain])
    ensures Inv(d) ==> (Inv(Written(d, hold, f, plain)) <==> FileFits(hold, d))
    ensures Severed(d) && FileFits(hold, d) ==> Severed(Written(d, hold, f, plain))
    ensures LockedOut(d) ==> LockedOut(Written(d, hold, f, plain))
  {
    PlainWritten(d, hold, f, plain);
    if Core(d) { WrittenUnderCore(d, hold, f, plain); }
    if Inv(d) && d.journal.Some? && d.journal.value.Rotate? {
      WrittenWhileRotating(d, d.journal.value.oldVersion, d.journal.value.backup, hold, f, plain);
    }
  }

  lemma DeletedExactly(d: Disk, f: FileId)
    requires Serving(d)
    ensures ContentsOf(Deleted(d, f)) == ContentsOf(d).(files := ContentsOf(d).files - {f})
    ensures Inv(d) ==> Inv(Deleted(d, f))
    ensures Severed(d) ==> Severed(Deleted(d, f))
    ensures LockedOut(d) ==> LockedOut(Deleted(d, f))
  {
    PlainDeleted(d, f);
  }

  lemma PlainGrows(entries: seq<Material>, entry: Material)
    ensures PlainStore(entries + [entry]) == PlainStore(entries) + [Plain(entry.name, entry.clear, entry.box.plain)]
  {
  }

  lemma AddedUnderCore(d: Disk, hold: Hold, id: StoreId, name: string, clear: Bytes, secret: Bytes)
    requires Core(d) && hold.1 in hold.0
    ensures Core(Added(d, hold, id, name, clear, secret)) <==> hold.0[hold.1] == ActiveDek(d.keyring.value)
  {
    var e, n := Added(d, hold, id, name, clear, secret), |d.stores.Get(id)|;
    assert e.stores.Get(id)[n] == Material(name, clear, Seal(WrapKey(hold.0[hold.1]), secret, StoreAad(id)));
  }

  lemma AddedWhileRotating(d: Disk, prior: nat, backup: Bundle, hold: Hold, id: StoreId, name: string, clear: Bytes,
                           secret: Bytes)
    requires Rotating(d, prior, backup) && hold.1 in hold.0
    ensures
      var deks := Deks(d.keyring.value.entries);
      Rotating(Added(d, hold, id, name, clear, secret), prior, backup) <==>
        hold.0[hold.1] == deks[prior] || (prior + 1 in deks && hold.0[hold.1] == deks[prior + 1])
  {
    var e, n := Added(d, hold, id, name, clear, secret), |d.stores.Get(id)|;
    assert e.stores.Get(id)[n] == Material(name, clear, Seal(WrapKey(hold.0[hold.1]), secret, StoreAad(id)));
  }

  /** So does new material, if and only if it can be opened again. */
  lemma AddedExactly(d: Disk, hold: Hold, id: StoreId, name: string, clear: Bytes, secret: Bytes)
    requires Serving(d) && hold.1 in hold.0
    ensures Inv(d) ==> (Inv(Added(d, hold, id, name, clear, secret)) <==> MaterialFits(hold, d))
    ensures Severed(d) && MaterialFits(hold, d) ==> Severed(Added(d, hold, id, name, clear, secret))
    ensures LockedOut(d) ==> LockedOut(Added(d, hold, id, name, clear, secret))
  {
    if Core(d) { AddedUnderCore(d, hold, id, name, clear, secret); }
    if Inv(d) && d.journal.Some? && d.journal.value.Rotate? {
      AddedWhileRotating(d, d.journal.value.oldVersion, d.journal.value.backup, hold, id, name, clear, secret);
    }
  }

  // ---- reading ------------------------------------------------------------------------

  /** Read one file with the DEK that its header names. */
  function ReadFile(d: Disk, hold: Hold, f: FileId): Option<Bytes> {
    if f !in d.files || d.files[f].version !in hold.0 then None
    else Open(hold.0[d.files[f].version], d.files[f].box, AadFor(f))
  }

  /** A handle that matches the vault reads every file as the vault holds it, and none
  that it does not hold; and it reads what it writes. */
  lemma ReadsContents(d: Disk, hold: Hold, f: FileId, plain: Bytes)
    requires Core(d) && Moored(hold, d) && hold.1 == d.keyring.value.active
    ensures ReadFile(d, hold, f) == if f in ContentsOf(d).files then Some(ContentsOf(d).files[f]) else None
    ensures ReadFile(Written(d, hold, f, plain), hold, f) == Some(plain)
    ensures forall g :: g != f ==> ReadFile(Written(d, hold, f, plain), hold, g) == ReadFile(d, hold, g)
    ensures ReadFile(Deleted(d, f), hold, f).None?
  {
  }

  /** Names of containers have no slash in them. */
  ghost predicate Named(f: FileId) {
    '/' !in f.container
  }

  lemma PathsAreUnique(f: FileId, g: FileId)
    requires Named(f) && Named(g) && AadFor(f) == AadFor(g)
    ensures f == g
  {
    var path, m, n := AadFor(f), |f.container|, |g.container|;
    assert (forall i :: 0 <= i < m ==> path[i] == f.container[i]) && path[m] == '/';
    assert (forall i :: 0 <= i < n ==> path[i] == g.container[i]) && path[n] == '/';
    assert f.container == path[..m] && g.container == path[..n];
    assert f.name == path[m + 1..] && g.name == path[n + 1..];
  }

  /** A file that is moved to another path does not open there, whatever DEKs are tried. */
  lemma MovedFileIsRefused(d: Disk, hold: Hold, f: FileId, g: FileId)
    requires Core(d) && f in d.files && f != g && Named(f) && Named(g)
    ensures ReadFile(d.(files := d.files[g := d.files[f]]), hold, g).None?
  {
    if AadFor(f) == AadFor(g) { PathsAreUnique(f, g); }
  }

  /** Nothing that is sealed in a vault at rest opens in the place of anything else: not
  material of one store in another, not material for the identity or the identity for
  material, and no file for either, nor either for a file. */
  lemma BoxesDoNotMix(d: Disk, id: StoreId, other: StoreId, i: nat, f: FileId)
    requires Core(d) && i < |d.stores.Get(id)|
    ensures
      var dek, box := ActiveDek(d.keyring.value), d.stores.Get(id)[i].box;
      && (Open(WrapKey(dek), box, StoreAad(other)).Some? <==> id == other)
      && Open(WrapKey(dek), box, IDENTITY_AAD).None? && Open(dek, box, AadFor(f)).None?
      && Open(WrapKey(dek), d.identity.value, StoreAad(id)).None?
      && Open(dek, d.identity.value, AadFor(f)).None? && LoadIdentity(d, dek) == ContentsOf(d).identity
      && (f in d.files ==> Open(WrapKey(dek), d.files[f].box, AadFor(f)).None?)
  {
    assert StoreUnder(d.stores.Get(id), id, WrapKey(ActiveDek(d.keyring.value)));
  }

  /** The key of the audit log is none of those that seal the vault. */
  lemma AuditKeyIsApart(d: Disk)
    requires Settled(d) && !KekOf(d.keyring.value).Subkey? && !ActiveDek(d.keyring.value).Subkey?
    ensures d.audit.Ready?
    ensures d.audit.key !in {KekOf(d.keyring.value), ActiveDek(d.keyring.value), d.identity.value.plain,
                             WrapKey(ActiveDek(d.keyring.value)), WrapKey(d.identity.value.plain)}
  {
  }

  // ---- the operations -----------------------------------------------------------------

  method WriteFile(root: Root, h: VaultHandle, f: FileId, plain: Bytes) returns (r: Outcome<()>)
    requires h.active in h.keys
    modifies root
    ensures root.disk
            == if TakesEffect(NextFate(old(root.fates))) then Written(old(root.disk), (h.keys, h.active), f, plain)
               else old(root.disk)
    ensures r == FromIo(Reports(NextFate(old(root.fates))))
    ensures r.Ok? ==> PlainFiles(root.disk.files) == old(PlainFiles(root.disk.files))[f := plain]
    ensures Onward(old(root.fates), root.fates) && root.access == old(root.access)
  {
    var next := root.disk.(files := root.disk.files[f := Envelope(h.active, Seal(h.keys[h.active], plain, AadFor(f)))]);
    assert PlainFiles(next.files) == PlainFiles(root.disk.files)[f := plain];
    var io := root.Commit(next);
    r := FromIo(io);
  }

  method DeleteFile(root: Root, f: FileId) returns (r: Outcome<()>)
    modifies root
    ensures root.disk == if TakesEffect(NextFate(old(root.fates))) then Deleted(old(root.disk), f) else old(root.disk)
    ensures r == if f in old(root.disk.files) then FromIo(Reports(NextFate(old(root.fates)))) else Ok(())
    ensures Onward(old(root.fates), root.fates) && root.access == old(root.access)
  {
    var io := Done;
    if f in root.disk.files {
      io := root.Commit(root.disk.(files := root.disk.files - {f}));
    } else {
      assert root.disk.files - {f} == root.disk.files;
    }
    r := FromIo(io);
  }

  method NameTaken(entries: seq<Material>, name: string) returns (taken: bool)
    ensures taken <==> exists e :: e in entries && e.name == name
  {
    for i := 0 to |entries|
      invariant forall j :: 0 <= j < i ==> entries[j].name != name
    {
      if entries[i].name == name {
        return true;
      }
    }
    return false;
  }

  ghost predicate NameFree(d: Disk, id: StoreId, name: string) {
    forall e :: e in d.stores.Get(id) ==> e.name != name
  }

  /** Add one named entry; names are unique within a store. */
  method CreateMaterial(root: Root, h: VaultHandle, id: StoreId, name: string, clear: Bytes, secret: Bytes)
    returns (r: Outcome<()>)
    requires h.active in h.keys
    modifies root
    ensures root.disk
            == if old(NameFree(root.disk, id, name)) && TakesEffect(NextFate(old(root.fates))) then
                 Added(old(root.disk), (h.keys, h.active), id, name, clear, secret)
               else old(root.disk)
    ensures !old(NameFree(root.disk, id, name)) ==> r.Err?
    ensures old(NameFree(root.disk, id, name)) ==> r == FromIo(Reports(NextFate(old(root.fates))))
    ensures Onward(old(root.fates), root.fates) && root.access == old(root.access)
  {
    var entries := root.disk.stores.Get(id);
    var taken := NameTaken(entries, name);
    if taken {
      return Err;
    }
    var entry := Material(name, clear, Seal(WrapKey(h.keys[h.active]), secret, StoreAad(id)));
    var io := root.Commit(root.disk.(stores := root.disk.stores.Set(id, entries + [entry])));
    r := FromIo(io);
  }
}
