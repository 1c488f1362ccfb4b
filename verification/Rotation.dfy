/** Data-key rotation and its rollback. */
module Rotation {
  import opened Crypto
  import opened Effects
  import opened Keyring
  import opened VaultDisk

  // ---- data files -----------------------------------------------------------------

  /** Re-seal one file under the active DEK, unless its header already names it. */
  method RewrapFile(root: Root, keys: map<nat, Key>, active: nat, f: FileId) returns (r: Outcome<()>)
    requires active in keys && f in root.disk.files
    modifies root
    ensures
      || root.disk == old(root.disk)
      || (&& old(CanRead(root.disk.files[f], keys, f))
          && root.disk == old(root.disk).(files := old(root.disk.files)[f :=
              Envelope(active, Seal(keys[active], old(root.disk.files[f]).box.plain, AadFor(f)))]))
    ensures r.Ok? ==> root.disk.files[f].version == active
    ensures old(root.disk.files[f].version == active || CanRead(root.disk.files[f], keys, f)) ==>
              Takes(if old(root.disk.files[f]).version == active then 0 else 1, old(root.fates), root.fates, r.Ok?)
    ensures Onward(old(root.fates), root.fates) && root.access == old(root.access)
  {
    var file := root.disk.files[f];
    if file.version == active {
      return Ok(());
    }
    if file.version !in keys {
      return Err;
    }
    var plain := Open(keys[file.version], file.box, AadFor(f));
    if plain.None? {
      return Err;
    }
    var io := root.Commit(root.disk.(files := root.disk.files[f :=
        Envelope(active, Seal(keys[active], plain.value, AadFor(f)))]));
    r := FromIo(io);
  }

  predicate CanRead(file: Envelope, keys: map<nat, Key>, f: FileId) {
    file.version in keys && Open(keys[file.version], file.box, AadFor(f)).Some?
  }

  /** Re-sealing one file under a key of the keyring changes no plaintext and
  keeps every file readable. */
  lemma ResealedFile(files: map<FileId, Envelope>, keys: map<nat, Key>, active: nat, prior: nat, f: FileId)
    requires active in keys && (active == prior || active == prior + 1) && f in files
    requires FilesUnderKeys(files, keys, prior, prior + 1)
    ensures
      var next := files[f := Envelope(active, Seal(keys[active], files[f].box.plain, AadFor(f)))];
      && FilesUnderKeys(next, keys, prior, prior + 1)
      && PlainFiles(next) == PlainFiles(files)
      && next.Keys == files.Keys
  {
    var next := files[f := Envelope(active, Seal(keys[active], files[f].box.plain, AadFor(f)))];
    assert PlainFiles(next) == PlainFiles(files);
  }

  /** No file is at that version yet. */
  ghost predicate NoneAt(files: map<FileId, Envelope>, version: nat) {
    forall f :: f in files ==> files[f].version != version
  }

  /** What re-sealing files toward `active` keeps. */
  ghost predicate FilesKept(d: Disk, e: Disk, keys: map<nat, Key>, prior: nat) {
    && e == d.(files := e.files) && e.files.Keys == d.files.Keys
    && FilesUnderKeys(e.files, keys, prior, prior + 1) && PlainFiles(e.files) == PlainFiles(d.files)
  }

  /** The files of a directory, each once, in some order. */
  ghost predicate Lists(listing: seq<FileId>, files: map<FileId, Envelope>) {
    && |listing| == |files| && (forall i :: 0 <= i < |listing| ==> listing[i] in files)
    && (forall i, j :: 0 <= i < j < |listing| ==> listing[i] != listing[j])
    && (forall f :: f in files ==> f in listing)
  }

  method ListFiles(files: map<FileId, Envelope>) returns (listing: seq<FileId>)
    ensures Lists(listing, files)
  {
    var todo := files.Keys;
    listing := [];
    while todo != {}
      invariant todo <= files.Keys && |listing| + |todo| == |files|
      invariant forall i :: 0 <= i < |listing| ==> listing[i] in files && listing[i] !in todo
      invariant forall i, j :: 0 <= i < j < |listing| ==> listing[i] != listing[j]
      invariant forall f :: f in files ==> f in todo || f in listing
    {
      var f :| f in todo;
      todo, listing := todo - {f}, listing + [f];
    }
  }

  /** The first `n` listed files are at `active`, the others as they were. */
  ghost predicate MovedUpTo(d: map<FileId, Envelope>, e: map<FileId, Envelope>, listing: seq<FileId>, n: nat,
                            active: nat)
    requires n <= |listing|
  {
    && e.Keys == d.Keys && (forall i :: 0 <= i < |listing| ==> listing[i] in d)
    && (forall i :: 0 <= i < n ==> e[listing[i]].version == active)
    && (forall i :: n <= i < |listing| ==> e[listing[i]] == d[listing[i]])
  }

  /** What the first `n` re-sealings have done. */
  ghost predicate ResealedUpTo(d: Disk, e: Disk, listing: seq<FileId>, n: nat, keys: map<nat, Key>, active: nat,
                               prior: nat)
    requires n <= |listing|
  {
    FilesKept(d, e, keys, prior) && MovedUpTo(d.files, e.files, listing, n, active)
  }

  /** That, and how many durable steps it took if none was re-sealed before. */
  ghost predicate Resealing(d: Disk, e: Disk, listing: seq<FileId>, n: nat, keys: map<nat, Key>, active: nat,
                            prior: nat, before: seq<Fate>, after: seq<Fate>)
    requires n <= |listing|
  {
    && ResealedUpTo(d, e, listing, n, keys, active, prior) && Onward(before, after)
    && (NoneAt(d.files, active) ==> Smooth(before, n) && after == After(before, n))
  }

  lemma KeptAgain(a: Disk, b: Disk, c: Disk, keys: map<nat, Key>, prior: nat)
    requires FilesKept(a, b, keys, prior) && FilesKept(b, c, keys, prior)
    ensures FilesKept(a, c, keys, prior)
  {
  }

  lemma MovedOneMore(d: map<FileId, Envelope>, before: map<FileId, Envelope>, after: map<FileId, Envelope>,
                     listing: seq<FileId>, n: nat, active: nat)
    requires n < |listing| && Lists(listing, d) && MovedUpTo(d, before, listing, n, active) && after.Keys == before.Keys
    requires after[listing[n]].version == active
    requires forall g :: g in after && g != listing[n] ==> after[g] == before[g]
    ensures MovedUpTo(d, after, listing, n + 1, active)
  {
  }

  lemma ResealedOneMore(d: Disk, before: Disk, after: Disk, listing: seq<FileId>, n: nat,
                        keys: map<nat, Key>, active: nat, prior: nat)
    requires n < |listing| && Lists(listing, d.files) && ResealedUpTo(d, before, listing, n, keys, active, prior)
    requires FilesKept(before, after, keys, prior) && after.files[listing[n]].version == active
    requires forall g :: g in after.files && g != listing[n] ==> after.files[g] == before.files[g]
    ensures ResealedUpTo(d, after, listing, n + 1, keys, active, prior)
  {
    KeptAgain(d, before, after, keys, prior);
    MovedOneMore(d.files, before.files, after.files, listing, n, active);
  }

  lemma AllResealed(d: Disk, e: Disk, listing: seq<FileId>, keys: map<nat, Key>, active: nat, prior: nat)
    requires Lists(listing, d.files) && ResealedUpTo(d, e, listing, |listing|, keys, active, prior)
    ensures active in keys ==> FilesUnder(e.files, active, keys[active])
  {
    forall f | f in e.files ensures e.files[f].version == active {
      var i :| 0 <= i < |listing| && listing[i] == f;
    }
  }

  lemma NextIsUntouched(d: Disk, e: Disk, listing: seq<FileId>, n: nat, keys: map<nat, Key>, active: nat, prior: nat)
    requires n < |listing| && ResealedUpTo(d, e, listing, n, keys, active, prior)
    ensures listing[n] in e.files && FilesUnderKeys(e.files, keys, prior, prior + 1)
    ensures NoneAt(d.files, active) ==> e.files[listing[n]].version != active
  {
  }

  /** Re-seal every file, in whatever order the directory lists them. */
  method RewrapAllFiles(root: Root, keys: map<nat, Key>, active: nat, ghost prior: nat) returns (r: Outcome<()>)
    requires active in keys && (active == prior || active == prior + 1)
    requires FilesUnderKeys(root.disk.files, keys, prior, prior + 1)
    modifies root
    ensures FilesKept(old(root.disk), root.disk, keys, prior)
    ensures r.Ok? ==> FilesUnder(root.disk.files, active, keys[active])
    ensures old(root.fates) == [] ==> r.Ok?
    ensures old(NoneAt(root.disk.files, active)) ==> Takes(|old(root.disk.files)|, old(root.fates), root.fates, r.Ok?)
    ensures Onward(old(root.fates), root.fates) && root.access == old(root.access)
  {
    ghost var d, fates := root.disk, root.fates;
    var listing := ListFiles(root.disk.files);
    for n := 0 to |listing|
      invariant Resealing(d, root.disk, listing, n, keys, active, prior, fates, root.fates)
      invariant root.access == old(root.access)
    {
      r := RewrapNext(root, keys, active, prior, listing, n, d, fates);
      if !r.Ok? {
        return;
      }
    }
    AllResealed(d, root.disk, listing, keys, active, prior);
    r := Ok(());
  }

  /** The next file of the listing. */
  method RewrapNext(root: Root, keys: map<nat, Key>, active: nat, ghost prior: nat, listing: seq<FileId>, n: nat,
                    ghost d: Disk, ghost fates: seq<Fate>)
    returns (r: Outcome<()>)
    requires active in keys && (active == prior || active == prior + 1) && n < |listing| && Lists(listing, d.files)
    requires Resealing(d, root.disk, listing, n, keys, active, prior, fates, root.fates)
    modifies root
    ensures r.Ok? ==> Resealing(d, root.disk, listing, n + 1, keys, active, prior, fates, root.fates)
    ensures !r.Ok? ==>
              && FilesKept(d, root.disk, keys, prior) && fates != []
              && (NoneAt(d.files, active) ==> Takes(|listing|, fates, root.fates, false))
    ensures root.access == old(root.access)
  {
    ghost var before := root.disk;
    NextIsUntouched(d, before, listing, n, keys, active, prior);
    r := RewrapOne(root, keys, active, prior, listing[n]);
    if NoneAt(d.files, active) { OneStepMore(fates, n, |listing|, root.fates, r.Ok?); }
    if r.Ok? {
      ResealedOneMore(d, before, root.disk, listing, n, keys, active, prior);
    } else {
      KeptAgain(d, before, root.disk, keys, prior);
    }
  }

  method RewrapOne(root: Root, keys: map<nat, Key>, active: nat, ghost prior: nat, f: FileId) returns (r: Outcome<()>)
    requires active in keys && (active == prior || active == prior + 1) && f in root.disk.files
    requires FilesUnderKeys(root.disk.files, keys, prior, prior + 1)
    modifies root
    ensures FilesKept(old(root.disk), root.disk, keys, prior)
    ensures forall g :: g in root.disk.files && g != f ==> root.disk.files[g] == old(root.disk.files)[g]
    ensures r.Ok? ==> root.disk.files[f].version == active
    ensures Takes(if old(root.disk.files)[f].version == active then 0 else 1, old(root.fates), root.fates, r.Ok?)
    ensures Onward(old(root.fates), root.fates) && root.access == old(root.access)
  {
    ResealedFile(root.disk.files, keys, active, prior, f);
    r := RewrapFile(root, keys, active, f);
  }

  // ---- identity and material ------------------------------------------------------

  /** A box already under the destination key is left alone; one under neither
  key is an error. */
  function Reseal<T>(from: Key, to: Key, aad: string, box: Sealed<T>): (r: Option<Sealed<T>>)
    ensures r.Some? <==> BoxUnder(box, from, aad) || BoxUnder(box, to, aad)
    ensures r.Some? ==> BoxUnder(r.value, to, aad) && r.value.plain == box.plain
  {
    match Open(from, box, aad)
    case Some(plain) => Some(Seal(to, plain, aad))
    case None => if Open(to, box, aad).Some? then Some(box) else None
  }

  method RewrapIdentity(root: Root, from: Key, to: Key) returns (r: Outcome<()>)
    modifies root
    ensures root.disk == old(root.disk).(identity := root.disk.identity)
    ensures old(!IdentityUnderEither(root.disk.identity, from, to)) ==>
              r.Err? && root.disk == old(root.disk) && root.fates == old(root.fates)
    ensures old(IdentityUnderEither(root.disk.identity, from, to)) ==>
              && IdentityUnderEither(root.disk.identity, from, to)
              && root.disk.identity.value.plain == old(root.disk.identity.value.plain)
              && (r.Ok? || old(IdentityUnder(root.disk.identity, to)) ==> IdentityUnder(root.disk.identity, to))
              && Counts(1, old(root.fates), root.fates, r)
    ensures Onward(old(root.fates), root.fates) && root.access == old(root.access)
  {
    if root.disk.identity.None? {
      return Err;
    }
    var box := Reseal(from, to, IDENTITY_AAD, root.disk.identity.value);
    if box.None? {
      return Err;
    }
    CountsOne(root.fates);
    var io := root.Commit(root.disk.(identity := box));
    r := FromIo(io);
  }

  /** Replace each wrapped value in place; the store is rewritten by the caller. */
  method ResealEntries(entries: seq<Material>, id: StoreId, from: Key, to: Key) returns (r: Option<seq<Material>>)
    ensures r.Some? <==> StoreUnderEither(entries, id, from, to)
    ensures r.Some? ==> StoreUnder(r.value, id, to) && PlainStore(r.value) == PlainStore(entries)
  {
    var done := entries;
    for i := 0 to |entries|
      invariant |done| == |entries|
      invariant forall j :: i <= j < |done| ==> done[j] == entries[j]
      invariant forall j :: 0 <= j < i ==>
                              && BoxUnder(done[j].box, to, StoreAad(id))
                              && done[j] == entries[j].(box := done[j].box)
                              && done[j].box.plain == entries[j].box.plain
      invariant forall j :: 0 <= j < i ==>
                              BoxUnder(entries[j].box, from, StoreAad(id)) || BoxUnder(entries[j].box, to, StoreAad(id))
    {
      var box := Reseal(from, to, StoreAad(id), done[i].box);
      if box.None? {
        return None;
      }
      done := done[i := done[i].(box := box.value)];
    }
    r := Some(done);
  }

  /** An empty store is not rewritten. */
  function StoreSteps(entries: seq<Material>): nat {
    if entries == [] then 0 else 1
  }

  function MaterialSteps(stores: Stores): nat {
    1 + StoreSteps(stores.transit) + StoreSteps(stores.signing) + StoreSteps(stores.brokers)
  }

  method RewrapStore(root: Root, id: StoreId, from: Key, to: Key) returns (r: Outcome<()>)
    requires StoreUnderEither(root.disk.stores.Get(id), id, from, to)
    modifies root
    ensures root.disk == old(root.disk).(stores := old(root.disk.stores).Set(id, root.disk.stores.Get(id)))
    ensures StoreUnderEither(root.disk.stores.Get(id), id, from, to)
    ensures PlainStore(root.disk.stores.Get(id)) == old(PlainStore(root.disk.stores.Get(id)))
    ensures r.Ok? || old(StoreUnder(root.disk.stores.Get(id), id, to)) ==> StoreUnder(root.disk.stores.Get(id), id, to)
    ensures Counts(StoreSteps(old(root.disk.stores.Get(id))), old(root.fates), root.fates, r)
    ensures Onward(old(root.fates), root.fates) && root.access == old(root.access)
  {
    var entries := root.disk.stores.Get(id);
    if entries == [] {
      return Ok(());
    }
    var done := ResealEntries(entries, id, from, to);
    if done.None? {
      return Err;
    }
    CountsOne(root.fates);
    var io := root.Commit(root.disk.(stores := root.disk.stores.Set(id, done.value)));
    r := FromIo(io);
  }

  /** What re-sealing identity and material toward `to` keeps. */
  ghost predicate MaterialKept(d: Disk, e: Disk, from: Key, to: Key) {
    && e == d.(identity := e.identity, stores := e.stores) && ContentsOf(e) == ContentsOf(d)
    && IdentityUnderEither(e.identity, from, to) && StoresUnderEither(e.stores, from, to)
    && (IdentityUnder(d.identity, to) && StoresUnder(d.stores, to) ==>
          IdentityUnder(e.identity, to) && StoresUnder(e.stores, to))
  }

  /** Identity and material, one write each. An identity under neither key stops it
  before the first. */
  method RewrapAllMaterial(root: Root, from: Key, to: Key) returns (r: Outcome<()>)
    requires IdentityUnderEither(root.disk.identity, from, to) ==> StoresUnderEither(root.disk.stores, from, to)
    modifies root
    ensures old(!IdentityUnderEither(root.disk.identity, from, to)) ==>
              r.Err? && root.disk == old(root.disk) && root.fates == old(root.fates)
    ensures old(IdentityUnderEither(root.disk.identity, from, to)) ==>
              && MaterialKept(old(root.disk), root.disk, from, to)
              && (r.Ok? ==> IdentityUnder(root.disk.identity, to) && StoresUnder(root.disk.stores, to))
              && Counts(MaterialSteps(old(root.disk.stores)), old(root.fates), root.fates, r)
    ensures Onward(old(root.fates), root.fates) && root.access == old(root.access)
  {
    ghost var before, steps, fits :=
      root.fates, MaterialSteps(root.disk.stores) - 1, IdentityUnderEither(root.disk.identity, from, to);
    var moved := RewrapIdentity(root, from, to);
    ghost var middle := root.fates;
    if !moved.Ok? {
      if fits { CountsFirst(1, steps, before, middle, moved, moved); }
      return moved;
    }
    r := RewrapAllStores(root, from, to);
    CountsBoth(1, steps, before, middle, root.fates, moved, r);
  }

  method RewrapAllStores(root: Root, from: Key, to: Key) returns (r: Outcome<()>)
    requires StoresUnderEither(root.disk.stores, from, to)
    modifies root
    ensures root.disk == old(root.disk).(stores := root.disk.stores)
    ensures StoresUnderEither(root.disk.stores, from, to)
    ensures ContentsOf(root.disk) == old(ContentsOf(root.disk))
    ensures r.Ok? || old(StoresUnder(root.disk.stores, to)) ==> StoresUnder(root.disk.stores, to)
    ensures Counts(MaterialSteps(old(root.disk.stores)) - 1, old(root.fates), root.fates, r)
    ensures Onward(old(root.fates), root.fates) && root.access == old(root.access)
  {
    ghost var f, s := root.fates, root.disk.stores;
    ghost var a, b, c := StoreSteps(s.transit), StoreSteps(s.signing), StoreSteps(s.brokers);
    var first := RewrapStore(root, Transit, from, to);
    ghost var f1 := root.fates;
    if !first.Ok? {
      CountsFirst(a, b + c, f, f1, first, first);
      return first;
    }
    var second := RewrapStore(root, Signing, from, to);
    ghost var f2 := root.fates;
    CountsBoth(a, b, f, f1, f2, first, second);
    if !second.Ok? {
      CountsFirst(a + b, c, f, f2, second, second);
      return second;
    }
    r := RewrapStore(root, Brokers, from, to);
    CountsBoth(a + b, c, f, f2, root.fates, second, r);
  }

  // ---- rollback -------------------------------------------------------------------

  /** Identity, material and files are all under the DEK of `prior`. */
  ghost predicate AllUnder(d: Disk, prior: nat)
    requires d.keyring.Some? && prior in Deks(d.keyring.value.entries)
  {
    var dek := Deks(d.keyring.value.entries)[prior];
    IdentityUnder(d.identity, WrapKey(dek)) && StoresUnder(d.stores, WrapKey(dek)) && FilesUnder(d.files, prior, dek)
  }

  lemma RotatingSetActive(d: Disk, prior: nat, backup: Bundle)
    requires Rotating(d, prior, backup)
    ensures SetActive(d.keyring.value, prior).Some?
    ensures Rotating(d.(keyring := SetActive(d.keyring.value, prior)), prior, backup)
    ensures Deks(SetActive(d.keyring.value, prior).value.entries) == Deks(d.keyring.value.entries)
  {
    SetActiveOk(d.keyring.value, prior);
  }

  /** While the keyring lacks the new DEK nothing can be under it. */
  lemma NothingNewYet(d: Disk, prior: nat, backup: Bundle)
    requires Rotating(d, prior, backup) && prior + 1 !in Deks(d.keyring.value.entries)
    ensures AllUnder(d, prior) && d.recovery == Some(backup) && d.keyring.value.active == prior
  {
  }

  /** The DEKs that a rotation from `prior` does not add. */
  ghost function KeptDeks(d: Disk, prior: nat): map<nat, Key>
    requires d.keyring.Some?
  {
    Deks(d.keyring.value.entries) - {prior + 1}
  }

  lemma RotatingRemove(d: Disk, prior: nat, backup: Bundle)
    requires Rotating(d, prior, backup) && AllUnder(d, prior)
    requires d.recovery == Some(backup) && d.keyring.value.active == prior
    ensures RemoveVersion(d.keyring.value, prior + 1).Some?
    ensures
      var e := d.(keyring := RemoveVersion(d.keyring.value, prior + 1));
      && Rotating(e, prior, backup) && Settled(e) && e.keyring.value.active == prior
      && Deks(e.keyring.value.entries) == KeptDeks(d, prior) && KekOf(e.keyring.value) == KekOf(d.keyring.value)
  {
    RemoveVersionOk(d.keyring.value, prior + 1);
    OldKeysSuffice(d, d.(keyring := RemoveVersion(d.keyring.value, prior + 1)), prior, backup);
  }

  /** With everything back under the old DEK the new one is not needed. */
  lemma OldKeysSuffice(d: Disk, e: Disk, prior: nat, backup: Bundle)
    requires Rotating(d, prior, backup) && AllUnder(d, prior) && d.recovery == Some(backup)
    requires d.keyring.value.active == prior
    requires e.keyring.Some? && e == d.(keyring := e.keyring) && KeyringOk(e.keyring.value)
    requires e.keyring.value.active == prior && KekOf(e.keyring.value) == KekOf(d.keyring.value)
    requires Deks(e.keyring.value.entries) == Deks(d.keyring.value.entries) - {prior + 1}
    ensures Rotating(e, prior, backup) && Settled(e)
  {
  }

  /** Only the parts of the disk that a rotation works on differ. */
  ghost predicate SameSurroundings(d: Disk, e: Disk) {
    d.staged == e.staged && d.salt == e.salt && d.scoped == e.scoped && d.legacy == e.legacy
  }

  /** Back at rest under the old DEK. */
  ghost predicate RolledBack(d: Disk, prior: nat, backup: Bundle) {
    d.journal.None? && Settled(d) && d.keyring.value.active == prior && d.recovery == Some(backup)
  }

  /** After the first write of a rollback from a keyring that has both DEKs. */
  function Reactivated(d: Disk, prior: nat): Disk
    requires d.keyring.Some?
  {
    d.(keyring := SetActive(d.keyring.value, prior))
  }

  /** The rollback has not begun, or the old DEK is active again. */
  ghost predicate Returning(d: Disk, e: Disk, prior: nat) {
    e == d || (e.keyring.Some? && e.keyring.value.active == prior)
  }

  ghost predicate NothingAdded(d: Disk, e: Disk)
    requires d.keyring.Some? && e.keyring.Some?
  {
    var before, after := Deks(d.keyring.value.entries), Deks(e.keyring.value.entries);
    forall v :: v in after ==> v in before && after[v] == before[v]
  }

  /** From `d`, a rollback may leave `e`: nothing the vault holds has changed,
  and it is either finished or can be resumed from `e`. */
  ghost predicate Toward(d: Disk, e: Disk, prior: nat, backup: Bundle)
    requires Rotating(d, prior, backup)
  {
    && ContentsOf(e) == ContentsOf(d) && SameSurroundings(e, d)
    && e.keyring.Some? && KeptDeks(e, prior) == KeptDeks(d, prior) && NothingAdded(d, e)
    && e.keyring.value.entries != [] && KekOf(e.keyring.value) == KekOf(d.keyring.value)
    && (RolledBack(e, prior, backup) || (Rotating(e, prior, backup) && e.journal == d.journal))
  }

  /** The durable steps that undo a finished rotation, up to the removal of the new
  DEK: the active version, every file, identity and material, the bundle, the
  keyring. */
  function UndoSteps(d: Disk): nat {
    1 + |d.files| + MaterialSteps(d.stores) + 2
  }

  /** How far a rollback from `d`, where every file is under the new DEK, came. */
  ghost predicate UndoneUpTo(d: Disk, e: Disk, prior: nat, backup: Bundle, r: Outcome<()>, fates: seq<Fate>) {
    && e.keyring.Some? && prior in Deks(e.keyring.value.entries)
    && (TakesEffect(NextFate(fates)) ==> e.keyring.value.active == prior)
    && (!TakesEffect(NextFate(fates)) ==> e == d)
    && (prior + 1 !in Deks(e.keyring.value.entries) <==> Reaches(fates, UndoSteps(d)))
    && (r.Err? && prior + 1 !in Deks(e.keyring.value.entries) <==> GivesUp(fates, UndoSteps(d), d.journal.Some?))
    && (d.recovery != Some(backup) ==>
          && (e.recovery == Some(backup) <==> Reaches(fates, UndoSteps(d) - 1))
          && (e.recovery == Some(backup) ==> AllUnder(e, prior)))
  }

  /** What a rollback does. */
  ghost predicate RollsBack(d: Disk, e: Disk, prior: nat, backup: Bundle, r: Outcome<()>, fates: seq<Fate>)
    requires Rotating(d, prior, backup)
  {
    && Toward(d, e, prior, backup) && Returning(d, e, prior)
    && (r.Ok? ==> RolledBack(e, prior, backup) && prior + 1 !in Deks(e.keyring.value.entries))
    && (fates == [] ==> r.Ok?)
    && (prior + 1 in Deks(d.keyring.value.entries) ==>
          && (NextFate(fates) == Crash(true) ==> r.Stopped? && e == Reactivated(d, prior))
          && (NextFate(fates) == Fail(false) ==> r.Err? && e == d)
          && (NoneAt(d.files, prior) ==> UndoneUpTo(d, e, prior, backup, r, fates)))
  }

  method RollbackRotation(root: Root, kek: Key, prior: nat, next: nat, backup: Bundle) returns (r: Outcome<()>)
    requires next == prior + 1 && root.disk.keyring.Some?
    requires Load(root.disk.keyring.value, kek).Some? ==> Rotating(root.disk, prior, backup)
    modifies root
    ensures old(Load(root.disk.keyring.value, kek).None?) ==> r.Err? && root.disk == old(root.disk)
    ensures old(Load(root.disk.keyring.value, kek).Some?) ==>
              RollsBack(old(root.disk), root.disk, prior, backup, r, old(root.fates))
    ensures Onward(old(root.fates), root.fates) && root.access == old(root.access)
  {
    var unwrapped := UnwrapKeyring(root.disk.keyring.value, kek);
    if unwrapped.None? {
      return Err;
    }
    var keys := unwrapped.value.keys;
    if next in keys {
      if prior !in keys {
        return Err;
      }
      r := RollbackBoth(root, kek, keys, prior, next, backup);
    } else {
      NothingNewYet(root.disk, prior, backup);
      r := FinishRollback(root, prior, next, backup);
    }
  }

  /** A rollback from a keyring that has both DEKs. */
  method RollbackBoth(root: Root, kek: Key, keys: map<nat, Key>, prior: nat, next: nat, backup: Bundle)
    returns (r: Outcome<()>)
    requires next == prior + 1 && Rotating(root.disk, prior, backup)
    requires keys == Deks(root.disk.keyring.value.entries) && next in keys && kek == KekOf(root.disk.keyring.value)
    modifies root
    ensures RollsBack(old(root.disk), root.disk, prior, backup, r, old(root.fates))
    ensures Onward(old(root.fates), root.fates) && root.access == old(root.access)
  {
    ghost var d, before := root.disk, root.fates;
    r := RollbackMaterial(root, kek, keys, prior, backup);
    ghost var m, middle := root.disk, root.fates;
    if !r.Ok? {
      UndoneInPart(d, m, prior, backup, before, middle, r);
      return;
    }
    r := FinishRollback(root, prior, next, backup);
    TowardTwice(d, m, root.disk, prior, backup);
    UndoneBoth(d, m, root.disk, prior, backup, before, middle, r);
  }

  lemma UndoneInPart(d: Disk, m: Disk, prior: nat, backup: Bundle, before: seq<Fate>, middle: seq<Fate>, r: Outcome<()>)
    requires Rotating(d, prior, backup) && MovesBack(d, m, prior, backup, before, middle, r) && !r.Ok?
    ensures NoneAt(d.files, prior) ==> UndoneUpTo(d, m, prior, backup, r, before)
  {
    if NoneAt(d.files, prior) {
      ReachesLater(UndoSteps(d) - 2, 2, before, middle, false);
      ReachesLater(UndoSteps(d) - 2, 1, before, middle, false);
      GivesUpLater(UndoSteps(d) - 2, 2, before, middle, false, d.journal.Some?);
    }
  }

  lemma UndoneBoth(d: Disk, m: Disk, e: Disk, prior: nat, backup: Bundle, before: seq<Fate>, middle: seq<Fate>,
                   r: Outcome<()>)
    requires m.recovery == d.recovery && (NoneAt(d.files, prior) ==> Takes(UndoSteps(d) - 2, before, middle, true))
    requires e.keyring.Some? && e.keyring.value.active == prior
    requires prior in Deks(e.keyring.value.entries) && AllUnder(e, prior)
    requires prior + 1 !in Deks(e.keyring.value.entries) <==> Reaches(middle, 2)
    requires m.recovery != Some(backup) ==> (e.recovery == Some(backup) <==> Reaches(middle, 1))
    requires r.Err? && prior + 1 !in Deks(e.keyring.value.entries) <==> GivesUp(middle, 2, d.journal.Some?)
    ensures NoneAt(d.files, prior) ==> UndoneUpTo(d, e, prior, backup, r, before)
  {
    if NoneAt(d.files, prior) {
      ReachesLater(UndoSteps(d) - 2, 2, before, middle, true);
      ReachesLater(UndoSteps(d) - 2, 1, before, middle, true);
      GivesUpLater(UndoSteps(d) - 2, 2, before, middle, true, d.journal.Some?);
      SmoothAdds(before, 1, UndoSteps(d) - 3);
    }
  }

  lemma TowardTwice(d: Disk, m: Disk, e: Disk, prior: nat, backup: Bundle)
    requires Rotating(d, prior, backup) && Rotating(m, prior, backup) && m.journal == d.journal
    requires Toward(d, m, prior, backup) && Toward(m, e, prior, backup)
    ensures Toward(d, e, prior, backup)
  {
  }

  /** The first two states the end of a rollback passes through. */
  lemma BundleStages(d: Disk, prior: nat, backup: Bundle)
    requires Rotating(d, prior, backup) && AllUnder(d, prior) && d.keyring.value.active == prior
    ensures
      var d1 := d.(recovery := Some(backup));
      && Rotating(d1, prior, backup) && AllUnder(d1, prior)
      && Toward(d, d, prior, backup) && Toward(d, d1, prior, backup)
  {
  }

  lemma RemovedTwice(m: map<nat, Key>, version: nat)
    ensures m - {version} - {version} == m - {version}
  {
  }

  lemma RemovedToward(d: Disk, e: Disk, prior: nat, backup: Bundle)
    requires Rotating(d, prior, backup) && Rotating(e, prior, backup) && Settled(e)
    requires ContentsOf(e) == ContentsOf(d) && SameSurroundings(e, d) && e.journal == d.journal
    requires e.keyring.value.active == prior && e.recovery == Some(backup)
    requires KeptDeks(e, prior) == KeptDeks(d, prior) && KekOf(e.keyring.value) == KekOf(d.keyring.value)
    requires NothingAdded(d, e)
    ensures Toward(d, e, prior, backup) && Toward(d, e.(journal := None), prior, backup)
    ensures RolledBack(e.(journal := None), prior, backup)
  {
  }

  /** The last two. */
  lemma RemovedStages(d: Disk, prior: nat, backup: Bundle)
    requires Rotating(d, prior, backup) && AllUnder(d, prior) && d.keyring.value.active == prior
    ensures RemoveVersion(d.keyring.value, prior + 1).Some?
    ensures
      var d2 := d.(recovery := Some(backup), keyring := RemoveVersion(d.keyring.value, prior + 1));
      var d3 := d2.(journal := None);
      && Toward(d, d2, prior, backup) && Toward(d, d3, prior, backup)
      && RolledBack(d3, prior, backup) && prior + 1 !in Deks(d3.keyring.value.entries)
  {
    BundleStages(d, prior, backup);
    RotatingRemove(d.(recovery := Some(backup)), prior, backup);
    RemovedTwice(Deks(d.keyring.value.entries), prior + 1);
    RemovedToward(
      d, d.(recovery := Some(backup), keyring := RemoveVersion(d.keyring.value, prior + 1)), prior, backup);
  }

  /** The states the end of a rollback passes through. */
  lemma FinishStages(d: Disk, prior: nat, backup: Bundle)
    requires Rotating(d, prior, backup) && AllUnder(d, prior) && d.keyring.value.active == prior
    ensures RemoveVersion(d.keyring.value, prior + 1).Some?
    ensures
      var d1 := d.(recovery := Some(backup));
      var d2 := d1.(keyring := RemoveVersion(d.keyring.value, prior + 1));
      var d3 := d2.(journal := None);
      && Rotating(d1, prior, backup) && Toward(d, d, prior, backup) && Toward(d, d1, prior, backup)
      && Toward(d, d2, prior, backup) && Toward(d, d3, prior, backup)
      && RolledBack(d3, prior, backup) && prior + 1 !in Deks(d3.keyring.value.entries)
  {
    BundleStages(d, prior, backup);
    RemovedStages(d, prior, backup);
  }

  /** The end of a rollback: the old bundle, then the old keyring, then no journal. */
  method FinishRollback(root: Root, prior: nat, next: nat, backup: Bundle) returns (r: Outcome<()>)
    requires next == prior + 1 && Rotating(root.disk, prior, backup)
    requires AllUnder(root.disk, prior) && root.disk.keyring.value.active == prior
    modifies root
    ensures Toward(old(root.disk), root.disk, prior, backup) && root.disk.keyring.value.active == prior
    ensures r.Ok? ==> RolledBack(root.disk, prior, backup) && next !in Deks(root.disk.keyring.value.entries)
    ensures old(root.fates) == [] ==> r.Ok?
    ensures AllUnder(root.disk, prior)
    ensures old(root.disk.recovery) != Some(backup) ==>
              (root.disk.recovery == Some(backup) <==> Reaches(old(root.fates), 1))
    ensures next in old(Deks(root.disk.keyring.value.entries)) ==>
              && (next !in Deks(root.disk.keyring.value.entries) <==> Reaches(old(root.fates), 2))
              && (r.Err? && next !in Deks(root.disk.keyring.value.entries) <==>
                    GivesUp(old(root.fates), 2, old(root.disk.journal.Some?)))
    ensures Onward(old(root.fates), root.fates) && root.access == old(root.access)
  {
    ghost var before := root.fates;
    FinishStages(root.disk, prior, backup);
    var io := RemoveNewDek(root, prior, next, backup);
    GivesUpAtEnd(before, root.fates, io, root.disk.journal.Some?);
    if io.Done? && root.disk.journal.Some? {
      io := root.Commit(root.disk.(journal := None));
    }
    r := FromIo(io);
  }

  /** When two steps, and a third if there is `more`, end in an error although the
  second took effect. */
  lemma GivesUpAtEnd(before: seq<Fate>, middle: seq<Fate>, io: Io, more: bool)
    requires Counts(2, before, middle, FromIo(io))
    ensures io.Done? ==> (GivesUp(before, 2, more) <==> more && Reports(NextFate(middle)).Failed?)
    ensures !io.Done? ==> (GivesUp(before, 2, more) <==> io.Failed? && Reaches(before, 2))
  {
    LeadIsSmooth(before, 1);
    LeadIsSmooth(before, 2);
  }

  method RemoveNewDek(root: Root, prior: nat, next: nat, backup: Bundle) returns (io: Io)
    requires next == prior + 1 && Rotating(root.disk, prior, backup)
    requires AllUnder(root.disk, prior) && root.disk.keyring.value.active == prior
    modifies root
    ensures
      var d1 := old(root.disk).(recovery := Some(backup));
      var d2 := d1.(keyring := RemoveVersion(d1.keyring.value, next));
      && (root.disk == old(root.disk) || root.disk == d1 || root.disk == d2)
      && (io.Done? ==> root.disk == d2)
      && (old(root.disk.recovery) != Some(backup) ==>
            (root.disk.recovery == Some(backup) <==> Reaches(old(root.fates), 1)))
      && (next in old(Deks(root.disk.keyring.value.entries)) ==> (root.disk == d2 <==> Reaches(old(root.fates), 2)))
    ensures Counts(2, old(root.fates), root.fates, FromIo(io))
    ensures Onward(old(root.fates), root.fates) && root.access == old(root.access)
  {
    ghost var d, before := root.disk, root.fates;
    RemovedStages(d, prior, backup);
    BundleStages(d, prior, backup);
    SmoothAdds(root.fates, 1, 1);
    CountsOne(before);
    io := root.Commit(root.disk.(recovery := Some(backup)));
    ghost var middle, first := root.fates, FromIo(io);
    if !io.Done? {
      CountsFirst(1, 1, before, middle, first, first);
      return;
    }
    CountsOne(middle);
    CountsBoth(1, 1, before, middle, After(middle, 1), first, FromIo(Reports(NextFate(middle))));
    var ready := EnsureActive(root, prior, backup);
    var kr := RemoveVersion(root.disk.keyring.value, next);
    if !ready.Ok? || kr.None? {
      return Failed;
    }
    io := root.Commit(root.disk.(keyring := kr));
  }

  /** Point the keyring at the old DEK unless it already is. */
  method EnsureActive(root: Root, prior: nat, backup: Bundle) returns (r: Outcome<()>)
    requires Rotating(root.disk, prior, backup)
    modifies root
    ensures
      || root.disk == old(root.disk)
      || root.disk == old(root.disk).(keyring := SetActive(old(root.disk).keyring.value, prior))
    ensures Rotating(root.disk, prior, backup)
    ensures Deks(root.disk.keyring.value.entries) == old(Deks(root.disk.keyring.value.entries))
    ensures r.Ok? ==> root.disk.keyring.value.active == prior
    ensures old(root.disk.keyring.value.active) == prior ==>
              r.Ok? && root.disk == old(root.disk) && root.fates == old(root.fates)
    ensures old(root.fates) == [] ==> r.Ok?
    ensures Onward(old(root.fates), root.fates) && root.access == old(root.access)
  {
    r := Ok(());
    if root.disk.keyring.value.active != prior {
      RotatingSetActive(root.disk, prior, backup);
      var kr := SetActive(root.disk.keyring.value, prior);
      if kr.None? {
        return Err;
      }
      var io := root.Commit(root.disk.(keyring := kr));
      r := FromIo(io);
    }
  }

  lemma ReactivatedStages(d: Disk, e: Disk, prior: nat, backup: Bundle)
    requires Rotating(d, prior, backup) && prior + 1 in Deks(d.keyring.value.entries)
    requires e.keyring == d.keyring || e.keyring == SetActive(d.keyring.value, prior)
    requires e == d.(keyring := e.keyring, files := e.files, identity := e.identity, stores := e.stores)
    requires FilesUnderKeys(e.files, Deks(d.keyring.value.entries), prior, prior + 1)
    requires
      var a, b := WrapKey(Deks(d.keyring.value.entries)[prior]), WrapKey(Deks(d.keyring.value.entries)[prior + 1]);
      IdentityUnderEither(e.identity, b, a) && StoresUnderEither(e.stores, b, a)
    requires ContentsOf(e) == ContentsOf(d)
    ensures Rotating(e, prior, backup) && Toward(d, e, prior, backup)
  {
    RotatingSetActive(d, prior, backup);
  }

  /** What moving everything back to the old DEK does while the keyring has both. */
  ghost predicate MovesBack(d: Disk, e: Disk, prior: nat, backup: Bundle, before: seq<Fate>, after: seq<Fate>,
                            r: Outcome<()>)
    requires Rotating(d, prior, backup)
  {
    && Toward(d, e, prior, backup) && Rotating(e, prior, backup) && e.journal == d.journal
    && prior + 1 in Deks(e.keyring.value.entries)
    && e.recovery == d.recovery
    && (r.Ok? ==> e.keyring.value.active == prior && AllUnder(e, prior))
    && (TakesEffect(NextFate(before)) ==> e.keyring.value.active == prior)
    && (!TakesEffect(NextFate(before)) ==> e == d && !r.Ok?)
    && (NextFate(before) == Fail(false) ==> r.Err?)
    && (NextFate(before) == Crash(true) ==> e == Reactivated(d, prior))
    && (before == [] ==> r.Ok?)
    && (NoneAt(d.files, prior) ==> Takes(UndoSteps(d) - 2, before, after, r.Ok?))
  }

  /** The part of a rollback that runs while the keyring has both DEKs. */
  method RollbackMaterial(root: Root, kek: Key, keys: map<nat, Key>, prior: nat, backup: Bundle)
    returns (r: Outcome<()>)
    requires Rotating(root.disk, prior, backup)
    requires keys == Deks(root.disk.keyring.value.entries) && prior + 1 in keys && kek == KekOf(root.disk.keyring.value)
    modifies root
    ensures MovesBack(old(root.disk), root.disk, prior, backup, old(root.fates), root.fates, r)
    ensures NextFate(old(root.fates)) == Crash(true) ==> r.Stopped?
    ensures Onward(old(root.fates), root.fates) && root.access == old(root.access)
  {
    var oldWrap, newWrap := WrapKey(keys[prior]), WrapKey(keys[prior + 1]);
    if root.disk.identity.None? {
      return Err;
    }
    var identity := Open(newWrap, root.disk.identity.value, IDENTITY_AAD);
    if identity.None? {
      identity := Open(oldWrap, root.disk.identity.value, IDENTITY_AAD);
    }
    if identity.None? {
      return Err;
    }
    r := MoveBack(root, kek, keys, identity.value, prior, backup, newWrap, oldWrap);
  }

  /** The old DEK is active again, then everything is re-sealed under it. */
  method MoveBack(root: Root, kek: Key, keys: map<nat, Key>, identityRoot: Key, prior: nat, backup: Bundle,
                  newWrap: Key, oldWrap: Key)
    returns (r: Outcome<()>)
    requires Rotating(root.disk, prior, backup) && root.disk.manifest == Some(identityRoot)
    requires keys == Deks(root.disk.keyring.value.entries) && prior + 1 in keys && kek == KekOf(root.disk.keyring.value)
    requires oldWrap == WrapKey(keys[prior]) && newWrap == WrapKey(keys[prior + 1])
    modifies root
    ensures MovesBack(old(root.disk), root.disk, prior, backup, old(root.fates), root.fates, r)
    ensures NextFate(old(root.fates)) == Crash(true) ==> r.Stopped?
    ensures Onward(old(root.fates), root.fates) && root.access == old(root.access)
  {
    ghost var d, before := root.disk, root.fates;
    r := ReactivateAndOpen(root, kek, identityRoot, prior, backup);
    ghost var middle := root.fates;
    if r.Ok? {
      r := RewrapEverything(root, keys, prior, prior, newWrap, oldWrap);
      if NoneAt(d.files, prior) { TakesBoth(1, UndoSteps(d) - 3, before, middle, root.fates, r.Ok?); }
    } else {
      TakesNeither(1, UndoSteps(d) - 3, before, middle);
    }
    MovedBack(d, root.disk, prior, backup, before, root.fates, r);
  }

  lemma MovedBack(d: Disk, e: Disk, prior: nat, backup: Bundle, before: seq<Fate>, after: seq<Fate>, r: Outcome<()>)
    requires Rotating(d, prior, backup) && prior + 1 in Deks(d.keyring.value.entries)
    requires e.keyring == d.keyring || e.keyring == SetActive(d.keyring.value, prior)
    requires e == d.(keyring := e.keyring, files := e.files, identity := e.identity, stores := e.stores)
    requires FilesUnderKeys(e.files, Deks(d.keyring.value.entries), prior, prior + 1)
    requires
      var a, b := WrapKey(Deks(d.keyring.value.entries)[prior]), WrapKey(Deks(d.keyring.value.entries)[prior + 1]);
      && IdentityUnderEither(e.identity, b, a) && StoresUnderEither(e.stores, b, a)
      && (r.Ok? ==>
            && e.keyring == SetActive(d.keyring.value, prior)
            && IdentityUnder(e.identity, a) && StoresUnder(e.stores, a)
            && FilesUnder(e.files, prior, Deks(d.keyring.value.entries)[prior]))
    requires ContentsOf(e) == ContentsOf(d)
    requires TakesEffect(NextFate(before)) ==> e.keyring == SetActive(d.keyring.value, prior)
    requires !TakesEffect(NextFate(before)) ==> e == d && !r.Ok?
    requires NextFate(before) == Fail(false) ==> r.Err?
    requires NextFate(before) == Crash(true) ==> e == Reactivated(d, prior)
    requires before == [] ==> r.Ok?
    requires NoneAt(d.files, prior) ==> Takes(UndoSteps(d) - 2, before, after, r.Ok?)
    ensures MovesBack(d, e, prior, backup, before, after, r)
  {
    ReactivatedStages(d, e, prior, backup);
    RotatingSetActive(d, prior, backup);
  }

  method ReactivateAndOpen(root: Root, kek: Key, identityRoot: Key, prior: nat, backup: Bundle) returns (r: Outcome<()>)
    requires Rotating(root.disk, prior, backup)
    modifies root
    ensures
      || root.disk == old(root.disk)
      || root.disk == old(root.disk).(keyring := SetActive(old(root.disk).keyring.value, prior))
    ensures Rotating(root.disk, prior, backup)
    ensures Deks(root.disk.keyring.value.entries) == old(Deks(root.disk.keyring.value.entries))
    ensures r.Ok? ==> root.disk == Reactivated(old(root.disk), prior)
    ensures NextFate(old(root.fates)) == Crash(true) ==> r.Stopped?
    ensures TakesEffect(NextFate(old(root.fates))) ==> root.disk == Reactivated(old(root.disk), prior)
    ensures !TakesEffect(NextFate(old(root.fates))) ==> root.disk == old(root.disk) && !r.Ok?
    ensures NextFate(old(root.fates)) == Fail(false) ==> r.Err?
    ensures kek == old(KekOf(root.disk.keyring.value)) && old(root.disk.manifest) == Some(identityRoot) ==>
              Takes(1, old(root.fates), root.fates, r.Ok?)
    ensures Onward(old(root.fates), root.fates) && root.access == old(root.access)
  {
    RotatingSetActive(root.disk, prior, backup);
    var kr := SetActive(root.disk.keyring.value, prior);
    if kr.None? {
      return Err;
    }
    var io := root.Commit(root.disk.(keyring := kr));
    if !io.Done? {
      return FromIo(io);
    }
    var unwrapped := UnwrapKeyring(root.disk.keyring.value, kek);
    r := if unwrapped.Some? && root.disk.manifest == Some(identityRoot) then Ok(()) else Err;
  }

  /** Files first, then identity and material, all toward the active DEK. */
  method RewrapEverything(root: Root, keys: map<nat, Key>, active: nat, ghost prior: nat, from: Key, to: Key)
    returns (r: Outcome<()>)
    requires active in keys && (active == prior || active == prior + 1)
    requires FilesUnderKeys(root.disk.files, keys, prior, prior + 1)
    requires IdentityUnderEither(root.disk.identity, from, to) && StoresUnderEither(root.disk.stores, from, to)
    modifies root
    ensures root.disk == old(root.disk).(files := root.disk.files, identity := root.disk.identity,
                                         stores := root.disk.stores)
    ensures FilesUnderKeys(root.disk.files, keys, prior, prior + 1)
    ensures IdentityUnderEither(root.disk.identity, from, to) && StoresUnderEither(root.disk.stores, from, to)
    ensures ContentsOf(root.disk) == old(ContentsOf(root.disk))
    ensures r.Ok? ==>
              && FilesUnder(root.disk.files, active, keys[active])
              && IdentityUnder(root.disk.identity, to) && StoresUnder(root.disk.stores, to)
    ensures old(root.fates) == [] ==> r.Ok?
    ensures old(NoneAt(root.disk.files, active)) ==>
              Takes(old(|root.disk.files| + MaterialSteps(root.disk.stores)), old(root.fates), root.fates, r.Ok?)
    ensures Onward(old(root.fates), root.fates) && root.access == old(root.access)
  {
    ghost var before, counting := root.fates, NoneAt(root.disk.files, active);
    ghost var m, n := |root.disk.files|, MaterialSteps(root.disk.stores);
    r := RewrapAllFiles(root, keys, active, prior);
    ghost var middle := root.fates;
    if !r.Ok? {
      if counting { TakesNeither(m, n, before, middle); }
      return;
    }
    r := RewrapAllMaterial(root, from, to);
    if counting { TakesBoth(m, n, before, middle, root.fates, r.Ok?); }
  }
}
