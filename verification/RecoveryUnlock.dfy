/** Unlocking with the recovery phrase, which restores the active DEK without
the KEK, and repairing keychain custody on the way. */
module RecoveryUnlock {
  import opened Crypto
  import opened Effects
  import opened Keyring
  import opened VaultDisk
  import opened Handles
  import opened Rotation
  import opened KeyRotation
  import opened Unlock

  function RestoreMasterKey(bundle: Bundle, phrase: Secret): Option<Key> {
    if phrase.Phrase? then Open(Derived(phrase, bundle.salt), bundle.box, RECOVERY_AAD) else None
  }

  /** A bundle without a version is taken to be the active one's. */
  function BundleVersion(bundle: Bundle, active: nat): nat {
    if bundle.version.Some? then bundle.version.value else active
  }

  /** No operation is pending that normal custody has to recover first, and
  everything is under the active DEK. */
  ghost predicate Restorable(d: Disk) {
    Whole(d) || Based(d)
  }

  /** The phrase is the one the vault's bundle was issued with. */
  ghost predicate PhraseOpens(d: Disk, phrase: Secret) {
    Restorable(d) && d.recovery.value.box.key.secret == phrase
  }

  /** When the recovery phrase opens a stranded vault: once the rollback has put the
  old bundle back, and then it is the old phrase. */
  lemma StrandedPhrase(d: Disk, e: Disk, phrase: Secret)
    requires Settled(d) && d.journal.None? && Stranded(d, e)
    ensures Adrift(e)
    ensures PhraseOpens(e, phrase) <==> e.recovery == d.recovery && phrase == d.recovery.value.box.key.secret
  {
  }

  /** At rest, the active DEK alone reads every file, the identity root and all
  material; older DEKs are not needed for anything. */
  lemma ActiveDekSuffices(d: Disk, keys: map<nat, Key>)
    requires Settled(d)
    requires d.keyring.value.active in keys && keys[d.keyring.value.active] == ActiveDek(d.keyring.value)
    ensures forall f :: f in d.files ==>
                          && CanRead(d.files[f], keys, f)
                          && Open(keys[d.files[f].version], d.files[f].box, AadFor(f)) == Some(ContentsOf(d).files[f])
    ensures LoadIdentity(d, keys[d.keyring.value.active]) == ContentsOf(d).identity
    ensures forall id: StoreId, i :: 0 <= i < |d.stores.Get(id)| ==>
                                       Open(WrapKey(keys[d.keyring.value.active]), d.stores.Get(id)[i].box,
                                            StoreAad(id)).Some?
  {
    forall id: StoreId, i | 0 <= i < |d.stores.Get(id)|
      ensures Open(WrapKey(keys[d.keyring.value.active]), d.stores.Get(id)[i].box, StoreAad(id)).Some?
    {
      assert StoreUnder(d.stores.Get(id), id, WrapKey(ActiveDek(d.keyring.value)));
    }
  }

  /** The disk after the first `k` writes of a keychain repair. */
  ghost function RepairStage(d: Disk, newKek: Key, k: nat): Disk
    requires k <= 2 && d.keyring.Some? && KeyringOk(d.keyring.value)
  {
    var d1 := d.(scoped := Some(Encoded(newKek)));
    if k == 0 then d else if k == 1 then d1
    else d1.(keyring := Some(ReplaceWithSingle(newKek, d.keyring.value.active, ActiveDek(d.keyring.value))))
  }

  /** The states a keychain repair passes through. */
  lemma RepairStages(d: Disk, newKek: Key)
    requires Restorable(d) && d.salt.None?
    ensures
      var d1 := RepairStage(d, newKek, 1);
      var d2 := RepairStage(d, newKek, 2);
      && Restorable(d1) && Whole(d2) && (Whole(d) ==> Whole(d1)) && d2.keyring.value.active == d.keyring.value.active
      && ActiveDek(d2.keyring.value) == ActiveDek(d.keyring.value)
      && Deks(d2.keyring.value.entries) == map[d.keyring.value.active := ActiveDek(d.keyring.value)]
      && KekOf(d2.keyring.value) == newKek
  {
    var active, dek := d.keyring.value.active, ActiveDek(d.keyring.value);
    DeksAt(d.keyring.value.entries);
    CreateOk(newKek, active, dek);
    SingleKeyring(d, RepairStage(d, newKek, 2), ReplaceWithSingle(newKek, active, dek));
  }

  /** One DEK, the active one, is all a vault needs whose files are under it. */
  lemma SingleKeyring(d: Disk, e: Disk, kr: KeyringFile)
    requires Restorable(d) && d.salt.None? && KeyringOk(kr) && kr.active == d.keyring.value.active
    requires Deks(kr.entries) == map[kr.active := ActiveDek(d.keyring.value)]
    requires e == d.(keyring := Some(kr), scoped := e.scoped)
    ensures Whole(e)
  {
  }

  /** The keyring and credential a repair writes. */
  ghost predicate Repaired(d: Disk, e: Disk, newKek: Key)
    requires d.keyring.Some? && KeyringOk(d.keyring.value)
  {
    && e.keyring == Some(ReplaceWithSingle(newKek, d.keyring.value.active, ActiveDek(d.keyring.value)))
    && e.scoped == Some(Encoded(newKek))
  }

  /** Between the two writes of a repair a keychain that refused to release a
  working credential has lost it: unless the legacy slot holds the KEK too, no
  custody credential opens the vault any more. The recovery phrase still does. */
  lemma RepairHalfDone(d: Disk, newKek: Key, custody: Custody, passphrase: Option<string>, access: Access)
    requires Restorable(d) && d.salt.None? && newKek != KekOf(d.keyring.value)
    ensures
      var e := RepairStage(d, newKek, 1);
      && (CredentialOpens(e, custody, passphrase, access) <==>
            custody.OsKeychain? && access.Readable? && d.legacy == Some(Encoded(KekOf(d.keyring.value))))
      && PhraseOpens(e, d.recovery.value.box.key.secret)
  {
  }

  /** Everything but the keyring, its keychain slot and a pending bootstrap is as
  it was, and so is the active DEK. */
  ghost predicate SameActive(d: Disk, e: Disk) {
    && d.keyring.Some? && e.keyring.Some? && KeyringOk(d.keyring.value) && KeyringOk(e.keyring.value)
    && e == d.(keyring := e.keyring, scoped := e.scoped, audit := e.audit, journal := e.journal)
    && e.keyring.value.active == d.keyring.value.active && ActiveDek(e.keyring.value) == ActiveDek(d.keyring.value)
    && (e.keyring == d.keyring || (d.salt.None? && e.scoped == Some(Encoded(KekOf(e.keyring.value)))))
  }

  /** Keychain custody, and the keychain answers but does not yield the KEK: it
  does not hold it, or refuses to release it. */
  ghost predicate NeedsRepair(d: Disk, access: Access)
    requires d.keyring.Some? && KeyringOk(d.keyring.value)
  {
    && d.salt.None? && !access.Unavailable?
    && !(access.Readable? && Held(d.scoped, d.legacy, KekOf(d.keyring.value)))
  }

  /** A repair is made if the vault needs one, or if only the legacy slot holds the KEK
  and copying it reports an error. */
  ghost predicate Repairs(d: Disk, access: Access, fates: seq<Fate>)
    requires d.keyring.Some? && KeyringOk(d.keyring.value)
  {
    || NeedsRepair(d, access)
    || (&& d.salt.None? && access.Readable? && Held(d.scoped, d.legacy, KekOf(d.keyring.value))
        && d.scoped != Some(Encoded(KekOf(d.keyring.value))) && NextFate(fates).Fail?)
  }

  /** That is how repair is decided. */
  method ShouldRepairKeychain(root: Root) returns (r: Outcome<bool>)
    requires Restorable(root.disk)
    modifies root
    ensures root.disk == old(root.disk).(scoped := root.disk.scoped)
    ensures SameButScoped(old(root.disk), root.disk)
    ensures r.Ok? && r.value ==> root.disk.salt.None? && !root.access.Unavailable?
    ensures r.Ok? ==> (r.value <==> old(Repairs(root.disk, root.access, root.fates)))
    ensures old(NeedsRepair(root.disk, root.access)) ==>
              r == Ok(true) && root.disk == old(root.disk) && root.fates == old(root.fates)
    ensures old(&& root.disk.scoped == Some(Encoded(KekOf(root.disk.keyring.value)))
                && !NeedsRepair(root.disk, root.access)) ==>
              r == Ok(false) && root.disk == old(root.disk)
    ensures !r.Err? && (old(root.fates) == [] ==> r == Ok(old(NeedsRepair(root.disk, root.access))))
    ensures Onward(old(root.fates), root.fates) && root.access == old(root.access)
  {
    if root.disk.keyring.None? || root.disk.salt.Some? {
      return Ok(false);
    }
    var loaded := LoadKeychainUnwrapped(root);
    r := match loaded
    case Ok(_) => Ok(false)
    case Err => Ok(!root.access.Unavailable?)
    case Stopped => Stopped;
  }

  /** When a recovery unlock replaces keyring and credential: if the vault needs
  it, or if copying a legacy credential failed; never while the vault's own slot
  yields the KEK. */
  ghost predicate RepairsExactly(d: Disk, e: Disk, access: Access, newKek: Key, fates: seq<Fate>, ok: bool)
    requires d.keyring.Some? && KeyringOk(d.keyring.value)
  {
    && (ok ==>
          if Repairs(d, access, fates) then Repaired(d, e, newKek) else e.keyring == d.keyring && SameOpeners(d, e))
    && (NeedsRepair(d, access) && Progress(fates, 2) < 2 ==> !ok && e == RepairStage(d, newKek, Progress(fates, 2)))
    && (d.scoped == Some(Encoded(KekOf(d.keyring.value))) && !NeedsRepair(d, access) ==>
          e.keyring == d.keyring && e.scoped == d.scoped)
    && (!NeedsRepair(d, access) && Smooth(fates, 1) ==> e.keyring == d.keyring && SameOpeners(d, e))
  }

  method UnlockWithRecovery(root: Root, phrase: Secret, newKek: Key) returns (r: Outcome<VaultHandle>)
    requires Sound(root.disk) || Adrift(root.disk)
    modifies root
    ensures old(!PhraseOpens(root.disk, phrase)) ==> r.Err? && root.disk == old(root.disk)
    ensures old(PhraseOpens(root.disk, phrase)) ==> Restorable(root.disk) && SameActive(old(root.disk), root.disk)
    ensures old(PhraseOpens(root.disk, phrase) && Whole(root.disk)) ==> Whole(root.disk)
    // a repair leaves a vault at rest, even where the active DEK was not the newest
    ensures old(PhraseOpens(root.disk, phrase)) && root.disk.keyring != old(root.disk.keyring) ==> Whole(root.disk)
    ensures r.Ok? ==>
              && root.disk.journal.None? && Based(root.disk) && fresh(r.value) && Coherent(r.value, root.disk)
              && r.value.keys == map[root.disk.keyring.value.active := ActiveDek(root.disk.keyring.value)]
              && r.value.custody == if old(Repairs(root.disk, root.access, root.fates)) then OsKeychain else Recovery
    ensures old(root.fates == [] && PhraseOpens(root.disk, phrase)) ==> r.Ok?
    ensures old(PhraseOpens(root.disk, phrase)) ==>
              RepairsExactly(old(root.disk), root.disk, old(root.access), newKek, old(root.fates), r.Ok?)
    ensures Onward(old(root.fates), root.fates) && root.access == old(root.access)
  {
    if root.disk.recovery.None? {
      return Err;
    }
    if root.disk.journal.Some? && !(root.disk.journal.value.Bootstrap? && root.disk.journal.value.phrase.Some?) {
      return Err;
    }
    var dek := RestoreMasterKey(root.disk.recovery.value, phrase);
    if dek.None? || root.disk.keyring.None? {
      return Err;
    }
    var active := root.disk.keyring.value.active;
    if BundleVersion(root.disk.recovery.value, active) != active {
      return Err;
    }
    var identity := LoadIdentity(root.disk, dek.value);
    if identity.None? {
      return Err;
    }
    r := OpenRecovered(root, active, dek.value, newKek);
  }

  /** A fresh KEK in the keychain, then a keyring under it. */
  method RepairKeychain(root: Root, active: nat, dek: Key, newKek: Key) returns (io: Io)
    requires Restorable(root.disk) && root.disk.salt.None?
    requires active == root.disk.keyring.value.active && dek == ActiveDek(root.disk.keyring.value)
    modifies root
    ensures root.disk == RepairStage(old(root.disk), newKek, Progress(old(root.fates), 2))
    ensures io.Done? <==> Smooth(old(root.fates), 2)
    ensures io.Done? ==> Progress(old(root.fates), 2) == 2
    ensures Onward(old(root.fates), root.fates) && root.access == old(root.access)
  {
    ghost var f := root.fates;
    StepForward(f, 0, 2);
    io := root.Commit(root.disk.(scoped := Some(Encoded(newKek))));
    if io.Done? {
      StepForward(f, 1, 2);
      io := root.Commit(root.disk.(keyring := Some(ReplaceWithSingle(newKek, active, dek))));
    }
  }

  lemma RepairedTo(d: Disk, m: Disk, newKek: Key, k: nat)
    requires Restorable(d) && d.salt.None? && SameButScoped(d, m) && Restorable(m) && k <= 2
    ensures
      var e := RepairStage(m, newKek, k);
      && Restorable(e) && SameActive(d, e) && (Whole(m) || k == 2 ==> Whole(e)) && (k == 2 ==> Repaired(d, e, newKek))
      && (e.keyring != d.keyring ==> k == 2)
  {
    RepairStages(m, newKek);
  }

  method OpenRecovered(root: Root, active: nat, dek: Key, newKek: Key) returns (r: Outcome<VaultHandle>)
    requires Restorable(root.disk)
    requires active == root.disk.keyring.value.active && dek == ActiveDek(root.disk.keyring.value)
    modifies root
    ensures Restorable(root.disk) && SameActive(old(root.disk), root.disk)
    ensures old(Whole(root.disk)) || root.disk.keyring != old(root.disk.keyring) ==> Whole(root.disk)
    ensures r.Ok? ==>
              && root.disk.journal.None? && Based(root.disk) && fresh(r.value) && Coherent(r.value, root.disk)
              && r.value.keys == map[root.disk.keyring.value.active := ActiveDek(root.disk.keyring.value)]
              && r.value.custody == if old(Repairs(root.disk, root.access, root.fates)) then OsKeychain else Recovery
    ensures old(root.fates) == [] ==> r.Ok?
    ensures RepairsExactly(old(root.disk), root.disk, old(root.access), newKek, old(root.fates), r.Ok?)
    ensures Onward(old(root.fates), root.fates) && root.access == old(root.access)
  {
    var repaired := RepairIfNeeded(root, active, dek, newKek);
    if !repaired.Ok? {
      return if repaired.Err? then Err else Stopped;
    }
    r := OpenVault(root, Unwrapped(map[active := dek], active), if repaired.value then OsKeychain else Recovery);
  }

  /** Replace keyring and credential if keychain custody does not open the vault. */
  method RepairIfNeeded(root: Root, active: nat, dek: Key, newKek: Key) returns (r: Outcome<bool>)
    requires Restorable(root.disk)
    requires active == root.disk.keyring.value.active && dek == ActiveDek(root.disk.keyring.value)
    modifies root
    ensures Restorable(root.disk) && SameActive(old(root.disk), root.disk)
    ensures root.disk == old(root.disk).(keyring := root.disk.keyring, scoped := root.disk.scoped)
    ensures old(Whole(root.disk)) || root.disk.keyring != old(root.disk.keyring) ==> Whole(root.disk)
    ensures r.Ok? ==> (r.value <==> old(Repairs(root.disk, root.access, root.fates)))
    ensures old(root.fates) == [] ==> r.Ok?
    ensures RepairsExactly(old(root.disk), root.disk, old(root.access), newKek, old(root.fates), r.Ok?)
    ensures Onward(old(root.fates), root.fates) && root.access == old(root.access)
  {
    ghost var d := root.disk;
    r := ShouldRepairKeychain(root);
    if r == Ok(true) {
      ghost var m, k := root.disk, Progress(root.fates, 2);
      var io := RepairKeychain(root, active, dek, newKek);
      RepairedTo(d, m, newKek, k);
      if !io.Done? {
        r := if io.Failed? then Err else Stopped;
      }
    }
  }
}
