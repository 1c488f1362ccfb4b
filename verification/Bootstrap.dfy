/** Creating a vault, and retrying after any interruption. */
module Bootstrap {
  import opened Crypto
  import opened Effects
  import opened Keyring
  import opened VaultDisk
  import opened Handles
  import opened Rotation
  import opened KeyRotation
  import opened Unlock

  /** The random values one bootstrap draws. */
  datatype Draw = Draw(kek: Key, dek: Key, identity: Key, salt: nat, phrase: Secret, bundleSalt: nat)

  /** A vault at rest that a bootstrap with this draw has founded: every drawn value is
  where it belongs, and the KEK is the drawn one, held by the keychain, or the one
  that the passphrase and the drawn salt give. */
  ghost predicate FoundBy(d: Disk, custody: Custody, passphrase: Option<string>, draw: Draw) {
    && d.journal.None? && Settled(d) && d.files == map[] && d.stores == Stores([], [], [])
    && Deks(d.keyring.value.entries) == map[1 := draw.dek] && d.keyring.value.active == 1
    && d.identity.value.plain == draw.identity
    && d.recovery.value.box.key.secret == draw.phrase && d.recovery.value.salt == draw.bundleSalt
    && match custody {
         case OsKeychain =>
           d.salt.None? && d.scoped == Some(Encoded(draw.kek)) && KekOf(d.keyring.value) == draw.kek
         case Passphrase =>
           && d.salt == Some(draw.salt) && passphrase.Some? && |passphrase.value| >= 16
           && KekOf(d.keyring.value) == Derived(Words(passphrase.value), draw.salt)
         case Recovery => false
       }
  }

  // ---- rollback -------------------------------------------------------------------------

  /** The keychain slot holds the credential that the fingerprint names. */
  predicate Matches(scoped: Option<Credential>, fingerprint: Option<Fingerprint>) {
    scoped.Some? && fingerprint == Some(Fingerprint(scoped.value))
  }

  /** What a rollback leaves in the keychain slot: it deletes the credential of a
  keychain bootstrap if it is the one the journal names, and no other. */
  function SlotAfter(scoped: Option<Credential>, custody: Custody,
                     fingerprint: Option<Fingerprint>): Option<Credential> {
    if custody.OsKeychain? && Matches(scoped, fingerprint) then None else scoped
  }

  /** Remove what a bootstrap created before it journalled its phrase. */
  method RollbackBootstrap(root: Root, custody: Custody, fingerprint: Option<Fingerprint>) returns (r: Outcome<()>)
    requires root.disk.journal.Some? && Starting(root.disk, root.disk.journal.value)
    requires custody == root.disk.journal.value.custody && fingerprint == root.disk.journal.value.fingerprint
    modifies root
    ensures Inv(root.disk) && root.disk.files == old(root.disk.files) && root.disk.stores == old(root.disk.stores)
    ensures r.Ok? ==> root.disk.journal.None?
    ensures root.disk.journal == old(root.disk.journal) || (root.disk.journal.None? && Empty(root.disk))
    ensures root.disk.journal.None? ==> root.disk.scoped == SlotAfter(old(root.disk.scoped), custody, fingerprint)
    ensures
      || root.disk.scoped == old(root.disk.scoped)
      || root.disk.scoped == SlotAfter(old(root.disk.scoped), custody, fingerprint)
    ensures root.disk.legacy == old(root.disk.legacy)
    ensures old(root.fates == [] && (custody.OsKeychain? ==> root.access.Readable?)) ==> r.Ok?
    ensures Onward(old(root.fates), root.fates) && root.access == old(root.access)
  {
    var io := RemoveBootstrapFiles(root);
    if io.Done? && custody.OsKeychain? && fingerprint.Some? {
      if !root.access.Readable? {
        return Err;
      }
      if root.disk.scoped.Some? && Fingerprint(root.disk.scoped.value) == fingerprint.value {
        io := root.Commit(root.disk.(scoped := None));
      }
    }
    if io.Done? {
      io := root.Commit(root.disk.(journal := None));
    }
    r := FromIo(io);
  }

  method RemoveBootstrapFiles(root: Root) returns (io: Io)
    modifies root
    ensures root.disk == old(root.disk).(manifest := root.disk.manifest, keyring := root.disk.keyring,
                                         staged := root.disk.staged,
                                         recovery := root.disk.recovery, identity := root.disk.identity,
                                         salt := root.disk.salt)
    ensures io.Done? ==>
              && root.disk.manifest.None? && root.disk.keyring.None? && root.disk.staged.None?
              && root.disk.recovery.None? && root.disk.identity.None? && root.disk.salt.None?
    ensures old(root.fates) == [] ==> io.Done?
    ensures Onward(old(root.fates), root.fates) && root.access == old(root.access)
  {
    io := Done;
    if root.disk.manifest.Some? {
      io := root.Commit(root.disk.(manifest := None));
    }
    if io.Done? && root.disk.keyring.Some? {
      io := root.Commit(root.disk.(keyring := None));
    }
    if io.Done? && root.disk.staged.Some? {
      io := root.Commit(root.disk.(staged := None));
    }
    if io.Done? && root.disk.recovery.Some? {
      io := root.Commit(root.disk.(recovery := None));
    }
    if io.Done? && root.disk.identity.Some? {
      io := root.Commit(root.disk.(identity := None));
    }
    if io.Done? && root.disk.salt.Some? {
      io := root.Commit(root.disk.(salt := None));
    }
  }

  // ---- a fresh vault --------------------------------------------------------------------

  /** The journal of a bootstrap, before and after it knows its phrase. */
  function JournalFor(custody: Custody, draw: Draw, kek: Key, sealed: bool): Journal {
    Journal.Bootstrap(custody,
                      if custody.Passphrase? then Some(draw.salt) else None,
                      if custody.OsKeychain? then Some(Fingerprint(Encoded(kek))) else None,
                      if sealed then Some(Seal(kek, draw.phrase, LIFECYCLE_AAD)) else None)
  }

  /** What a new vault consists of when its phrase is journalled. */
  function Founded(d: Disk, custody: Custody, draw: Draw, kek: Key): Disk {
    d.(journal := Some(JournalFor(custody, draw, kek, true)),
       scoped := if custody.OsKeychain? then Some(Encoded(kek)) else d.scoped,
       salt := if custody.Passphrase? then Some(draw.salt) else d.salt,
       keyring := Some(Create(kek, draw.dek)),
       identity := Some(Seal(WrapKey(draw.dek), draw.identity, IDENTITY_AAD)),
       manifest := Some(draw.identity),
       recovery := Some(NewBundle(1, draw.dek, draw.phrase, draw.bundleSalt)))
  }

  lemma FoundedOk(d: Disk, custody: Custody, draw: Draw, kek: Key)
    requires Empty(d) && !custody.Recovery? && draw.phrase.Phrase?
    requires custody.Passphrase? ==> kek.Derived? && kek.salt == draw.salt
    ensures
      var e := Founded(d, custody, draw, kek);
      && Inv(e) && Whole(e) && PhraseKept(e, e.journal.value)
      && Deks(e.keyring.value.entries) == map[1 := draw.dek] && KekOf(e.keyring.value) == kek
  {
    CreateOk(kek, 1, draw.dek);
  }

  /** Journal, credential or salt, keyring, identity, manifest, bundle, and the
  journal with the phrase. */
  const FOUNDING_STEPS: nat := 7

  method FoundVault(root: Root, custody: Custody, draw: Draw, kek: Key) returns (io: Io)
    requires root.disk.journal.None? && Empty(root.disk) && !custody.Recovery? && draw.phrase.Phrase?
    requires custody.Passphrase? ==> kek.Derived? && kek.salt == draw.salt
    requires custody.OsKeychain? ==> root.disk.scoped.None?
    modifies root
    ensures Inv(root.disk) && root.disk.files == old(root.disk.files) && root.disk.stores == old(root.disk.stores)
    ensures
      || root.disk == old(root.disk)
      || root.disk.journal == Some(JournalFor(custody, draw, kek, false))
      || root.disk == Founded(old(root.disk), custody, draw, kek)
    ensures io.Done? ==> root.disk == Founded(old(root.disk), custody, draw, kek)
    ensures root.disk.scoped == old(root.disk.scoped) || (custody.OsKeychain? && root.disk.scoped == Some(Encoded(kek)))
    ensures Takes(FOUNDING_STEPS, old(root.fates), root.fates, io.Done?)
    ensures root.disk.legacy == old(root.disk.legacy)
    ensures Onward(old(root.fates), root.fates) && root.access == old(root.access)
  {
    ghost var before := root.fates;
    io := FoundKeyring(root, custody, draw, kek);
    ghost var middle, d := root.fates, old(root.disk);
    if io.Done? {
      io := FoundContents(root, custody, draw, kek, d);
      TakesBoth(3, 4, before, middle, root.fates, io.Done?);
    } else {
      TakesNeither(3, 4, before, middle);
    }
  }

  /** What exists once the keyring is written. */
  function KeyringFounded(d: Disk, custody: Custody, draw: Draw, kek: Key): Disk {
    d.(journal := Some(JournalFor(custody, draw, kek, false)),
       scoped := if custody.OsKeychain? then Some(Encoded(kek)) else d.scoped,
       salt := if custody.Passphrase? then Some(draw.salt) else d.salt,
       keyring := Some(Create(kek, draw.dek)))
  }

  method FoundKeyring(root: Root, custody: Custody, draw: Draw, kek: Key) returns (io: Io)
    requires root.disk.journal.None? && Empty(root.disk) && !custody.Recovery?
    modifies root
    ensures root.disk == old(root.disk) || root.disk.journal == Some(JournalFor(custody, draw, kek, false))
    ensures Inv(root.disk) && root.disk.files == map[] && root.disk.stores == Stores([], [], [])
    ensures root.disk.scoped == old(root.disk.scoped) || (custody.OsKeychain? && root.disk.scoped == Some(Encoded(kek)))
    ensures io.Done? ==> root.disk == KeyringFounded(old(root.disk), custody, draw, kek)
    ensures Takes(3, old(root.fates), root.fates, io.Done?)
    ensures root.disk.legacy == old(root.disk.legacy)
    ensures Onward(old(root.fates), root.fates) && root.access == old(root.access)
  {
    ghost var f := root.fates;
    io := root.Commit(root.disk.(journal := Some(JournalFor(custody, draw, kek, false))));
    OneStepMore(f, 0, 3, root.fates, io.Done?);
    if io.Done? {
      io := root.Commit(if custody.OsKeychain? then root.disk.(scoped := Some(Encoded(kek)))
                        else root.disk.(salt := Some(draw.salt)));
      OneStepMore(f, 1, 3, root.fates, io.Done?);
    }
    if io.Done? {
      io := root.Commit(root.disk.(keyring := Some(Create(kek, draw.dek))));
      OneStepMore(f, 2, 3, root.fates, io.Done?);
    }
  }

  method FoundContents(root: Root, custody: Custody, draw: Draw, kek: Key, ghost d: Disk) returns (io: Io)
    requires Empty(d) && d.journal.None? && !custody.Recovery? && draw.phrase.Phrase?
    requires custody.Passphrase? ==> kek.Derived? && kek.salt == draw.salt
    requires root.disk == KeyringFounded(d, custody, draw, kek)
    modifies root
    ensures
      || root.disk.journal == Some(JournalFor(custody, draw, kek, false))
      || root.disk == Founded(d, custody, draw, kek)
    ensures Inv(root.disk) && root.disk.files == map[] && root.disk.stores == Stores([], [], [])
    ensures root.disk.scoped == old(root.disk.scoped)
    ensures io.Done? ==> root.disk == Founded(d, custody, draw, kek)
    ensures Takes(4, old(root.fates), root.fates, io.Done?)
    ensures root.disk.legacy == old(root.disk.legacy)
    ensures Onward(old(root.fates), root.fates) && root.access == old(root.access)
  {
    ghost var f := root.fates;
    FoundedOk(d, custody, draw, kek);
    io := root.Commit(root.disk.(identity := Some(Seal(WrapKey(draw.dek), draw.identity, IDENTITY_AAD))));
    OneStepMore(f, 0, 4, root.fates, io.Done?);
    if io.Done? {
      io := root.Commit(root.disk.(manifest := Some(draw.identity)));
      OneStepMore(f, 1, 4, root.fates, io.Done?);
    }
    if io.Done? {
      io := root.Commit(root.disk.(recovery := Some(NewBundle(1, draw.dek, draw.phrase, draw.bundleSalt))));
      OneStepMore(f, 2, 4, root.fates, io.Done?);
    }
    if io.Done? {
      io := root.Commit(root.disk.(journal := Some(JournalFor(custody, draw, kek, true))));
      OneStepMore(f, 3, 4, root.fates, io.Done?);
    }
  }

  // ---- finishing a bootstrap whose phrase is journalled ------------------------------------

  /** The same custody and credential as the interrupted bootstrap. */
  ghost predicate Resumes(d: Disk, custody: Custody, passphrase: Option<string>, access: Access)
    requires d.journal.Some? && Finishing(d, d.journal.value)
  {
    custody == d.journal.value.custody && CredentialOpens(d, custody, passphrase, access)
  }

  method ResumeBootstrap(root: Root, custody: Custody, passphrase: Option<string>)
    returns (r: Outcome<(VaultHandle, Secret)>)
    requires root.disk.journal.Some? && root.disk.journal.value.Bootstrap?
    requires Finishing(root.disk, root.disk.journal.value)
    modifies root
    ensures Whole(root.disk)
    ensures root.disk == old(root.disk).(scoped := root.disk.scoped, audit := root.disk.audit,
                                         journal := root.disk.journal)
    ensures
      || root.disk.scoped == old(root.disk.scoped)
      || (root.disk.scoped.Some? && root.disk.scoped == root.disk.legacy)
    ensures SameOpeners(old(root.disk), root.disk)
    ensures root.disk.journal == old(root.disk.journal) || root.disk.journal.None?
    ensures old(!Resumes(root.disk, custody, passphrase, root.access)) ==> r.Err? && root.disk == old(root.disk)
    ensures r.Ok? ==>
              && root.disk.journal.None? && fresh(r.value.0) && Coherent(r.value.0, root.disk)
              && r.value.0.custody == custody && r.value.0.keys == Deks(root.disk.keyring.value.entries)
              && r.value.1 == old(root.disk.journal.value.phrase.value.plain)
    ensures (&& old(root.fates == [] && Resumes(root.disk, custody, passphrase, root.access))
             && PhraseKept(old(root.disk), old(root.disk).journal.value)) ==>
              r.Ok?
    ensures old(Bootstraps(root.disk, custody, passphrase, root.access)) ==>
              Retryable(root.disk, custody, passphrase, root.access)
    ensures Onward(old(root.fates), root.fates) && root.access == old(root.access)
  {
    ghost var d := root.disk;
    r := ResumeWith(root, custody, passphrase);
    if Bootstraps(d, custody, passphrase, root.access) {
      ResumedRetries(d, root.disk, custody, passphrase, root.access);
    }
  }

  method ResumeWith(root: Root, custody: Custody, passphrase: Option<string>)
    returns (r: Outcome<(VaultHandle, Secret)>)
    requires root.disk.journal.Some? && root.disk.journal.value.Bootstrap?
    requires Finishing(root.disk, root.disk.journal.value)
    modifies root
    ensures Whole(root.disk)
    ensures root.disk == old(root.disk).(scoped := root.disk.scoped, audit := root.disk.audit,
                                         journal := root.disk.journal)
    ensures
      || root.disk.scoped == old(root.disk.scoped)
      || (root.disk.scoped.Some? && root.disk.scoped == root.disk.legacy)
    ensures SameOpeners(old(root.disk), root.disk)
    ensures root.disk.journal == old(root.disk.journal) || root.disk.journal.None?
    ensures old(!Resumes(root.disk, custody, passphrase, root.access)) ==> r.Err? && root.disk == old(root.disk)
    ensures r.Ok? ==>
              && root.disk.journal.None? && fresh(r.value.0) && Coherent(r.value.0, root.disk)
              && r.value.0.custody == custody && r.value.0.keys == Deks(root.disk.keyring.value.entries)
              && r.value.1 == old(root.disk.journal.value.phrase.value.plain)
    ensures (&& old(root.fates == [] && Resumes(root.disk, custody, passphrase, root.access))
             && PhraseKept(old(root.disk), old(root.disk).journal.value)) ==>
              r.Ok?
    ensures Onward(old(root.fates), root.fates) && root.access == old(root.access)
  {
    var journal := root.disk.journal.value;
    if journal.custody != custody {
      return Err;
    }
    var kek := CustodyKek(root, custody, passphrase);
    if !kek.Ok? {
      return if kek.Err? then Err else Stopped;
    }
    var unwrapped := UnwrapKeyring(root.disk.keyring.value, kek.value);
    if unwrapped.None? {
      return Err;
    }
    var phrase := Open(kek.value, journal.phrase.value, LIFECYCLE_AAD);
    if phrase.None? {
      return Err;
    }
    var handle := OpenVault(root, unwrapped.value, custody);
    r := match handle
    case Ok(h) => Ok((h, phrase.value))
    case Err => Err
    case Stopped => Stopped;
  }

  // ---- the facade operation ----------------------------------------------------------------

  /** The custody and passphrase can found a vault here; `clear` says that the
  vault's keychain slot is, or will be made, free. */
  ghost predicate Founds(custody: Custody, passphrase: Option<string>, access: Access, clear: bool) {
    match custody
    case OsKeychain => access.Readable? && clear
    case Passphrase => passphrase.Some? && |passphrase.value| >= 16
    case Recovery => false
  }

  /** An uninterrupted bootstrap from `d` succeeds. */
  ghost predicate Bootstraps(d: Disk, custody: Custody, passphrase: Option<string>, access: Access)
    requires Inv(d)
  {
    match d.journal
    case None => Empty(d) && Founds(custody, passphrase, access, d.scoped.None?)
    case Some(j) =>
      && j.Bootstrap?
      && if j.phrase.Some? then PhraseKept(d, j) && Resumes(d, custody, passphrase, access)
         else
           && (j.custody.OsKeychain? ==> access.Readable?)
           && Founds(custody, passphrase, access, SlotAfter(d.scoped, j.custody, j.fingerprint).None?)
  }

  /** The vault is complete and the credential opens it. */
  ghost predicate Complete(d: Disk, custody: Custody, passphrase: Option<string>, access: Access) {
    d.journal.None? && Settled(d) && CredentialOpens(d, custody, passphrase, access)
  }

  /** A retry with the same custody and passphrase succeeds, or there is nothing
  left to retry. */
  ghost predicate Retryable(d: Disk, custody: Custody, passphrase: Option<string>, access: Access) {
    Inv(d) && (Bootstraps(d, custody, passphrase, access) || Complete(d, custody, passphrase, access))
  }

  /** The KEK is the one this credential gives. */
  ghost predicate KekFor(custody: Custody, passphrase: Option<string>, draw: Draw, kek: Key) {
    match custody
    case OsKeychain => kek == draw.kek
    case Passphrase =>
      passphrase.Some? && |passphrase.value| >= 16 && kek == Derived(Words(passphrase.value), draw.salt)
    case Recovery => false
  }

  lemma StartedRetries(e: Disk, custody: Custody, passphrase: Option<string>, access: Access, draw: Draw, kek: Key)
    requires Inv(e) && e.journal == Some(JournalFor(custody, draw, kek, false))
    requires Founds(custody, passphrase, access, true)
    requires custody.OsKeychain? ==> e.scoped.None? || e.scoped == Some(Encoded(kek))
    ensures Bootstraps(e, custody, passphrase, access)
  {
  }

  lemma FoundedRetries(d: Disk, e: Disk, custody: Custody, passphrase: Option<string>, access: Access, draw: Draw,
                       kek: Key)
    requires Empty(d) && draw.phrase.Phrase? && Founds(custody, passphrase, access, true)
    requires KekFor(custody, passphrase, draw, kek)
    requires
      var f := Founded(d, custody, draw, kek);
      e == f.(audit := e.audit, journal := e.journal) && (e.journal == f.journal || e.journal.None?) && Whole(e)
    ensures Retryable(e, custody, passphrase, access)
  {
    FoundedOk(d, custody, draw, kek);
  }

  lemma ResumedRetries(d: Disk, e: Disk, custody: Custody, passphrase: Option<string>, access: Access)
    requires Inv(d) && Bootstraps(d, custody, passphrase, access) && d.journal.Some? && d.journal.value.phrase.Some?
    requires e == d.(scoped := e.scoped, audit := e.audit, journal := e.journal)
    requires e.journal == d.journal || e.journal.None?
    requires Whole(e) && SameOpeners(d, e)
    ensures Retryable(e, custody, passphrase, access)
  {
  }

  /** Where a bootstrap has nothing to do: a vault exists, or another operation
  must be recovered first. */
  ghost predicate Refused(d: Disk) {
    || Stuck(d)
    || (d.journal.Some? && !d.journal.value.Bootstrap?)
    || (d.journal.None? && d.keyring.Some?)
  }

  method BootstrapVault(root: Root, custody: Custody, passphrase: Option<string>, draw: Draw)
    returns (r: Outcome<(VaultHandle, Secret)>)
    requires Sound(root.disk)
    requires draw.phrase.Phrase? && draw.kek.Random?
    modifies root
    ensures old(Refused(root.disk)) ==> r.Err? && root.disk == old(root.disk)
    ensures old(Inv(root.disk)) ==> Inv(root.disk)
    ensures root.disk.files == old(root.disk.files) && root.disk.stores == old(root.disk.stores)
    ensures
      || root.disk.identity == old(root.disk.identity)
      || (root.disk.files == map[] && root.disk.stores == Stores([], [], []))
    ensures r.Ok? ==>
              && root.disk.journal.None? && Settled(root.disk)
              && fresh(r.value.0) && Coherent(r.value.0, root.disk) && r.value.0.custody == custody
              && r.value.0.keys == Deks(root.disk.keyring.value.entries) && old(!Refused(root.disk))
              && (old(root.disk.journal.Some? && root.disk.journal.value.phrase.Some?) ==>
                    r.value.1 == old(root.disk.journal.value.phrase.value.plain)
                    && root.disk.keyring == old(root.disk.keyring) && root.disk.recovery == old(root.disk.recovery))
              && (old(root.disk.journal.None? || root.disk.journal.value.phrase.None?) ==>
                    r.value.1 == draw.phrase && FoundBy(root.disk, custody, passphrase, draw))
    ensures root.disk.legacy == old(root.disk.legacy)
    ensures old(&& root.disk.journal.Some? && root.disk.journal.value.Bootstrap?
                && root.disk.journal.value.phrase.Some?) ==>
              && root.disk.keyring == old(root.disk.keyring) && root.disk.recovery == old(root.disk.recovery)
              && (root.disk.journal == old(root.disk.journal) || root.disk.journal.None?)
    // a credential is deleted only if a pending bootstrap stored it
    ensures old(root.disk.scoped.Some?) && root.disk.scoped != old(root.disk.scoped) ==>
              old(JournalNames(root.disk)) || (root.disk.scoped.Some? && root.disk.scoped == root.disk.legacy)
    ensures old(Foreign(root.disk)) ==> root.disk.scoped == old(root.disk.scoped) && (custody.OsKeychain? ==> !r.Ok?)
    ensures old(root.fates == [] && Inv(root.disk) && Bootstraps(root.disk, custody, passphrase, root.access)) ==> r.Ok?
    ensures old(Inv(root.disk) && Bootstraps(root.disk, custody, passphrase, root.access)) ==>
              Retryable(root.disk, custody, passphrase, root.access)
    ensures old(&& root.disk.journal.None? && Empty(root.disk)
                && Founds(custody, passphrase, root.access, root.disk.scoped.None?)) ==>
              (!r.Ok? && Complete(root.disk, custody, passphrase, root.access) <==>
               Unreported(old(root.fates), FOUNDING_STEPS + 2))
    ensures Onward(old(root.fates), root.fates) && root.access == old(root.access)
  {
    if root.disk.journal.None? {
      if root.disk.manifest.Some? || root.disk.keyring.Some? {
        return Err;
      }
      r := BootstrapFresh(root, custody, passphrase, draw);
      return;
    }
    match root.disk.journal.value
    case Bootstrap(pending, _, fingerprint, phrase) =>
      if phrase.Some? {
        r := ResumeBootstrap(root, custody, passphrase);
      } else {
        r := BootstrapAgain(root, custody, passphrase, draw);
      }
    case _ =>
      r := Err;
  }

  /** Roll back a bootstrap that has no phrase yet and start afresh. */
  method BootstrapAgain(root: Root, custody: Custody, passphrase: Option<string>, draw: Draw)
    returns (r: Outcome<(VaultHandle, Secret)>)
    requires root.disk.journal.Some? && Starting(root.disk, root.disk.journal.value) && draw.phrase.Phrase?
    requires draw.kek.Random?
    modifies root
    ensures Inv(root.disk) && root.disk.files == old(root.disk.files) && root.disk.stores == old(root.disk.stores)
    ensures r.Ok? ==>
              && FoundBy(root.disk, custody, passphrase, draw) && r.value.0.keys == map[1 := draw.dek]
              && fresh(r.value.0) && Coherent(r.value.0, root.disk) && r.value.0.custody == custody
              && r.value.1 == draw.phrase
    ensures old(root.disk.scoped.Some? && !JournalNames(root.disk)) ==>
              root.disk.scoped == old(root.disk.scoped) && (custody.OsKeychain? ==> !r.Ok?)
    ensures old(Bootstraps(root.disk, custody, passphrase, root.access)) ==>
              Retryable(root.disk, custody, passphrase, root.access) && (old(root.fates) == [] ==> r.Ok?)
    ensures root.disk.legacy == old(root.disk.legacy)
    ensures Onward(old(root.fates), root.fates) && root.access == old(root.access)
  {
    var undone := RollbackBootstrap(root, root.disk.journal.value.custody, root.disk.journal.value.fingerprint);
    if !undone.Ok? {
      return if undone.Err? then Err else Stopped;
    }
    r := BootstrapFresh(root, custody, passphrase, draw);
  }

  /** A bootstrap in a directory without a vault. */
  method BootstrapFresh(root: Root, custody: Custody, passphrase: Option<string>, draw: Draw)
    returns (r: Outcome<(VaultHandle, Secret)>)
    requires root.disk.journal.None? && Empty(root.disk) && draw.phrase.Phrase? && draw.kek.Random?
    modifies root
    ensures Inv(root.disk) && root.disk.files == old(root.disk.files) && root.disk.stores == old(root.disk.stores)
    ensures old(root.disk.scoped.Some?) ==>
              root.disk.scoped == old(root.disk.scoped) && (custody.OsKeychain? ==> r.Err?)
    ensures r.Ok? ==>
              && FoundBy(root.disk, custody, passphrase, draw) && r.value.0.keys == map[1 := draw.dek]
              && fresh(r.value.0) && Coherent(r.value.0, root.disk) && r.value.0.custody == custody
              && r.value.1 == draw.phrase
    ensures Founds(custody, passphrase, root.access, old(root.disk.scoped.None?)) ==>
              && Retryable(root.disk, custody, passphrase, root.access) && (old(root.fates) == [] ==> r.Ok?)
              && (!r.Ok? && Complete(root.disk, custody, passphrase, root.access) <==>
                    Unreported(old(root.fates), FOUNDING_STEPS + 2))
    ensures root.disk.legacy == old(root.disk.legacy)
    ensures Onward(old(root.fates), root.fates) && root.access == old(root.access)
  {
    match custody
    case OsKeychain =>
      if !root.access.Readable? || root.disk.scoped.Some? {
        return Err;
      }
      r := FoundAndOpen(root, custody, passphrase, draw, draw.kek);
    case Passphrase =>
      if passphrase.None? || |passphrase.value| < MIN_PASSPHRASE_CHARS {
        return Err;
      }
      r := FoundAndOpen(root, custody, passphrase, draw, Derived(Words(passphrase.value), draw.salt));
    case Recovery =>
      r := Err;
  }

  /** The keychain credential is the one the pending bootstrap stored. */
  ghost predicate JournalNames(d: Disk) {
    d.journal.Some? && d.journal.value.Bootstrap? && Matches(d.scoped, d.journal.value.fingerprint)
  }

  /** A bootstrap that has to be rolled back, while the vault's keychain slot holds
  a credential that it did not store. */
  ghost predicate Foreign(d: Disk) {
    && d.journal.Some? && d.journal.value.Bootstrap? && d.journal.value.phrase.None?
    && d.scoped.Some? && !Matches(d.scoped, d.journal.value.fingerprint)
  }

  method FoundAndOpen(root: Root, custody: Custody, ghost passphrase: Option<string>, draw: Draw, kek: Key)
    returns (r: Outcome<(VaultHandle, Secret)>)
    requires root.disk.journal.None? && Empty(root.disk) && !custody.Recovery? && draw.phrase.Phrase?
    requires custody.Passphrase? ==> kek.Derived? && kek.salt == draw.salt
    requires custody.OsKeychain? ==> root.disk.scoped.None?
    requires KekFor(custody, passphrase, draw, kek)
    modifies root
    ensures Inv(root.disk) && root.disk.files == old(root.disk.files) && root.disk.stores == old(root.disk.stores)
    ensures root.disk.scoped == old(root.disk.scoped) || (custody.OsKeychain? && root.disk.scoped == Some(Encoded(kek)))
    ensures r.Ok? ==>
              && FoundBy(root.disk, custody, passphrase, draw) && r.value.0.keys == map[1 := draw.dek]
              && fresh(r.value.0) && Coherent(r.value.0, root.disk) && r.value.0.custody == custody
              && r.value.1 == draw.phrase
    ensures old(root.fates) == [] ==> r.Ok?
    ensures Founds(custody, passphrase, root.access, old(root.disk.scoped.None?)) ==>
              Retryable(root.disk, custody, passphrase, root.access)
    ensures !r.Ok? && root.disk.journal.None? && root.disk.keyring.Some? <==>
              Unreported(old(root.fates), FOUNDING_STEPS + 2)
    ensures root.disk.journal.None? && root.disk.keyring.Some? ==>
              Settled(root.disk) && (root.access.Readable? ==>
                                       CredentialOpens(root.disk, custody, passphrase, root.access))
    ensures root.disk.legacy == old(root.disk.legacy)
    ensures Onward(old(root.fates), root.fates) && root.access == old(root.access)
  {
    ghost var d := root.disk;
    ghost var founds := Founds(custody, passphrase, root.access, d.scoped.None?);
    FoundedOk(root.disk, custody, draw, kek);
    UnreportedLater(root.fates, FOUNDING_STEPS, 2);
    var io := FoundVault(root, custody, draw, kek);
    if founds && root.disk != d {
      if root.disk == Founded(d, custody, draw, kek) {
        FoundedRetries(d, root.disk, custody, passphrase, root.access, draw, kek);
      } else {
        StartedRetries(root.disk, custody, passphrase, root.access, draw, kek);
      }
    }
    if !io.Done? {
      return if io.Failed? then Err else Stopped;
    }
    var handle := OpenVault(root, Unwrapped(map[1 := draw.dek], 1), custody);
    if founds { FoundedRetries(d, root.disk, custody, passphrase, root.access, draw, kek); }
    r := match handle
    case Ok(h) => Ok((h, draw.phrase))
    case Err => Err
    case Stopped => Stopped;
  }
}
