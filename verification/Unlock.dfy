/** Unlocking: recover whatever lifecycle operation was interrupted, then open
the vault. */
module Unlock {
  import opened Crypto
  import opened Effects
  import opened Keyring
  import opened VaultDisk
  import opened Handles
  import opened Rotation
  import opened CustodyChange
  import opened KeychainMove
  import opened KeyRotation

  // ---- the audit log of a new vault ---------------------------------------------------

  /** Open the audit log, or create it: the empty file, then its checkpoint. */
  method EnsureBootstrapAudit(root: Root, identityRoot: Key) returns (r: Outcome<()>)
    modifies root
    ensures root.disk == old(root.disk).(audit := root.disk.audit)
    ensures SlotStep(old(root.disk.audit), root.disk.audit, AuditKey(identityRoot))
    ensures r.Ok? ==> root.disk.audit == Ready(AuditKey(identityRoot))
    ensures old(root.fates == [] && (root.disk.audit.Ready? ==> root.disk.audit.key == AuditKey(identityRoot))) ==>
              r.Ok?
    ensures old(root.disk.audit).NoLog? ==> Takes(2, old(root.fates), root.fates, r.Ok?)
    ensures Onward(old(root.fates), root.fates) && root.access == old(root.access)
  {
    var key := AuditKey(identityRoot);
    if root.disk.audit.Ready? {
      return if root.disk.audit.key == key then Ok(()) else Err;
    }
    SmoothAdds(root.fates, 1, 1);
    var io := Done;
    if root.disk.audit.NoLog? {
      io := root.Commit(root.disk.(audit := EmptyActive));
    }
    if io.Done? {
      io := root.Commit(root.disk.(audit := Ready(key)));
    }
    r := FromIo(io);
  }

  /** A vault at rest, or one whose bootstrap only lacks the audit log. */
  ghost predicate Whole(d: Disk) {
    || (d.journal.None? && Settled(d))
    || (d.journal.Some? && d.journal.value.Bootstrap? && Finishing(d, d.journal.value))
  }

  method FinishPendingBootstrap(root: Root, identityRoot: Key) returns (r: Outcome<()>)
    requires Loose(root.disk) || (Whole(root.disk) && identityRoot == root.disk.identity.value.plain)
    modifies root
    ensures root.disk == old(root.disk).(audit := root.disk.audit, journal := root.disk.journal)
    ensures (old(Whole(root.disk)) ==> Whole(root.disk)) && (r.Ok? ==> root.disk.journal.None?)
    ensures old(root.disk.journal.None?) ==> r.Ok? && root.disk == old(root.disk)
    ensures root.disk.journal == old(root.disk.journal) || root.disk.journal.None?
    ensures old(root.fates) == [] ==> r.Ok?
    ensures old(root.disk.journal.Some? && root.disk.audit.NoLog?) ==>
              (!r.Ok? && root.disk.journal.None? <==> Unreported(old(root.fates), 2))
    ensures Onward(old(root.fates), root.fates) && root.access == old(root.access)
  {
    if root.disk.journal.None? {
      return Ok(());
    }
    UnreportedLater(root.fates, 2, 0);
    r := EnsureBootstrapAudit(root, identityRoot);
    if r.Ok? {
      var io := root.Commit(root.disk.(journal := None));
      r := FromIo(io);
    }
  }

  /** The active DEK opens the identity, and it is the one of the manifest. */
  ghost predicate IdentityReads(d: Disk)
    requires d.keyring.Some? && KeyringOk(d.keyring.value)
  {
    LoadIdentity(d, ActiveDek(d.keyring.value)).Some? && d.manifest == LoadIdentity(d, ActiveDek(d.keyring.value))
  }

  /** The end of every unlock: identity, manifest, pending bootstrap, handle. */
  method OpenVault(root: Root, unwrapped: Unwrapped, custody: Custody) returns (r: Outcome<VaultHandle>)
    requires Whole(root.disk) || Loose(root.disk)
    requires unwrapped.active == root.disk.keyring.value.active && unwrapped.active in unwrapped.keys
    requires unwrapped.keys[unwrapped.active] == ActiveDek(root.disk.keyring.value)
    modifies root
    ensures root.disk == old(root.disk).(audit := root.disk.audit, journal := root.disk.journal)
    ensures old(Whole(root.disk)) ==> Whole(root.disk)
    ensures r.Ok? ==>
              && root.disk.journal.None? && fresh(r.value) && Coherent(r.value, root.disk)
              && r.value.keys == unwrapped.keys && r.value.custody == custody
    ensures old(root.disk.journal.None?) ==>
              root.disk == old(root.disk) && !r.Stopped? && (r.Ok? <==> IdentityReads(root.disk))
    ensures root.disk.journal == old(root.disk.journal) || root.disk.journal.None?
    ensures old(Whole(root.disk)) && old(root.fates) == [] ==> r.Ok?
    ensures old(root.disk.journal.Some? && root.disk.audit.NoLog?) ==>
              (!r.Ok? && root.disk.journal.None? <==> Unreported(old(root.fates), 2))
    ensures Onward(old(root.fates), root.fates) && root.access == old(root.access)
  {
    var identity := LoadIdentity(root.disk, unwrapped.keys[unwrapped.active]);
    if identity.None? || root.disk.manifest != identity {
      return Err;
    }
    var finished := FinishPendingBootstrap(root, identity.value);
    if !finished.Ok? {
      return if finished.Err? then Err else Stopped;
    }
    var h := new VaultHandle(unwrapped, custody, identity.value);
    r := Ok(h);
  }

  // ---- which credential opens what ------------------------------------------------------

  ghost predicate CredentialOpens(d: Disk, custody: Custody, passphrase: Option<string>, access: Access) {
    && d.keyring.Some? && KeyringOk(d.keyring.value)
    && match custody {
         case Passphrase => PassphraseKek(d, passphrase) == Some(KekOf(d.keyring.value))
         case OsKeychain => access.Readable? && Held(d.scoped, d.legacy, KekOf(d.keyring.value))
         case Recovery => false
       }
  }

  /** The credential is one that this state of the disk answers to. */
  ghost predicate Authentic(d: Disk, custody: Custody, passphrase: Option<string>, access: Access)
    requires Inv(d)
  {
    match d.journal
    case None => Settled(d) && CredentialOpens(d, custody, passphrase, access)
    case Some(j) =>
      match j
      case Bootstrap(_, _, _, phrase) => phrase.Some? && CredentialOpens(d, custody, passphrase, access)
      case ChangePassphrase(_, _) => custody.Passphrase? && PassphraseKek(d, passphrase) == Some(PassphraseOpener(d))
      case MoveToKeychain => MoveCanFinish(d, access) || PassphraseCanUndo(d, custody, passphrase)
      case Rotate(_, _, _) => CredentialOpens(d, custody, passphrase, access)
  }

  /** Keychain custody is refused while the passphrase salt is on disk, unless a
  move is about to remove it. */
  ghost predicate Unlocks(d: Disk, custody: Custody, passphrase: Option<string>, access: Access)
    requires Inv(d)
  {
    && Authentic(d, custody, passphrase, access)
    && (custody.OsKeychain? ==> d.salt.None? || d.journal == Some(MoveToKeychain))
  }

  /** What unlocking may change: with a rotation pending, only its new DEK goes;
  otherwise every DEK and the active version stay. */
  ghost predicate UnlockKeeps(d: Disk, e: Disk) {
    && ContentsOf(e) == ContentsOf(d)
    && (d.keyring.Some? && KeyringOk(d.keyring.value) && (d.journal.None? || d.journal.value.Rotate?) ==>
          SameOpeners(d, e))
    && (d.keyring.Some? ==>
          && e.keyring.Some?
          && if d.journal.Some? && d.journal.value.Rotate?
             then
               var prior := d.journal.value.oldVersion;
               && KeptDeks(e, prior) == KeptDeks(d, prior)
               && (e.journal.None? ==> e.keyring.value.active == prior && e.recovery == Some(d.journal.value.backup))
             else
               && Deks(e.keyring.value.entries) == Deks(d.keyring.value.entries)
               && e.keyring.value.active == d.keyring.value.active && e.recovery == d.recovery)
  }

  // ---- recovery of an interrupted operation ---------------------------------------------

  /** A rollback, finished or not, is a state an unlock may leave. */
  lemma RollbackKeeps(d: Disk, m: Disk, e: Disk, custody: Custody, passphrase: Option<string>, access: Access)
    requires Inv(d) && d.journal.Some? && d.journal.value.Rotate? && SameButScoped(d, m)
    requires Toward(m, e, d.journal.value.oldVersion, d.journal.value.backup)
    ensures Inv(e) && UnlockKeeps(d, e)
    ensures CredentialOpens(d, custody, passphrase, access) ==> CredentialOpens(e, custody, passphrase, access)
  {
  }

  /** What recovering a rotation does to the disk and reports. */
  ghost predicate RotationRecovers(d: Disk, e: Disk, r: Outcome<Custody>, custody: Custody, passphrase: Option<string>,
                                   access: Access, calm: bool)
  {
    && Inv(e) && UnlockKeeps(d, e) && e.salt == d.salt
    && (CredentialOpens(d, custody, passphrase, access) ==> CredentialOpens(e, custody, passphrase, access))
    && (!CredentialOpens(d, custody, passphrase, access) ==> r.Err? && e == d)
    && (calm && CredentialOpens(d, custody, passphrase, access) ==> r.Ok?)
  }

  lemma RollbackRecovers(d: Disk, m: Disk, e: Disk, kek: Key, r: Outcome<Custody>, custody: Custody,
                         passphrase: Option<string>, access: Access, calm: bool)
    requires Inv(d) && d.journal.Some? && d.journal.value.Rotate? && SameButScoped(d, m)
    requires custody.Passphrase? ==> m == d && Some(kek) == PassphraseKek(d, passphrase)
    requires custody.OsKeychain? ==> CredentialOpens(d, OsKeychain, passphrase, access) && kek == KekOf(d.keyring.value)
    requires !custody.Recovery?
    requires kek != KekOf(m.keyring.value) ==> r.Err? && e == m
    requires kek == KekOf(m.keyring.value) ==>
               Toward(m, e, d.journal.value.oldVersion, d.journal.value.backup) && (calm ==> r.Ok?)
    ensures RotationRecovers(d, e, r, custody, passphrase, access, calm)
  {
    if kek == KekOf(m.keyring.value) {
      RollbackKeeps(d, m, e, custody, passphrase, access);
    } else {
      assert e == d;
    }
  }

  method RecoverRotation(root: Root, custody: Custody, passphrase: Option<string>) returns (r: Outcome<Custody>)
    requires root.disk.journal.Some? && root.disk.journal.value.Rotate? && (Inv(root.disk) || LockedOut(root.disk))
    modifies root
    ensures old(LockedOut(root.disk)) ==> r.Err? && root.disk == old(root.disk)
    ensures old(Inv(root.disk)) ==>
              RotationRecovers(old(root.disk), root.disk, r, custody, passphrase, root.access, old(root.fates) == [])
    ensures root.disk.journal == old(root.disk.journal) || root.disk.journal.None?
    ensures r.Ok? ==> r.value == custody && root.disk.journal.None?
    ensures Onward(old(root.fates), root.fates) && root.access == old(root.access)
  {
    ghost var d, calm := root.disk, root.fates == [];
    var kek := CustodyKek(root, custody, passphrase);
    if !kek.Ok? {
      return if kek.Err? then Err else Stopped;
    }
    ghost var m := root.disk;
    r := RollBackUnder(root, kek.value, custody);
    if Inv(d) { RollbackRecovers(d, m, root.disk, kek.value, r, custody, passphrase, root.access, calm); }
  }

  method RollBackUnder(root: Root, kek: Key, custody: Custody) returns (r: Outcome<Custody>)
    requires root.disk.journal.Some? && root.disk.journal.value.Rotate? && (Inv(root.disk) || LockedOut(root.disk))
    modifies root
    ensures old(LockedOut(root.disk)) ==> r.Err? && root.disk == old(root.disk)
    ensures old(Inv(root.disk) && kek != KekOf(root.disk.keyring.value)) ==> r.Err? && root.disk == old(root.disk)
    ensures old(Inv(root.disk) && kek == KekOf(root.disk.keyring.value)) ==>
              && (old(root.fates) == [] ==> r.Ok?)
              && var j := old(root.disk.journal.value);
              Toward(old(root.disk), root.disk, j.oldVersion, j.backup)
    ensures root.disk.journal == old(root.disk.journal) || root.disk.journal.None?
    ensures r.Ok? ==> r.value == custody && root.disk.journal.None?
    ensures Onward(old(root.fates), root.fates) && root.access == old(root.access)
  {
    var journal := root.disk.journal.value;
    if Inv(root.disk) { LoadOpens(root.disk.keyring.value, kek); }
    if LockedOut(root.disk) { NoKeyNoInvariant(root.disk); }
    var undone := RollbackRotation(root, kek, journal.oldVersion, journal.newVersion, journal.backup);
    r := match undone
    case Ok(_) => Ok(custody)
    case Err => Err
    case Stopped => Stopped;
  }

  /** After recovery the effective custody opens what is on disk. */
  method RecoverLifecycle(root: Root, custody: Custody, passphrase: Option<string>) returns (r: Outcome<Custody>)
    requires Sound(root.disk) || Loose(root.disk)
    modifies root
    ensures old(Stuck(root.disk)) ==> r.Err? && root.disk == old(root.disk)
    ensures old(root.disk.journal.None?) ==>
              r == Ok(custody) && root.disk == old(root.disk) && root.fates == old(root.fates)
    ensures old(Inv(root.disk)) ==> Inv(root.disk) && UnlockKeeps(old(root.disk), root.disk)
    ensures root.disk.journal == old(root.disk.journal) || root.disk.journal.None?
    ensures old(Inv(root.disk)) && r.Ok? ==>
              && (Whole(root.disk) || (root.disk.journal.None? && Empty(root.disk)))
              && (old(Inv(root.disk) && Authentic(root.disk, custody, passphrase, root.access)) ==>
                    CredentialOpens(root.disk, r.value, passphrase, root.access))
              && (|| r.value == custody
                  || (&& r.value.OsKeychain? && root.disk.salt.None?
                      && CredentialOpens(root.disk, OsKeychain, passphrase, root.access)))
    ensures old(Inv(root.disk) && !Authentic(root.disk, custody, passphrase, root.access)) ==>
              root.disk == old(root.disk) && !r.Stopped? && (r.Ok? ==> r.value == custody)
    ensures r.Ok? ==> root.disk.journal.None? || root.disk == old(root.disk)
    ensures r.Ok? && r.value.OsKeychain? && old(root.disk.salt.None? || root.disk.journal == Some(MoveToKeychain)) ==>
              root.disk.salt.None?
    ensures old(Inv(root.disk) && Authentic(root.disk, custody, passphrase, root.access) && root.fates == []) ==> r.Ok?
    ensures Onward(old(root.fates), root.fates) && root.access == old(root.access)
  {
    if root.disk.journal.None? {
      return Ok(custody);
    }
    match root.disk.journal.value
    case Bootstrap(_, _, _, phrase) =>
      r := if phrase.Some? then Ok(custody) else Err;
    case _ =>
      r := RecoverOperation(root, custody, passphrase);
  }

  /** A journal left by an operation other than bootstrap. */
  method RecoverOperation(root: Root, custody: Custody, passphrase: Option<string>) returns (r: Outcome<Custody>)
    requires Sound(root.disk)
    requires root.disk.journal.Some? && !root.disk.journal.value.Bootstrap?
    modifies root
    ensures old(Stuck(root.disk)) ==> r.Err? && root.disk == old(root.disk)
    ensures old(Inv(root.disk)) ==> Inv(root.disk) && UnlockKeeps(old(root.disk), root.disk)
    ensures root.disk.journal == old(root.disk.journal) || root.disk.journal.None?
    ensures r.Ok? ==> root.disk.journal.None?
    ensures old(Inv(root.disk)) && r.Ok? ==>
              && Whole(root.disk) && CredentialOpens(root.disk, r.value, passphrase, root.access)
              && (r.value == custody || (r.value.OsKeychain? && root.disk.salt.None?))
    ensures old(Inv(root.disk) && !Authentic(root.disk, custody, passphrase, root.access)) ==>
              r.Err? && root.disk == old(root.disk)
    ensures r.Ok? && r.value.OsKeychain? && old(root.disk.salt.None? || root.disk.journal == Some(MoveToKeychain)) ==>
              root.disk.salt.None?
    ensures old(Inv(root.disk) && Authentic(root.disk, custody, passphrase, root.access) && root.fates == []) ==> r.Ok?
    ensures Onward(old(root.fates), root.fates) && root.access == old(root.access)
  {
    match root.disk.journal.value
    case ChangePassphrase(_, _) =>
      r := RecoverChange(root, custody, passphrase);
    case MoveToKeychain =>
      r := RecoverMove(root, custody, passphrase);
    case Rotate(_, _, _) =>
      if LockedOut(root.disk) && Inv(root.disk) { NoKeyNoInvariant(root.disk); }
      r := RecoverRotation(root, custody, passphrase);
  }

  method UnlockWithKeychain(root: Root) returns (r: Outcome<VaultHandle>)
    requires Whole(root.disk) || Empty(root.disk) || Loose(root.disk)
    modifies root
    ensures root.disk == old(root.disk).(scoped := root.disk.scoped, audit := root.disk.audit,
                                         journal := root.disk.journal)
    ensures old(Empty(root.disk)) ==> r.Err? && root.disk == old(root.disk)
    ensures old(Whole(root.disk)) ==> Whole(root.disk) && SameOpeners(old(root.disk), root.disk)
    ensures old(Loose(root.disk)) ==> SameButScoped(old(root.disk), root.disk)
    ensures root.disk.journal == old(root.disk.journal) || root.disk.journal.None?
    ensures old(root.disk.salt.Some? || !CredentialOpens(root.disk, OsKeychain, None, root.access)) ==>
              r.Err? && root.disk == old(root.disk)
    ensures r.Ok? ==>
              && root.disk.journal.None? && fresh(r.value) && Coherent(r.value, root.disk)
              && r.value.keys == Deks(root.disk.keyring.value.entries) && r.value.custody.OsKeychain?
              && root.disk.scoped == Some(Encoded(KekOf(root.disk.keyring.value)))
    ensures old(&& root.fates == [] && root.disk.salt.None? && Whole(root.disk)
                && CredentialOpens(root.disk, OsKeychain, None, root.access)) ==>
              r.Ok?
    ensures old(Loose(root.disk)) && r.Ok? ==> IdentityReads(old(root.disk))
    ensures old(&& Loose(root.disk) && root.fates == [] && IdentityReads(root.disk) && root.disk.salt.None?
                && CredentialOpens(root.disk, OsKeychain, None, root.access)) ==>
              r.Ok?
    ensures Onward(old(root.fates), root.fates) && root.access == old(root.access)
  {
    if root.disk.salt.Some? || root.disk.keyring.None? {
      return Err;
    }
    var loaded := LoadKeychainUnwrapped(root);
    if !loaded.Ok? {
      return if loaded.Err? then Err else Stopped;
    }
    r := OpenVault(root, loaded.value.1, OsKeychain);
  }

  method UnlockWithPassphrase(root: Root, passphrase: Option<string>) returns (r: Outcome<VaultHandle>)
    requires Whole(root.disk) || Empty(root.disk) || Loose(root.disk)
    modifies root
    ensures root.disk == old(root.disk).(audit := root.disk.audit, journal := root.disk.journal)
    ensures old(Empty(root.disk)) ==> r.Err? && root.disk == old(root.disk)
    ensures old(Whole(root.disk)) ==> Whole(root.disk)
    ensures root.disk.journal == old(root.disk.journal) || root.disk.journal.None?
    ensures old(!CredentialOpens(root.disk, Passphrase, passphrase, root.access)) ==>
              r.Err? && root.disk == old(root.disk)
    ensures r.Ok? ==>
              && root.disk.journal.None? && fresh(r.value) && Coherent(r.value, root.disk)
              && r.value.keys == Deks(root.disk.keyring.value.entries) && r.value.custody.Passphrase?
    ensures old(&& root.fates == [] && Whole(root.disk)
                && CredentialOpens(root.disk, Passphrase, passphrase, root.access)) ==>
              r.Ok?
    ensures old(Loose(root.disk)) ==>
              && root.disk == old(root.disk)
              && (r.Ok? <==>
                    old(IdentityReads(root.disk) && CredentialOpens(root.disk, Passphrase, passphrase, root.access)))
    ensures Onward(old(root.fates), root.fates) && root.access == old(root.access)
  {
    var kek := PassphraseKek(root.disk, passphrase);
    if kek.None? || root.disk.keyring.None? {
      return Err;
    }
    var unwrapped := UnwrapKeyring(root.disk.keyring.value, kek.value);
    if unwrapped.None? {
      return Err;
    }
    r := OpenVault(root, unwrapped.value, Passphrase);
  }

  /** With nothing pending, the credential opens the keyring and the active DEK the
  identity. */
  ghost predicate OpensLoose(d: Disk, custody: Custody, passphrase: Option<string>, access: Access) {
    && CredentialOpens(d, custody, passphrase, access) && IdentityReads(d)
    && (custody.OsKeychain? ==> d.salt.None?)
  }

  lemma OpeningKeeps(d: Disk, m: Disk, e: Disk)
    requires UnlockKeeps(d, m) && (m.journal.None? || m == d) && Whole(m) && Whole(e)
    requires e == m.(scoped := e.scoped, audit := e.audit, journal := e.journal)
    requires m.journal.None? ==> e.journal.None?
    requires SameOpeners(m, e)
    ensures Inv(e) && UnlockKeeps(d, e) && (e.journal.None? ==> Settled(e))
  {
  }

  /** One unlock, interrupted anywhere or nowhere. It succeeds, when nothing
  interrupts it, exactly for the credential this state of the disk answers to;
  any other credential changes nothing. */
  method UnlockVault(root: Root, custody: Custody, passphrase: Option<string>) returns (r: Outcome<VaultHandle>)
    requires Sound(root.disk) || Loose(root.disk)
    modifies root
    ensures old(Stuck(root.disk)) ==> r.Err? && root.disk == old(root.disk)
    ensures old(Inv(root.disk)) ==> Inv(root.disk) && UnlockKeeps(old(root.disk), root.disk)
    ensures root.disk.journal == old(root.disk.journal) || root.disk.journal.None?
    ensures old(Inv(root.disk) && !Authentic(root.disk, custody, passphrase, root.access)) ==>
              r.Err? && root.disk == old(root.disk)
    ensures r.Ok? ==>
              && root.disk.journal.None? && fresh(r.value) && Coherent(r.value, root.disk)
              && r.value.keys == Deks(root.disk.keyring.value.entries) && (old(Inv(root.disk)) ==> Settled(root.disk))
              && r.value.custody == (if root.disk.salt.Some? then Passphrase else OsKeychain)
              && (r.value.custody.OsKeychain? ==> root.disk.scoped == Some(Encoded(KekOf(root.disk.keyring.value))))
    ensures old(root.fates == [] && Inv(root.disk) && Unlocks(root.disk, custody, passphrase, root.access)) ==> r.Ok?
    // with nothing pending, whatever is under which DEK
    ensures old(Loose(root.disk)) ==>
              && SameButScoped(old(root.disk), root.disk)
              && (r.Ok? ==> old(OpensLoose(root.disk, custody, passphrase, root.access)))
              && (old(root.fates) == [] ==> (r.Ok? <==> old(OpensLoose(root.disk, custody, passphrase, root.access))))
    ensures Onward(old(root.fates), root.fates) && root.access == old(root.access)
  {
    ghost var d := root.disk;
    if LockedOut(d) && Inv(d) { NoKeyNoInvariant(d); }
    var recovered := RecoverLifecycle(root, custody, passphrase);
    if !recovered.Ok? {
      return if recovered.Err? then Err else Stopped;
    }
    ghost var m := root.disk;
    r := OpenUnder(root, recovered.value, passphrase);
    if Whole(m) { OpeningKeeps(d, m, root.disk); }
  }

  /** Open the vault under the effective custody. */
  method OpenUnder(root: Root, custody: Custody, passphrase: Option<string>) returns (r: Outcome<VaultHandle>)
    requires Whole(root.disk) || Empty(root.disk) || Loose(root.disk)
    modifies root
    ensures root.disk == old(root.disk).(scoped := root.disk.scoped, audit := root.disk.audit,
                                         journal := root.disk.journal)
    ensures old(Empty(root.disk)) ==> r.Err? && root.disk == old(root.disk)
    ensures old(Whole(root.disk)) ==> Whole(root.disk) && SameOpeners(old(root.disk), root.disk)
    ensures old(Loose(root.disk)) ==> SameButScoped(old(root.disk), root.disk)
    ensures root.disk.journal == old(root.disk.journal) || root.disk.journal.None?
    ensures old(!CredentialOpens(root.disk, custody, passphrase, root.access)
                || (custody.OsKeychain? && root.disk.salt.Some?)) ==>
              r.Err? && root.disk == old(root.disk)
    ensures r.Ok? ==>
              && root.disk.journal.None? && fresh(r.value) && Coherent(r.value, root.disk)
              && r.value.keys == Deks(root.disk.keyring.value.entries)
              && r.value.custody == (if root.disk.salt.Some? then Passphrase else OsKeychain)
              && (r.value.custody.OsKeychain? ==> root.disk.scoped == Some(Encoded(KekOf(root.disk.keyring.value))))
    ensures old(&& root.fates == [] && Whole(root.disk) && CredentialOpens(root.disk, custody, passphrase, root.access)
                && (custody.OsKeychain? ==> root.disk.salt.None?)) ==>
              r.Ok?
    ensures old(Loose(root.disk)) ==>
              && (r.Ok? ==> old(OpensLoose(root.disk, custody, passphrase, root.access)))
              && (old(root.fates) == [] ==> (r.Ok? <==> old(OpensLoose(root.disk, custody, passphrase, root.access))))
    ensures Onward(old(root.fates), root.fates) && root.access == old(root.access)
  {
    match custody
    case OsKeychain =>
      r := UnlockWithKeychain(root);
    case Passphrase =>
      r := UnlockWithPassphrase(root, passphrase);
    case Recovery =>
      r := Err;
  }

  // ---- a passphrase change, seen from the prompt -----------------------------------------------

  /** At every step of a passphrase change exactly one passphrase unlocks: the
  old one while the old salt is on disk, the new one from then on. Only while the
  journal of an earlier keychain move is still there, a held KEK that opens either
  keyring makes the passphrase irrelevant. */
  lemma OnePassphraseUnlocks(d: Disk, next: KeyringFile, newSalt: nat, k: nat, current: string, replacement: string,
                             p: string, access: Access)
    requires MayChange(d, next, newSalt) && Core(d) && k <= 5
    requires KekOf(d.keyring.value) == Derived(Words(current), d.salt.value)
    requires KekOf(next) == Derived(Words(replacement), newSalt)
    ensures
      var e := ChangeStage(d, next, newSalt, k);
      && Inv(e)
      && (Unlocks(e, Passphrase, Some(p), access) <==>
            || p == (if e.salt == d.salt then current else replacement)
            || (k < 2 && e.journal == Some(MoveToKeychain) && MoveCanFinish(e, access)))
  {
    ChangeStages(d, next, newSalt, k);
    ChangeKeepsVault(d, next, newSalt, k);
  }
}
