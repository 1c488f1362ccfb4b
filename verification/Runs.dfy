/** Whole runs: any sequence of operations, each interrupted anywhere, with the
process restarted in between and the keychain changing underneath. */
module Runs {
  import opened Crypto
  import opened Effects
  import opened Keyring
  import opened VaultDisk
  import opened Handles
  import opened Rotation
  import opened KeyRotation
  import opened CustodyChange
  import opened KeychainMove
  import opened Unlock
  import opened RecoveryUnlock
  import Boot = Bootstrap
  import opened VaultFiles

  datatype Command =
    | Bootstrap(custody: Custody, passphrase: Option<string>, draw: Boot.Draw)
    | UnlockWith(custody: Custody, passphrase: Option<string>)
    | Recover(phrase: Secret, newKek: Key)
    | Change(current: string, next: string, newSalt: nat)
    | Move(current: string, newKek: Key)
    | RotateWith(passphrase: Option<string>, newDek: Key, newPhrase: Secret, bundleSalt: nat)
    | Write(file: FileId, plain: Bytes)
    | Delete(file: FileId)
    | CreateEntry(store: StoreId, name: string, clear: Bytes, secret: Bytes)
    | Lock
    | ReplaceScoped(scoped: Option<Credential>)
    | ReplaceLegacy(legacy: Option<Credential>)
    | KeychainBecomes(access: Access)

  /** The random values of a command are what its generators produce. */
  predicate WellDrawn(c: Command) {
    match c
    case Bootstrap(_, _, draw) => draw.phrase.Phrase? && draw.kek.Random?
    case Move(_, newKek) => newKek.Random?
    case RotateWith(_, _, newPhrase, _) => newPhrase.Phrase?
    case _ => true
  }

  /** One entry more in a store. */
  function Grown(a: Contents, id: StoreId, entry: Plain): Contents {
    match id
    case Transit => a.(transit := a.transit + [entry])
    case Signing => a.(signing := a.signing + [entry])
    case Brokers => a.(brokers := a.brokers + [entry])
  }

  /** What the vault holds after a command on `d`: a bootstrap may found an empty vault,
  the content commands do what they say if there is a session and their step takes
  effect, and nothing else changes it. */
  ghost predicate ContentsStep(c: Command, live: bool, d: Disk, fates: seq<Fate>, b: Contents) {
    var a, does := ContentsOf(d), live && TakesEffect(NextFate(fates));
    match c
    case Bootstrap(_, _, _) =>
      || b == a
      || (&& a.files == map[] && a.transit == a.signing == a.brokers == []
          && b == a.(identity := b.identity))
    case Write(file, plain) => b == if does then a.(files := a.files[file := plain]) else a
    case Delete(file) => b == if does then a.(files := a.files - {file}) else a
    case CreateEntry(store, name, clear, secret) =>
      b == if does && NameFree(d, store, name) then Grown(a, store, Plain(name, clear, secret)) else a
    case _ => b == a
  }

  // ---- sessions ----------------------------------------------------------------------------

  /** An open handle, as a value. */
  datatype Session = Session(hold: Hold, custody: Custody, identityRoot: Key)

  /** The state between two commands. */
  datatype Snapshot = Snapshot(disk: Disk, access: Access, session: Option<Session>)

  ghost function SessionOf(h: VaultHandle?): Option<Session>
    reads h
  {
    if h == null then None else Some(Session((h.keys, h.active), h.custody, h.identityRoot))
  }

  ghost function Snap(root: Root, h: VaultHandle?): Snapshot
    reads root, h
  {
    Snapshot(root.disk, root.access, SessionOf(h))
  }

  ghost predicate SessionOk(h: VaultHandle?, d: Disk)
    reads h
  {
    h != null ==> Serving(d) && Attached(h, d)
  }

  // ---- the commands that break the invariant -------------------------------------------------

  /** The keychain loses the KEK that alone opens a vault with a pending move. */
  ghost predicate Severs(c: Command, d: Disk) {
    && d.journal == Some(MoveToKeychain)
    && ((c.ReplaceScoped? && Severed(d.(scoped := c.scoped))) || (c.ReplaceLegacy? && Severed(d.(legacy := c.legacy))))
  }

  /** A rotation that starts strands the vault or, under a wrong KEK, locks it. */
  ghost predicate RotationBreaks(d: Disk, s: Session, c: Command, access: Access, fates: seq<Fate>)
    requires c.RotateWith? && s.hold.1 in s.hold.0
  {
    && Startable(d, s.custody, c.passphrase, access)
    && var n := CopySteps(d, s.custody) + DropStep(d);
    if KekUsed(d, s.custody, c.passphrase) == KekOf(d.keyring.value) then
      Fits(d, WrapKey(s.hold.0[s.hold.1]), c.newDek) && StrandsAt(d, n, fates)
    else LocksAt(d, n, fates)
  }

  /** What breaks the invariant through an open handle: a rotation; a write or an entry
  under a DEK that the vault has not; a change of custody that replaces the journal of
  a half-done rotation. */
  ghost predicate BreaksThrough(c: Command, d: Disk, s: Session, access: Access, fates: seq<Fate>) {
    && s.hold.1 in s.hold.0
    && match c
       case RotateWith(_, _, _, _) => RotationBreaks(d, s, c, access, fates)
       case Write(_, _) => !FileFits(s.hold, d) && TakesEffect(NextFate(fates))
       case CreateEntry(store, name, _, _) =>
         NameFree(d, store, name) && !MaterialFits(s.hold, d) && TakesEffect(NextFate(fates))
       case Change(current, next, newSalt) =>
         d.salt != Some(newSalt) && ChangeOverwrites(d, s.custody, current, next, fates)
       case Move(current, _) => MoveOverwrites(d, s.custody, current, access, fates)
       case _ => false
  }

  ghost predicate Breaks(c: Command, s: Snapshot, fates: seq<Fate>) {
    || Severs(c, s.disk)
    || (s.session.Some? && BreaksThrough(c, s.disk, s.session.value, s.access, fates))
  }

  // ---- one command -----------------------------------------------------------------------

  /** The keyring is in order and the rest of the vault is not. */
  predicate Wrecked(d: Disk) {
    d.keyring.Some? && KeyringOk(d.keyring.value) && !Inv(d) && !Severed(d)
  }

  lemma WreckedIsUnsound(d: Disk)
    ensures Wrecked(d) ==> !Sound(d)
  {
    if d.keyring.Some? && KeyringOk(d.keyring.value) { LoadOpens(d.keyring.value, KekOf(d.keyring.value)); }
  }

  /** What one command may do: contents change only as it says, and the invariant is
  lost if and only if the command breaks it. */
  ghost predicate StepOk(c: Command, fates: seq<Fate>, s: Snapshot, t: Snapshot) {
    && Sound(s.disk) && ContentsStep(c, s.session.Some?, s.disk, fates, ContentsOf(t.disk))
    && (Inv(s.disk) ==> (Inv(t.disk) <==> !Breaks(c, s, fates)))
    && (Sound(t.disk) || Wrecked(t.disk))
    && WorldStep(c, s, t) && SessionStep(c, s, t)
    && Enters(c, s.disk, s.access, fates, t.disk, t.session.Some?)
    && (s.session.Some? && fates == [] ==> Arrives(c, s.disk, s.session.value, s.access, t.disk))
  }

  /** Which vaults the commands that open one open, and what they leave. */
  ghost predicate Enters(c: Command, d: Disk, access: Access, fates: seq<Fate>, e: Disk, entered: bool) {
    match c
    case Bootstrap(custody, passphrase, draw) =>
      && (fates == [] && Inv(d) && Boot.Bootstraps(d, custody, passphrase, access) ==> entered)
      && (entered ==>
            && !Boot.Refused(d)
            && (d.journal.None? || d.journal.value.phrase.None? ==> Boot.FoundBy(e, custody, passphrase, draw)))
    case UnlockWith(custody, passphrase) =>
      && (fates == [] && Inv(d) && Unlocks(d, custody, passphrase, access) ==> entered)
      && (Inv(d) && entered ==> Authentic(d, custody, passphrase, access) && Settled(e))
    case Recover(phrase, newKek) =>
      && (fates == [] && PhraseOpens(d, phrase) ==> entered)
      && (entered ==> PhraseOpens(d, phrase) && (Repairs(d, access, fates) ==> Repaired(d, e, newKek)))
    case _ => true
  }

  /** Where an uninterrupted change of keys through a session leads. */
  ghost predicate Arrives(c: Command, d: Disk, s: Session, access: Access, e: Disk) {
    match c
    case Change(current, next, newSalt) =>
      Inv(d) && Core(d) && d.salt != Some(newSalt) && AcceptsChange(d, s.custody, current, next) ==>
        && e.journal.None? && Settled(e) && e.salt == Some(newSalt)
        && KekOf(e.keyring.value) == Derived(Words(next), newSalt)
    case Move(current, newKek) =>
      Inv(d) && Core(d) && AcceptsMove(d, s.custody, current, access) ==>
        && e.journal.None? && Settled(e) && e.salt.None? && e.scoped == Some(Encoded(newKek))
        && KekOf(e.keyring.value) == newKek
    case RotateWith(passphrase, newDek, newPhrase, bundleSalt) =>
      (&& Startable(d, s.custody, passphrase, access) && Settled(d) && s.hold.1 in s.hold.0
       && KekUsed(d, s.custody, passphrase) == KekOf(d.keyring.value)
       && Fits(d, WrapKey(s.hold.0[s.hold.1]), newDek)) ==>
        Rotated(d, e, newDek, newPhrase) && SaltIs(e, bundleSalt)
    case _ => true
  }

  /** What the world does to the keychain, and that no command of the vault changes whether
  it answers. */
  ghost predicate WorldStep(c: Command, s: Snapshot, t: Snapshot) {
    match c
    case ReplaceScoped(scoped) => t.disk == s.disk.(scoped := scoped) && t.access == s.access
    case ReplaceLegacy(legacy) => t.disk == s.disk.(legacy := legacy) && t.access == s.access
    case KeychainBecomes(access) => t.disk == s.disk && t.access == access
    case Lock => t.disk == s.disk && t.access == s.access
    case _ => t.access == s.access
  }

  /** Commands that open a vault end the session before; a lock ends it; the others work
  through it, or have no effect without it, and end it at most with the process. */
  ghost predicate SessionStep(c: Command, s: Snapshot, t: Snapshot) {
    match c
    case Bootstrap(_, _, _) => true
    case UnlockWith(_, _) => true
    case Recover(_, _) => true
    case Lock => t.session.None?
    case ReplaceScoped(_) => t.session == s.session
    case ReplaceLegacy(_) => t.session == s.session
    case KeychainBecomes(_) => t.session == s.session
    case RotateWith(_, _, _, _) =>
      && (s.session.None? ==> t.session.None? && t.disk == s.disk)
      && (s.session.Some? && t.session.Some? ==>
            t.session.value.custody == s.session.value.custody
            && t.session.value.identityRoot == s.session.value.identityRoot)
    case Move(_, _) =>
      && (s.session.None? ==> t.session.None? && t.disk == s.disk)
      && (s.session.Some? && t.session.Some? ==> t.session.value.hold == s.session.value.hold)
    case _ =>
      (s.session.None? ==> t.disk == s.disk) && (t.session.Some? ==> t.session == s.session)
  }

  /** Commands that open a vault. */
  method Enter(root: Root, c: Command) returns (next: VaultHandle?)
    requires c.Bootstrap? || c.UnlockWith? || c.Recover?
    requires Sound(root.disk) && WellDrawn(c)
    modifies root
    ensures old(Inv(root.disk)) ==> Inv(root.disk)
    ensures old(Stuck(root.disk)) ==> root.disk == old(root.disk)
    ensures SessionOk(next, root.disk) && (next != null ==> fresh(next))
    ensures ContentsStep(c, false, old(root.disk), [], ContentsOf(root.disk))
    ensures Enters(c, old(root.disk), old(root.access), old(root.fates), root.disk, next != null)
    ensures root.access == old(root.access)
  {
    if Stuck(root.disk) { StuckIsOutside(root.disk); }
    next := null;
    match c
    case Bootstrap(custody, passphrase, draw) =>
      var r := Boot.BootstrapVault(root, custody, passphrase, draw);
      if r.Ok? { next := r.value.0; }
    case UnlockWith(custody, passphrase) =>
      var r := UnlockVault(root, custody, passphrase);
      if r.Ok? { next := r.value; }
    case Recover(phrase, newKek) =>
      var r := UnlockWithRecovery(root, phrase, newKek);
      if r.Ok? { next := r.value; }
  }

  /** What a command through a handle does to the disk. */
  ghost predicate ThroughOk(c: Command, d: Disk, e: Disk, s: Session, access: Access, fates: seq<Fate>) {
    && ContentsStep(c, true, d, fates, ContentsOf(e))
    && (Inv(d) ==> (Inv(e) <==> !BreaksThrough(c, d, s, access, fates)))
    && (Sound(e) || Wrecked(e))
    && (Sound(e) ==> Serving(e))
  }

  /** Writing through an open handle. */
  method Use(root: Root, session: VaultHandle, c: Command) returns (r: Outcome<()>)
    requires c.Write? || c.Delete? || c.CreateEntry?
    requires Serving(root.disk) && Attached(session, root.disk)
    modifies root
    ensures ThroughOk(c, old(root.disk), root.disk, old(SessionOf(session).value), old(root.access), old(root.fates))
    ensures Attached(session, root.disk) && root.access == old(root.access)
  {
    ghost var d, hold := root.disk, (session.keys, session.active);
    match c {
      case Write(file, plain) =>
        WrittenStep(d, hold, file, plain);
        r := WriteFile(root, session, file, plain);
      case Delete(file) =>
        DeletedStep(d, file);
        r := DeleteFile(root, file);
      case CreateEntry(store, name, clear, secret) =>
        AddedStep(d, hold, store, name, clear, secret);
        r := CreateMaterial(root, session, store, name, clear, secret);
    }
    ServingStays(d);
  }

  lemma ServingStays(d: Disk)
    requires Serving(d)
    ensures Sound(d) && (Inv(d) ==> !Stuck(d))
  {
    if Stuck(d) { StuckIsOutside(d); }
  }

  /** What an edit that leaves the keyring alone may lead to. */
  ghost predicate Lands(d: Disk, e: Disk, kept: bool) {
    (Inv(d) ==> (Inv(e) <==> kept)) && (Sound(e) || Wrecked(e)) && (Sound(e) ==> Serving(e))
  }

  lemma EditLands(d: Disk, e: Disk, kept: bool)
    requires Serving(d) && e == d.(files := e.files, stores := e.stores)
    requires Inv(d) ==> (Inv(e) <==> kept)
    requires LockedOut(d) ==> LockedOut(e)
    ensures Lands(d, e, kept)
  {
    if LockedOut(d) {
      StuckIsOutside(d);
    } else {
      LoadOpens(d.keyring.value, KekOf(d.keyring.value));
    }
  }

  lemma WrittenStep(d: Disk, hold: Hold, f: FileId, plain: Bytes)
    requires Serving(d) && hold.1 in hold.0
    ensures ContentsOf(Written(d, hold, f, plain)) == ContentsOf(d).(files := ContentsOf(d).files[f := plain])
    ensures Lands(d, Written(d, hold, f, plain), FileFits(hold, d)) && Lands(d, d, true)
  {
    WrittenExactly(d, hold, f, plain);
    EditLands(d, Written(d, hold, f, plain), FileFits(hold, d));
    EditLands(d, d, true);
  }

  lemma DeletedStep(d: Disk, f: FileId)
    requires Serving(d)
    ensures ContentsOf(Deleted(d, f)) == ContentsOf(d).(files := ContentsOf(d).files - {f})
    ensures Lands(d, Deleted(d, f), true) && Lands(d, d, true)
  {
    DeletedExactly(d, f);
    EditLands(d, Deleted(d, f), true);
    EditLands(d, d, true);
  }

  lemma AddedStep(d: Disk, hold: Hold, id: StoreId, name: string, clear: Bytes, secret: Bytes)
    requires Serving(d) && hold.1 in hold.0
    ensures Lands(d, Added(d, hold, id, name, clear, secret), MaterialFits(hold, d)) && Lands(d, d, true)
    ensures ContentsOf(Added(d, hold, id, name, clear, secret)) == Grown(ContentsOf(d), id, Plain(name, clear, secret))
  {
    AddedExactly(d, hold, id, name, clear, secret);
    EditLands(d, Added(d, hold, id, name, clear, secret), MaterialFits(hold, d));
    EditLands(d, d, true);
    PlainGrows(d.stores.Get(id), Material(name, clear, Seal(WrapKey(hold.0[hold.1]), secret, StoreAad(id))));
  }

  /** Changing the passphrase through an open handle. */
  method ChangeStep(root: Root, session: VaultHandle, c: Command) returns (r: Outcome<()>)
    requires c.Change?
    requires Serving(root.disk) && Attached(session, root.disk) && WellDrawn(c)
    modifies root
    ensures ThroughOk(c, old(root.disk), root.disk, old(SessionOf(session).value), old(root.access), old(root.fates))
    ensures old(root.fates) == [] ==>
              Arrives(c, old(root.disk), old(SessionOf(session).value), old(root.access), root.disk)
    ensures Attached(session, root.disk) && root.access == old(root.access)
  {
    ghost var d := root.disk;
    ServingStays(d);
    r := Err;
    if root.disk.salt != Some(c.newSalt) {
      r := ChangePassphraseOf(root, session, c.current, c.next, c.newSalt);
    }
    if Inv(d) && root.disk != d { SameVaultLands(d, root.disk); }
  }

  /** Moving to the keychain through an open handle. */
  method MoveStep(root: Root, session: VaultHandle, c: Command) returns (r: Outcome<()>)
    requires c.Move?
    requires Serving(root.disk) && Attached(session, root.disk) && WellDrawn(c)
    modifies root, session
    ensures ThroughOk(c, old(root.disk), root.disk, old(SessionOf(session).value), old(root.access), old(root.fates))
    ensures old(root.fates) == [] ==>
              Arrives(c, old(root.disk), old(SessionOf(session).value), old(root.access), root.disk)
    ensures Attached(session, root.disk) && root.access == old(root.access)
    ensures session.keys == old(session.keys) && session.active == old(session.active)
    ensures session.identityRoot == old(session.identityRoot)
  {
    ghost var d := root.disk;
    ServingStays(d);
    r := MoveToOsKeychain(root, session, c.current, c.newKek);
    if Inv(d) && root.disk != d { SameVaultLands(d, root.disk); }
  }

  lemma SameVaultLands(d: Disk, e: Disk)
    requires Inv(d) && SameVault(d, e) && KeyringOk(e.keyring.value)
    ensures ContentsOf(e) == ContentsOf(d) && (Sound(e) || Wrecked(e))
  {
  }

  /** Rotating through an open handle. */
  method RotateStep(root: Root, session: VaultHandle, c: Command) returns (r: Outcome<Secret>)
    requires c.RotateWith? && WellDrawn(c)
    requires Serving(root.disk) && Attached(session, root.disk)
    modifies root, session
    ensures ThroughOk(c, old(root.disk), root.disk, old(SessionOf(session).value), old(root.access), old(root.fates))
    ensures old(root.fates) == [] ==>
              Arrives(c, old(root.disk), old(SessionOf(session).value), old(root.access), root.disk)
    ensures Attached(session, root.disk) && root.access == old(root.access)
    ensures session.custody == old(session.custody) && session.identityRoot == old(session.identityRoot)
  {
    ghost var d, s, fates := root.disk, SessionOf(session).value, root.fates;
    r := RotateKey(root, session, c.passphrase, c.newDek, c.newPhrase, c.bundleSalt);
    if Stuck(d) {
      StuckLands(c, d, s, root.access, fates);
    } else {
      RotationLands(c, d, root.disk, s, r, root.access, fates);
    }
  }

  lemma StuckLands(c: Command, d: Disk, s: Session, access: Access, fates: seq<Fate>)
    requires c.RotateWith? && Stuck(d)
    ensures ThroughOk(c, d, d, s, access, fates)
  {
    StuckIsOutside(d);
  }

  lemma RotationLands(c: Command, d: Disk, e: Disk, s: Session, r: Outcome<Secret>, access: Access, fates: seq<Fate>)
    requires c.RotateWith? && Inv(d) && Serving(d) && s.hold.1 in s.hold.0 && ContentsOf(e) == ContentsOf(d)
    requires !Startable(d, s.custody, c.passphrase, access) ==> SameButScoped(d, e)
    requires Startable(d, s.custody, c.passphrase, access) ==>
               RotationEnds(d, e, r, KekUsed(d, s.custody, c.passphrase), c.newDek, c.newPhrase,
                            Fits(d, WrapKey(s.hold.0[s.hold.1]), c.newDek), CopySteps(d, s.custody) + DropStep(d),
                            fates)
    ensures ThroughOk(c, d, e, s, access, fates)
  {
    ServingStays(d);
    if Startable(d, s.custody, c.passphrase, access) {
      RotationLandsAt(d, e, c.newDek, c.newPhrase);
    }
  }

  /** Where a rotation of a vault at rest may end. */
  lemma RotationLandsAt(d: Disk, e: Disk, newDek: Key, phrase: Secret)
    requires d.journal.None? && Settled(d)
    ensures AllOrNothing(d, e, newDek, phrase) ==> Inv(e) && Serving(e)
    ensures Stranded(d, e) ==> !Inv(e) && Wrecked(e) && !Sound(e)
    ensures LockedOut(e) ==> !Inv(e) && Serving(e)
  {
    if AllOrNothing(d, e, newDek, phrase) { InvAfterRotation(d, e, newDek, phrase); }
    if Stranded(d, e) {
      StrandedIsNeither(d, e, newDek, phrase);
      WreckedIsUnsound(e);
    }
    if LockedOut(e) { NoKeyNoInvariant(e); }
  }

  ghost predicate Strands(d: Disk, e: Disk) {
    d.keyring.Some? && KeyringOk(d.keyring.value) && d.recovery.Some? && Stranded(d, e)
  }

  /** The world outside: the keychain changes. */
  method Outside(root: Root, c: Command)
    requires c.ReplaceScoped? || c.ReplaceLegacy? || c.KeychainBecomes?
    requires Sound(root.disk)
    modifies root
    ensures WorldStep(c, Snapshot(old(root.disk), old(root.access), None), Snapshot(root.disk, root.access, None))
    ensures root.disk == old(root.disk).(scoped := root.disk.scoped, legacy := root.disk.legacy)
    ensures Sound(root.disk) && (old(Inv(root.disk)) ==> (Inv(root.disk) <==> !old(Severs(c, root.disk))))
    ensures old(Serving(root.disk)) ==> Serving(root.disk)
  {
    ghost var d := root.disk;
    match c
    case ReplaceScoped(scoped) =>
      root.disk := root.disk.(scoped := scoped);
    case ReplaceLegacy(legacy) =>
      root.disk := root.disk.(legacy := legacy);
    case KeychainBecomes(access) =>
      root.access := access;
    if d.journal == Some(MoveToKeychain) && (Inv(d) || Severed(d)) { KeychainChangesDuringMove(d, root.disk); }
  }

  method Execute(root: Root, session: VaultHandle?, c: Command) returns (next: VaultHandle?)
    requires Sound(root.disk) && SessionOk(session, root.disk) && WellDrawn(c)
    modifies root, session
    ensures StepOk(c, old(root.fates), old(Snap(root, session)), Snap(root, next))
    ensures Sound(root.disk) ==> SessionOk(next, root.disk)
    ensures next == null || next == session || fresh(next)
  {
    if c.Bootstrap? || c.UnlockWith? || c.Recover? {
      next := Enter(root, c);
    } else if OfTheWorld(c) || c.Lock? || session == null {
      next := Aside(root, session, c);
    } else {
      next := Through(root, session, c);
    }
  }

  predicate OfTheWorld(c: Command) {
    c.ReplaceScoped? || c.ReplaceLegacy? || c.KeychainBecomes?
  }

  /** What happens beside the vault: the world, a lock, and commands without a session. */
  method Aside(root: Root, session: VaultHandle?, c: Command) returns (next: VaultHandle?)
    requires OfTheWorld(c) || c.Lock? || session == null
    requires !c.Bootstrap? && !c.UnlockWith? && !c.Recover?
    requires Sound(root.disk) && SessionOk(session, root.disk)
    modifies root
    ensures StepOk(c, old(root.fates), old(Snap(root, session)), Snap(root, next))
    ensures SessionOk(next, root.disk) && (next == null || next == session)
  {
    next := if OfTheWorld(c) then session else null;
    if OfTheWorld(c) { Outside(root, c); }
  }

  /** A command through a handle; a stop ends the session. */
  method Through(root: Root, session: VaultHandle, c: Command) returns (next: VaultHandle?)
    requires c.Change? || c.Move? || c.RotateWith? || c.Write? || c.Delete? || c.CreateEntry?
    requires Serving(root.disk) && Attached(session, root.disk) && WellDrawn(c)
    modifies root, session
    ensures ThroughOk(c, old(root.disk), root.disk, old(SessionOf(session).value), old(root.access), old(root.fates))
    ensures old(root.fates) == [] ==>
              Arrives(c, old(root.disk), old(SessionOf(session).value), old(root.access), root.disk)
    ensures Sound(root.disk) ==> SessionOk(next, root.disk)
    ensures next == null || next == session
    ensures root.access == old(root.access)
    ensures SessionStep(c, old(Snap(root, session)), Snap(root, next))
  {
    var stopped := false;
    if c.RotateWith? {
      var r := RotateStep(root, session, c);
      stopped := r.Stopped?;
    } else if c.Change? {
      var r := ChangeStep(root, session, c);
      stopped := r.Stopped?;
    } else if c.Move? {
      var r := MoveStep(root, session, c);
      stopped := r.Stopped?;
    } else {
      var r := Use(root, session, c);
      stopped := r.Stopped?;
    }
    next := if stopped then null else session;
  }

  // ---- every run -------------------------------------------------------------------------

  /** None of the first `n` commands breaks the invariant. */
  ghost predicate NothingBreaks(script: seq<(Command, seq<Fate>)>, states: seq<Snapshot>, n: nat)
    requires n <= |script| && n < |states|
  {
    forall i :: 0 <= i < n ==> !Breaks(script[i].0, states[i], script[i].1)
  }

  /** The states between the first commands of a script. */
  ghost predicate Trace(script: seq<(Command, seq<Fate>)>, states: seq<Snapshot>) {
    && 1 <= |states| <= |script| + 1
    && forall i :: 0 <= i < |states| - 1 ==> StepOk(script[i].0, script[i].1, states[i], states[i + 1])
  }

  /** The invariant holds up to a state if no command broke it before, and is lost with
  the first command that does. */
  lemma {:induction false} InvUntilBroken(script: seq<(Command, seq<Fate>)>, states: seq<Snapshot>, n: nat)
    requires Trace(script, states) && Inv(states[0].disk) && n < |states| && NothingBreaks(script, states, n)
    ensures Inv(states[n].disk)
    ensures states[n].disk.journal.None? && states[n].disk.keyring.Some? ==> Settled(states[n].disk)
    ensures n + 1 < |states| ==> (Inv(states[n + 1].disk) <==> !Breaks(script[n].0, states[n], script[n].1))
  {
    if n > 0 {
      InvUntilBroken(script, states, n - 1);
      assert StepOk(script[n - 1].0, script[n - 1].1, states[n - 1], states[n]);
    }
    if n + 1 < |states| {
      assert StepOk(script[n].0, script[n].1, states[n], states[n + 1]);
    }
  }

  /** From an empty directory, whatever is asked of the vault, in whatever order,
  and whatever becomes of each durable step: what the vault holds changes only by
  the commands that say so, and the invariant holds after every command until one
  breaks it, and not after that one. So, until then and without a pending operation,
  everything is sealed under the active DEK and the recovery bundle holds it. The
  trace ends early only with a vault that is wrecked. */
  method Run(root: Root, script: seq<(Command, seq<Fate>)>) returns (ghost states: seq<Snapshot>)
    requires root.disk.journal.None? && Empty(root.disk)
    requires forall i :: 0 <= i < |script| ==> WellDrawn(script[i].0)
    modifies root
    ensures Trace(script, states) && states[0] == Snapshot(old(root.disk), old(root.access), None)
    ensures states[|states| - 1].disk == root.disk
    ensures forall n :: 0 <= n < |states| && NothingBreaks(script, states, n) ==>
              && Inv(states[n].disk)
              && (states[n].disk.journal.None? && states[n].disk.keyring.Some? ==> Settled(states[n].disk))
              && (n + 1 < |states| ==> (Inv(states[n + 1].disk) <==> !Breaks(script[n].0, states[n], script[n].1)))
    ensures |states| <= |script| ==> Wrecked(root.disk)
  {
    states := RunFrom(root, script);
    forall n | 0 <= n < |states| && NothingBreaks(script, states, n)
      ensures
        && Inv(states[n].disk)
        && (states[n].disk.journal.None? && states[n].disk.keyring.Some? ==> Settled(states[n].disk))
        && (n + 1 < |states| ==> (Inv(states[n + 1].disk) <==> !Breaks(script[n].0, states[n], script[n].1)))
    {
      InvUntilBroken(script, states, n);
    }
  }

  method RunFrom(root: Root, script: seq<(Command, seq<Fate>)>) returns (ghost states: seq<Snapshot>)
    requires Sound(root.disk)
    requires forall i :: 0 <= i < |script| ==> WellDrawn(script[i].0)
    modifies root
    ensures Trace(script, states) && states[0] == Snapshot(old(root.disk), old(root.access), None)
    ensures states[|states| - 1].disk == root.disk
    ensures |states| <= |script| ==> Wrecked(root.disk)
  {
    var session: VaultHandle? := null;
    states := [Snap(root, session)];
    for n := 0 to |script|
      invariant Trace(script, states) && |states| == n + 1 && states[n] == Snap(root, session)
      invariant states[0] == Snapshot(old(root.disk), old(root.access), None)
      invariant Sound(root.disk) && SessionOk(session, root.disk) && (session == null || fresh(session))
    {
      root.fates := script[n].1;
      session := Execute(root, session, script[n].0);
      TraceGrows(script, states, Snap(root, session));
      states := states + [Snap(root, session)];
      if Wrecked(root.disk) {
        return;
      }
    }
  }

  lemma TraceGrows(script: seq<(Command, seq<Fate>)>, states: seq<Snapshot>, t: Snapshot)
    requires Trace(script, states) && |states| <= |script|
    requires StepOk(script[|states| - 1].0, script[|states| - 1].1, states[|states| - 1], t)
    ensures Trace(script, states + [t])
  {
    var longer := states + [t];
    forall i | 0 <= i < |longer| - 1 ensures StepOk(script[i].0, script[i].1, longer[i], longer[i + 1]) {
      if i < |states| - 1 {
        assert StepOk(script[i].0, script[i].1, states[i], states[i + 1]);
      }
    }
  }

  // ---- one rotation and all its interruptions -------------------------------------------------

  /** The two ends a rotation of `d` can come to. */
  ghost predicate OneDek(d: Disk, e: Disk, newDek: Key)
    requires d.keyring.Some?
  {
    && e.journal.None? && Settled(e)
    && (|| (&& e.keyring.value.active == d.keyring.value.active
            && Deks(e.keyring.value.entries) == Deks(d.keyring.value.entries) && e.recovery == d.recovery)
        || (&& e.keyring.value.active == d.keyring.value.active + 1
            && Deks(e.keyring.value.entries) == Deks(d.keyring.value.entries)[d.keyring.value.active + 1 := newDek]))
  }

  /** On the way to one of them. */
  ghost predicate Underway(d: Disk, e: Disk, newDek: Key)
    requires d.keyring.Some? && KeyringOk(d.keyring.value) && d.recovery.Some?
  {
    var prior := d.keyring.value.active;
    && Inv(e) && ContentsOf(e) == ContentsOf(d) && SameOpeners(d, e)
    && (|| OneDek(d, e, newDek)
        || (&& e.journal == Some(Rotate(prior, prior + 1, d.recovery.value)) && e.keyring.Some?
            && KeptDeks(e, prior) == Deks(d.keyring.value.entries)))
  }

  lemma RotationUnderway(d: Disk, e: Disk, newDek: Key, phrase: Secret)
    requires d.journal.None? && Settled(d) && AllOrNothing(d, e, newDek, phrase) && ContentsOf(e) == ContentsOf(d)
    ensures Underway(d, e, newDek)
  {
    InvAfterRotation(d, e, newDek, phrase);
  }

  lemma UnlockStaysUnderway(d: Disk, e: Disk, f: Disk, newDek: Key)
    requires d.journal.None? && Settled(d) && Underway(d, e, newDek)
    requires Inv(f) && UnlockKeeps(e, f) && (f.journal == e.journal || f.journal.None?)
    ensures Underway(d, f, newDek)
    ensures f.journal.None? ==> OneDek(d, f, newDek)
  {
    if f.journal.None? && e.journal.Some? {
      assert f.keyring.value.active == d.keyring.value.active;
      assert Deks(f.keyring.value.entries) == KeptDeks(f, d.keyring.value.active);
    }
  }

  /** The credential that opened the vault before the rotation opens it still. */
  lemma StillUnlocks(d: Disk, e: Disk, newDek: Key, custody: Custody, passphrase: Option<string>, access: Access)
    requires d.journal.None? && Settled(d) && Underway(d, e, newDek) && Unlocks(d, custody, passphrase, access)
    ensures Unlocks(e, custody, passphrase, access)
  {
  }

  /** A rotation under a wrong KEK that locks the vault. */
  ghost predicate WillLock(d: Disk, custody: Custody, passphrase: Option<string>, access: Access, fates: seq<Fate>) {
    && Startable(d, custody, passphrase, access) && !RightKek(d, custody, passphrase)
    && LocksAt(d, CopySteps(d, custody) + DropStep(d), fates)
  }

  lemma RotationOutcomes(d: Disk, e: Disk, r: Outcome<Secret>, newDek: Key, phrase: Secret,
                         custody: Custody, passphrase: Option<string>, access: Access, fates: seq<Fate>)
    requires Settled(d) && d.journal.None? && ContentsOf(e) == ContentsOf(d)
    requires !Startable(d, custody, passphrase, access) ==> SameButScoped(d, e)
    requires Startable(d, custody, passphrase, access) ==>
               RotationEnds(d, e, r, KekUsed(d, custody, passphrase), newDek, phrase, true,
                            CopySteps(d, custody) + DropStep(d), fates)
    ensures WillStrand(d, custody, passphrase, access, fates) ==> Strands(d, e)
    ensures WillLock(d, custody, passphrase, access, fates) ==> LockedOut(e)
    ensures (&& !WillStrand(d, custody, passphrase, access, fates)
             && !WillLock(d, custody, passphrase, access, fates)) ==>
              Underway(d, e, newDek)
  {
    if Startable(d, custody, passphrase, access) {
      StartedOutcome(d, e, r, KekUsed(d, custody, passphrase), newDek, phrase, CopySteps(d, custody) + DropStep(d),
                     fates);
    } else {
      CopiedUnderway(d, e, newDek);
    }
  }

  lemma StartedOutcome(d: Disk, e: Disk, r: Outcome<Secret>, kek: Key, newDek: Key, phrase: Secret, n: nat,
                       fates: seq<Fate>)
    requires Settled(d) && d.journal.None? && ContentsOf(e) == ContentsOf(d)
    requires RotationEnds(d, e, r, kek, newDek, phrase, true, n, fates)
    ensures kek == KekOf(d.keyring.value) ==>
              if StrandsAt(d, n, fates) then Strands(d, e) else Underway(d, e, newDek)
    ensures kek != KekOf(d.keyring.value) ==>
              if LocksAt(d, n, fates) then LockedOut(e) else Underway(d, e, newDek)
  {
    if kek == KekOf(d.keyring.value) {
      RightOutcome(d, e, r, newDek, phrase, n, fates);
    } else if !LocksAt(d, n, fates) {
      RotationUnderway(d, e, newDek, phrase);
    }
  }

  lemma RightOutcome(d: Disk, e: Disk, r: Outcome<Secret>, newDek: Key, phrase: Secret, n: nat, fates: seq<Fate>)
    requires Settled(d) && d.journal.None? && ContentsOf(e) == ContentsOf(d)
    requires RightEnds(d, e, r, newDek, phrase, n, fates)
    ensures if StrandsAt(d, n, fates) then Strands(d, e) else Underway(d, e, newDek)
  {
    if !StrandsAt(d, n, fates) { RotationUnderway(d, e, newDek, phrase); }
  }

  lemma CopiedUnderway(d: Disk, e: Disk, newDek: Key)
    requires d.journal.None? && Settled(d) && SameButScoped(d, e)
    ensures Underway(d, e, newDek)
  {
  }

  /** A stranded vault that holds what it held. */
  ghost predicate Aground(d: Disk, e: Disk) {
    Strands(d, e) && ContentsOf(e) == ContentsOf(d)
  }

  /** Rotate, with any fates; then unlock any number of times, with any credentials
  and any fates; then once more without interruption. What the rotation did decides
  the rest. If it stranded the vault, the vault stays stranded, and the last unlock
  succeeds exactly if its credential opened the vault before the rotation and the
  rollback had brought the identity back under the old DEK. If it locked the vault,
  nothing opens it. Otherwise a credential that worked before works, and everything is
  under one DEK, old or new. In any case nothing the vault holds has changed. */
  method RotateThenRecover(root: Root, h: VaultHandle, passphrase: Option<string>, newDek: Key, phrase: Secret,
                           salt: nat, attempts: seq<(Custody, Option<string>, seq<Fate>)>,
                           custody: Custody, last: Option<string>)
    returns (r: Outcome<VaultHandle>)
    requires root.disk.journal.None? && Settled(root.disk) && Coherent(h, root.disk) && phrase.Phrase?
    modifies root, h
    ensures ContentsOf(root.disk) == old(ContentsOf(root.disk)) && (r.Ok? ==> Coherent(r.value, root.disk))
    ensures old(WillStrand(root.disk, h.custody, passphrase, root.access, root.fates)) ==>
              && Strands(old(root.disk), root.disk)
              && (r.Ok? <==> && old(Unlocks(root.disk, custody, last, root.access))
                             && IdentityUnder(root.disk.identity, old(WrapKey(ActiveDek(root.disk.keyring.value)))))
    ensures old(WillLock(root.disk, h.custody, passphrase, root.access, root.fates)) ==> r.Err? && LockedOut(root.disk)
    ensures old(&& !WillStrand(root.disk, h.custody, passphrase, root.access, root.fates)
                && !WillLock(root.disk, h.custody, passphrase, root.access, root.fates)) ==>
              && Inv(root.disk) && (old(Unlocks(root.disk, custody, last, root.access)) ==> r.Ok?)
              && (r.Ok? ==> OneDek(old(root.disk), root.disk, newDek))
  {
    ghost var d, mode, fates := root.disk, h.custody, root.fates;
    var rotated := RotateKey(root, h, passphrase, newDek, phrase, salt);
    RotationOutcomes(d, root.disk, rotated, newDek, phrase, mode, passphrase, root.access, fates);
    r := UnlockAtLast(root, attempts, custody, last, newDek, d);
  }

  /** Where a rotation of `d` may have left the vault for the unlocks that follow. */
  ghost predicate Left(d: Disk, e: Disk, newDek: Key) {
    && d.journal.None? && Settled(d) && (Underway(d, e, newDek) || LockedOut(e) || Aground(d, e))
  }

  /** What a series of unlocks does from there. */
  ghost predicate Keeps(d: Disk, e: Disk, f: Disk, newDek: Key)
    requires d.journal.None? && Settled(d)
  {
    && (LockedOut(e) ==> f == e)
    && (Underway(d, e, newDek) ==> Underway(d, f, newDek))
    && (Aground(d, e) ==> Aground(d, f) && f.identity == e.identity)
  }

  method UnlockAtLast(root: Root, attempts: seq<(Custody, Option<string>, seq<Fate>)>, custody: Custody,
                      last: Option<string>, ghost newDek: Key, ghost d: Disk)
    returns (r: Outcome<VaultHandle>)
    requires Left(d, root.disk, newDek)
    modifies root
    ensures Keeps(d, old(root.disk), root.disk, newDek) && (r.Ok? ==> fresh(r.value) && Coherent(r.value, root.disk))
    ensures old(LockedOut(root.disk)) ==> r.Err?
    ensures old(Underway(d, root.disk, newDek)) ==>
              && (Unlocks(d, custody, last, old(root.access)) ==> r.Ok?)
              && (r.Ok? ==> OneDek(d, root.disk, newDek))
    ensures old(Aground(d, root.disk)) ==>
              (r.Ok? <==> && Unlocks(d, custody, last, old(root.access))
                          && IdentityUnder(root.disk.identity, WrapKey(ActiveDek(d.keyring.value))))
  {
    UnlockRepeatedly(root, attempts, newDek, d);
    root.fates := [];
    r := UnlockOnce(root, custody, last, newDek, d);
  }

  method UnlockRepeatedly(root: Root, attempts: seq<(Custody, Option<string>, seq<Fate>)>, ghost newDek: Key,
                          ghost d: Disk)
    requires Left(d, root.disk, newDek)
    modifies root
    ensures Left(d, root.disk, newDek) && Keeps(d, old(root.disk), root.disk, newDek) && root.access == old(root.access)
  {
    ghost var e := root.disk;
    for i := 0 to |attempts|
      invariant Left(d, root.disk, newDek) && Keeps(d, e, root.disk, newDek) && root.access == old(root.access)
    {
      root.fates := attempts[i].2;
      var attempt := UnlockOnce(root, attempts[i].0, attempts[i].1, newDek, d);
    }
  }

  /** One unlock of a vault whose rotation is under way, has locked it or stranded it. */
  method UnlockOnce(root: Root, custody: Custody, passphrase: Option<string>, ghost newDek: Key, ghost d: Disk)
    returns (r: Outcome<VaultHandle>)
    requires Left(d, root.disk, newDek)
    modifies root
    ensures Left(d, root.disk, newDek) && Keeps(d, old(root.disk), root.disk, newDek)
    ensures r.Ok? ==> fresh(r.value) && Coherent(r.value, root.disk)
    ensures old(LockedOut(root.disk)) ==> r.Err?
    ensures old(Underway(d, root.disk, newDek)) ==>
              && (old(root.fates) == [] && Unlocks(d, custody, passphrase, old(root.access)) ==> r.Ok?)
              && (r.Ok? ==> OneDek(d, root.disk, newDek))
    ensures old(Aground(d, root.disk)) && old(root.fates) == [] ==>
              (r.Ok? <==> && Unlocks(d, custody, passphrase, old(root.access))
                          && IdentityUnder(root.disk.identity, WrapKey(ActiveDek(d.keyring.value))))
    ensures root.access == old(root.access)
  {
    ghost var before := root.disk;
    if Underway(d, before, newDek) && Unlocks(d, custody, passphrase, root.access) {
      StillUnlocks(d, before, newDek, custody, passphrase, root.access);
    }
    if Aground(d, before) { AgroundOpens(d, before, custody, passphrase, root.access); }
    LeftApart(d, before, newDek);
    r := UnlockVault(root, custody, passphrase);
    if Underway(d, before, newDek) { UnlockStaysUnderway(d, before, root.disk, newDek); }
    if Aground(d, before) { AgroundStays(d, before, root.disk); }
  }

  /** The three are different places. */
  lemma LeftApart(d: Disk, e: Disk, newDek: Key)
    requires d.journal.None? && Settled(d)
    ensures Underway(d, e, newDek) ==> !LockedOut(e) && !Aground(d, e)
    ensures Aground(d, e) ==> Loose(e) && !LockedOut(e) && !Inv(e)
    ensures LockedOut(e) ==> !Inv(e)
  {
    if LockedOut(e) { NoKeyNoInvariant(e); }
    if Aground(d, e) { StrandedIsNeither(d, e, newDek, Phrase(0)); }
  }

  lemma AgroundOpens(d: Disk, e: Disk, custody: Custody, passphrase: Option<string>, access: Access)
    requires d.journal.None? && Settled(d) && Aground(d, e)
    ensures OpensLoose(e, custody, passphrase, access) <==>
              && Unlocks(d, custody, passphrase, access)
              && IdentityUnder(e.identity, WrapKey(ActiveDek(d.keyring.value)))
  {
    var prior := d.keyring.value.active;
    assert prior in KeptDeks(e, prior);
    assert ActiveDek(e.keyring.value) == ActiveDek(d.keyring.value);
  }

  lemma AgroundStays(d: Disk, e: Disk, f: Disk)
    requires d.journal.None? && Settled(d) && Aground(d, e) && SameButScoped(e, f)
    ensures Aground(d, f) && f.identity == e.identity
  {
  }
}
