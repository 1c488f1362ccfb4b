/** Where key rotation falls short of all or nothing, shown on every vault. */
module RotationLimits {
  import opened Crypto
  import opened Effects
  import opened Keyring
  import opened VaultDisk
  import opened Handles
  import opened Rotation
  import opened KeyRotation
  import opened Unlock
  import opened RecoveryUnlock
  import opened CustodyChange
  import opened VaultFiles
  import opened NewVaults
  import Boot = Bootstrap

  /** Every step succeeds but the one that drops the journal, which reports an
  error although it takes effect; then the machine stops after the first write
  of the rollback. */
  function LateDropThenStop(n: nat): seq<Fate> {
    seq(n, i => Good) + [Fail(true), Crash(true)]
  }

  lemma LateDropThenStopAt(n: nat)
    ensures LateErrorAt(LateDropThenStop(n), n) && NextFate(After(LateDropThenStop(n), n + 1)) == Crash(true)
  {
  }

  /** From every vault at rest whose rotation can start, with the right KEK, these
  fates reach a disk that is neither rotated nor as before, and that neither the
  active DEK nor the recovery bundle opens. */
  method StrandRotation(root: Root, h: VaultHandle, passphrase: Option<string>, newDek: Key, phrase: Secret, salt: nat)
    returns (r: Outcome<Secret>)
    requires Settled(root.disk) && Coherent(h, root.disk) && phrase.Phrase?
    requires newDek != ActiveDek(root.disk.keyring.value)
    requires Startable(root.disk, h.custody, passphrase, root.access)
    requires KekUsed(root.disk, h.custody, passphrase) == KekOf(root.disk.keyring.value)
    requires root.fates == LateDropThenStop(CopySteps(root.disk, h.custody) + DropStep(root.disk))
    modifies root, h
    ensures StrandedAtOnce(old(root.disk), root.disk, newDek) && !Inv(root.disk)
    ensures !AllOrNothing(old(root.disk), root.disk, newDek, phrase)
    ensures LoadIdentity(root.disk, ActiveDek(root.disk.keyring.value)).None?
    ensures root.disk.recovery.value.version != Some(root.disk.keyring.value.active)
    ensures ContentsOf(root.disk) == old(ContentsOf(root.disk))
  {
    ghost var d := root.disk;
    LateDropThenStopAt(CopySteps(d, h.custody) + DropStep(d));
    r := RotateKey(root, h, passphrase, newDek, phrase, salt);
    assert StrandedAtOnce(d, root.disk, newDek);
    StrandedIsNeither(d, root.disk, newDek, phrase);
    StrandedAtOnceIsLost(d, root.disk, newDek);
  }

  /** Rotating with a passphrase that is not the vault's locks the vault for good:
  nothing interrupts the rotation, and afterwards no key opens the keyring. */
  method LockOutByTypo(passphrase: string, typed: string, draw: Boot.Draw, newDek: Key, phrase: Secret, salt: nat)
    returns (root: Root, r: Outcome<Secret>)
    requires |passphrase| >= MIN_PASSPHRASE_CHARS && typed != passphrase
    requires draw.phrase.Phrase? && draw.kek.Random? && phrase.Phrase?
    ensures fresh(root) && r.Err? && LockedOut(root.disk) && !Inv(root.disk)
  {
    var h: VaultHandle;
    root, h := NewVault(passphrase, draw);
    r := RotateKey(root, h, Some(typed), newDek, phrase, salt);
    NoKeyNoInvariant(root.disk);
  }

  /** The stranded rotation at one input: a new vault, four steps that succeed, the
  late error, the stop. No credential unlocks it. */
  method StrandNewVault(passphrase: string, draw: Boot.Draw, newDek: Key, phrase: Secret, salt: nat,
                        custody: Custody, tried: Option<string>)
    returns (root: Root, r: Outcome<VaultHandle>)
    requires |passphrase| >= MIN_PASSPHRASE_CHARS && draw.phrase.Phrase? && draw.kek.Random? && phrase.Phrase?
    requires newDek != draw.dek
    ensures fresh(root) && !Inv(root.disk) && root.disk.journal.None? && !r.Ok?
  {
    var h: VaultHandle;
    root, h := NewVault(passphrase, draw);
    root.fates := LateDropThenStop(4);
    var rotated := StrandRotation(root, h, Some(passphrase), newDek, phrase, salt);
    root.fates := [];
    r := UnlockVault(root, custody, tried);
  }

  /** The same late error, but the rollback stops only before its last step, the one
  that removes the new DEK. */
  function LateDropThenAlmostUndone(n: nat, undo: nat): seq<Fate> {
    seq(n, i => Good) + [Fail(true)] + seq(undo, i => Good) + [Crash(false)]
  }

  lemma LateDropThenAlmostUndoneAt(n: nat, undo: nat)
    requires undo >= 2
    ensures LateErrorAt(LateDropThenAlmostUndone(n, undo), n)
    ensures CutShort(After(LateDropThenAlmostUndone(n, undo), n + 1), undo + 1)
    ensures Reaches(After(LateDropThenAlmostUndone(n, undo), n + 1), undo)
  {
    var rest := After(LateDropThenAlmostUndone(n, undo), n + 1);
    assert rest == seq(undo, i => Good) + [Crash(false)];
    assert After(rest, undo) == [Crash(false)];
    assert NextFate(After(rest, undo - 1)) == rest[undo - 1];
  }

  /** A stranded vault may still open: here the passphrase and the old recovery phrase
  both do, although a newer DEK than the active one stays in the keyring. */
  method StrandedStillOpens(passphrase: string, draw: Boot.Draw, newDek: Key, phrase: Secret, salt: nat)
    returns (root: Root, r: Outcome<VaultHandle>)
    requires |passphrase| >= MIN_PASSPHRASE_CHARS && draw.phrase.Phrase? && draw.kek.Random? && phrase.Phrase?
    ensures fresh(root) && !Inv(root.disk) && r.Ok? && PhraseOpens(root.disk, draw.phrase)
  {
    root := StrandAtLast(passphrase, draw, newDek, phrase, salt);
    r := UnlockVault(root, Passphrase, Some(passphrase));
  }

  method StrandAtLast(passphrase: string, draw: Boot.Draw, newDek: Key, phrase: Secret, salt: nat) returns (root: Root)
    requires |passphrase| >= MIN_PASSPHRASE_CHARS && draw.phrase.Phrase? && draw.kek.Random? && phrase.Phrase?
    ensures fresh(root) && root.fates == [] && !Inv(root.disk) && Loose(root.disk)
    ensures PhraseOpens(root.disk, draw.phrase)
    ensures OpensLoose(root.disk, Passphrase, Some(passphrase), root.access)
  {
    var h: VaultHandle;
    root, h := NewVault(passphrase, draw);
    ghost var d := root.disk;
    root.fates := LateDropThenAlmostUndone(4, 3);
    LateDropThenAlmostUndoneAt(4, 3);
    var rotated := RotateKey(root, h, Some(passphrase), newDek, phrase, salt);
    assert Stranded(d, root.disk) && root.disk.recovery == d.recovery;
    StrandedIsNeither(d, root.disk, newDek, phrase);
    StrandedPhrase(d, root.disk, draw.phrase);
    root.fates := [];
  }

  /** The identity write of a rotation fails, and so does the removal of the journal
  at the end of its rollback. */
  function FailsTwice(n: nat, undo: nat): seq<Fate> {
    seq(n, i => Good) + [Fail(false)] + seq(undo, i => Good) + [Fail(false)]
  }

  lemma FailsTwiceAt(n: nat, undo: nat)
    requires undo > 0
    ensures Lead(FailsTwice(n, undo)) == n && FailsTwice(n, undo)[n] == Fail(false)
    ensures GivesUp(After(FailsTwice(n, undo), n + 1), undo, true)
  {
    var fates := FailsTwice(n, undo);
    assert fates[n] == Fail(false);
    LeadIsSmooth(fates, n);
    LeadIsSmooth(fates, n + 1);
    assert After(fates, n + 1) == seq(undo, i => Good) + [Fail(false)];
  }

  /** A rotation that fails and whose rollback fails last of all leaves a handle with a
  DEK that is in no keyring; what is written through it is lost. */
  method LoseWrite(passphrase: string, draw: Boot.Draw, newDek: Key, phrase: Secret, salt: nat, f: FileId, plain: Bytes)
    returns (root: Root, r: Outcome<()>)
    requires |passphrase| >= MIN_PASSPHRASE_CHARS && draw.phrase.Phrase? && draw.kek.Random? && phrase.Phrase?
    ensures fresh(root) && r.Ok? && !Inv(root.disk)
    ensures f in root.disk.files && root.disk.keyring.Some?
    ensures !CanRead(root.disk.files[f], Deks(root.disk.keyring.value.entries), f)
  {
    var h: VaultHandle;
    root, h := LoseDek(passphrase, draw, newDek, phrase, salt);
    WrittenExactly(root.disk, (h.keys, h.active), f, plain);
    r := WriteFile(root, h, f, plain);
  }

  method LoseDek(passphrase: string, draw: Boot.Draw, newDek: Key, phrase: Secret, salt: nat)
    returns (root: Root, h: VaultHandle)
    requires |passphrase| >= MIN_PASSPHRASE_CHARS && draw.phrase.Phrase? && draw.kek.Random? && phrase.Phrase?
    ensures fresh(root) && fresh(h) && root.fates == [] && Serving(root.disk) && Inv(root.disk)
    ensures Attached(h, root.disk)
    ensures h.active !in Deks(root.disk.keyring.value.entries)
  {
    root, h := NewVault(passphrase, draw);
    ghost var d := root.disk;
    root.fates := FailsTwice(2, 4);
    FailsTwiceAt(2, 4);
    assert LosesDek(d, DropStep(d), root.fates) by {
      assert MaterialSteps(d.stores) == 1 && UndoSteps(d) == 4 && DropStep(d) == 4;
    }
    LoseDekOf(root, h, passphrase, newDek, phrase, salt);
    root.fates := [];
  }

  /** On every passphrase vault at rest these fates end so. */
  method LoseDekOf(root: Root, h: VaultHandle, passphrase: string, newDek: Key, phrase: Secret, salt: nat)
    requires root.disk.journal.None? && Settled(root.disk) && Coherent(h, root.disk) && phrase.Phrase?
    requires h.custody.Passphrase? && root.disk.keyring.value.active + 1 < U32_MODULUS
    requires PassphraseKek(root.disk, Some(passphrase)) == Some(KekOf(root.disk.keyring.value))
    requires LosesDek(root.disk, DropStep(root.disk), root.fates)
    requires !StrandsAt(root.disk, DropStep(root.disk), root.fates)
    modifies root, h
    ensures Serving(root.disk) && Inv(root.disk) && Attached(h, root.disk)
    ensures h.active !in Deks(root.disk.keyring.value.entries)
  {
    ghost var d := root.disk;
    var rotated := RotateKey(root, h, Some(passphrase), newDek, phrase, salt);
    InvAfterRotation(d, root.disk, newDek, phrase);
  }

  /** A rotation stalls half done, and its handle is used to change the passphrase: the
  change succeeds, replaces the journal that would have undone the rotation, and leaves
  a vault that no credential unlocks. */
  method OverwriteRotation(passphrase: string, draw: Boot.Draw, newDek: Key, phrase: Secret, salt: nat,
                           replacement: string, newSalt: nat, custody: Custody, tried: Option<string>)
    returns (root: Root, changed: Outcome<()>, r: Outcome<VaultHandle>)
    requires |passphrase| >= MIN_PASSPHRASE_CHARS && |replacement| >= MIN_PASSPHRASE_CHARS
    requires draw.phrase.Phrase? && draw.kek.Random? && phrase.Phrase? && newDek != draw.dek && newSalt != draw.salt
    ensures fresh(root) && changed.Ok? && !Inv(root.disk) && root.disk.journal.None? && !r.Ok?
  {
    var h: VaultHandle;
    root, h := StallRotation(passphrase, draw, newDek, phrase, salt);
    changed := ChangePassphraseOf(root, h, passphrase, replacement, newSalt);
    r := UnlockVault(root, custody, tried);
  }

  method StallRotation(passphrase: string, draw: Boot.Draw, newDek: Key, phrase: Secret, salt: nat)
    returns (root: Root, h: VaultHandle)
    requires |passphrase| >= MIN_PASSPHRASE_CHARS && draw.phrase.Phrase? && draw.kek.Random? && phrase.Phrase?
    requires newDek != draw.dek
    ensures fresh(root) && fresh(h) && root.fates == [] && h.custody.Passphrase? && Attached(h, root.disk)
    ensures Serving(root.disk) && Inv(root.disk) && !Core(root.disk) && root.disk.salt == Some(draw.salt)
    ensures PassphraseKek(root.disk, Some(passphrase)) == Some(KekOf(root.disk.keyring.value))
    ensures LoadIdentity(root.disk, ActiveDek(root.disk.keyring.value)).None?
  {
    root, h := NewVault(passphrase, draw);
    ghost var d := root.disk;
    root.fates := [Good, Fail(true), Fail(false)];
    StallRotationOf(root, h, passphrase, newDek, phrase, salt);
    HalfAddedIsNoCore(d, root.disk, newDek);
    root.fates := [];
  }

  /** On every passphrase vault at rest these fates end so. */
  method StallRotationOf(root: Root, h: VaultHandle, passphrase: string, newDek: Key, phrase: Secret, salt: nat)
    requires root.disk.journal.None? && Settled(root.disk) && Coherent(h, root.disk) && phrase.Phrase?
    requires h.custody.Passphrase? && root.disk.keyring.value.active + 1 < U32_MODULUS
    requires PassphraseKek(root.disk, Some(passphrase)) == Some(KekOf(root.disk.keyring.value))
    requires root.fates == [Good, Fail(true), Fail(false)]
    modifies root, h
    ensures HalfAdded(old(root.disk), root.disk, newDek) && Attached(h, root.disk) && h.custody == old(h.custody)
    ensures root.access == old(root.access)
  {
    var rotated := RotateKey(root, h, Some(passphrase), newDek, phrase, salt);
  }

  lemma HalfAddedIsNoCore(d: Disk, e: Disk, newDek: Key)
    requires d.journal.None? && Settled(d) && d.keyring.value.active + 1 < U32_MODULUS && HalfAdded(d, e, newDek)
    ensures Serving(e) && Inv(e) && !Core(e) && KekOf(e.keyring.value) == KekOf(d.keyring.value)
    ensures ActiveDek(e.keyring.value) == newDek
  {
    BeginStages(d, newDek);
  }

  // ---- what follows ---------------------------------------------------------------------

  /** The keyring after a rotation that adds `dek`, fails because the allocated version is
  not the predicted one, and is undone. */
  function Undone(kr: KeyringFile, dek: Key): KeyringFile {
    if kr.entries == [] then kr
    else
      match SetActive(AddActive(kr, KekOf(kr), dek), kr.active)
      case None => kr
      case Some(back) =>
        match RemoveVersion(back, kr.active + 1)
        case None => back
        case Some(kept) => kept
  }

  /** A keyring with a DEK newer than the active one: a rotation allocates another version
  than the one it predicts, and undoing it leaves such a keyring again. */
  lemma NeverRotatesAgain(kr: KeyringFile, dek: Key)
    requires KeyringOk(kr) && kr.active < MaxVersion(kr.entries) && MaxVersion(kr.entries) + 1 < U32_MODULUS
    ensures AddActive(kr, KekOf(kr), dek).active == MaxVersion(kr.entries) + 1
    ensures KeyringOk(Undone(kr, dek)) && Undone(kr, dek).active == kr.active
    ensures MaxVersion(Undone(kr, dek).entries) == MaxVersion(kr.entries) + 1
  {
    AddNewest(kr, dek);
    var added := AddActive(kr, KekOf(kr), dek);
    UndoneKeepsNewest(kr, added, Undone(kr, dek));
    NewestIs(added, added.active);
    NewestIs(Undone(kr, dek), added.active);
  }

  lemma UndoneKeepsNewest(kr: KeyringFile, added: KeyringFile, undone: KeyringFile)
    requires KeyringOk(added) && Latest(added) && kr.active in Deks(added.entries) && kr.active + 1 < added.active
    requires
      var back := SetActive(added, kr.active);
      && (back.Some? && RemoveVersion(back.value, kr.active + 1).Some? ==>
            undone == RemoveVersion(back.value, kr.active + 1).value)
    ensures SetActive(added, kr.active).Some?
    ensures KeyringOk(undone) && undone.active == kr.active && added.active in Deks(undone.entries)
    ensures forall v :: v in Deks(undone.entries) ==> v <= added.active
  {
    SetActiveOk(added, kr.active);
    var back := SetActive(added, kr.active).value;
    RemoveVersionOk(back, kr.active + 1);
    assert undone == RemoveVersion(back, kr.active + 1).value && back.entries == added.entries;
  }

  /** The newest version of a keyring. */
  lemma NewestIs(kr: KeyringFile, top: nat)
    requires KeyringOk(kr) && top in Deks(kr.entries) && forall v :: v in Deks(kr.entries) ==> v <= top
    ensures MaxVersion(kr.entries) == top
  {
    DeksAt(kr.entries);
    MaxVersionBounds(kr.entries);
  }

  /** The keyring after any number of such rotations. */
  function Tried(kr: KeyringFile, deks: seq<Key>): KeyringFile {
    if deks == [] then kr else Undone(Tried(kr, deks[..|deks| - 1]), deks[|deks| - 1])
  }

  lemma {:induction false} TriedGrows(kr: KeyringFile, deks: seq<Key>)
    requires KeyringOk(kr) && kr.active < MaxVersion(kr.entries) && MaxVersion(kr.entries) + |deks| < U32_MODULUS
    ensures KeyringOk(Tried(kr, deks)) && Tried(kr, deks).active == kr.active
    ensures MaxVersion(Tried(kr, deks).entries) == MaxVersion(kr.entries) + |deks|
    decreases |deks|
  {
    if deks == [] {
    } else {
      var last := |deks| - 1;
      TriedGrows(kr, deks[..last]);
      NeverRotatesAgain(Tried(kr, deks[..last]), deks[last]);
    }
  }

  /** No rotation of a stranded vault succeeds, however often it is tried: each predicts
  the version after the active one, and allocates a later one. */
  lemma StrandedForGood(d: Disk, e: Disk, deks: seq<Key>, dek: Key)
    requires Settled(d) && Stranded(d, e) && d.keyring.value.active + 2 + |deks| < U32_MODULUS
    ensures
      var kr := Tried(e.keyring.value, deks);
      && KeyringOk(kr) && kr.active == d.keyring.value.active
      && MaxVersion(kr.entries) == d.keyring.value.active + 1 + |deks|
      && AddActive(kr, KekOf(kr), dek).active == d.keyring.value.active + 2 + |deks|
  {
    StrandedKeyring(d, e);
    TriedInVain(e.keyring.value, deks, dek);
  }

  lemma StrandedKeyring(d: Disk, e: Disk)
    requires Settled(d) && Stranded(d, e)
    ensures KeyringOk(e.keyring.value) && e.keyring.value.active == d.keyring.value.active
    ensures MaxVersion(e.keyring.value.entries) == d.keyring.value.active + 1
  {
    NewestIs(e.keyring.value, d.keyring.value.active + 1);
  }

  lemma TriedInVain(kr: KeyringFile, deks: seq<Key>, dek: Key)
    requires KeyringOk(kr) && MaxVersion(kr.entries) == kr.active + 1 && kr.active + 2 + |deks| < U32_MODULUS
    ensures KeyringOk(Tried(kr, deks)) && Tried(kr, deks).active == kr.active
    ensures MaxVersion(Tried(kr, deks).entries) == kr.active + 1 + |deks|
    ensures AddActive(Tried(kr, deks), KekOf(Tried(kr, deks)), dek).active == kr.active + 2 + |deks|
  {
    TriedGrows(kr, deks);
    NeverRotatesAgain(Tried(kr, deks), dek);
  }

  /** A file whose write was lost blocks the rollback of every later rotation from the
  same version: the new DEK takes the version in the file's header and does not open it. */
  lemma LostBlocksRollback(d: Disk, hold: Hold, f: FileId, plain: Bytes, prior: nat, later: Key)
    requires d.keyring.Some? && hold.1 == prior + 1 && hold.1 in hold.0 && later != hold.0[hold.1]
    ensures
      var file := Written(d, hold, f, plain).files[f];
      file.version != prior && !CanRead(file, Deks(d.keyring.value.entries)[prior + 1 := later], f)
  {
  }
}
