/** Vaults that have just been created. */
module NewVaults {
  import opened Crypto
  import opened Effects
  import opened Keyring
  import opened VaultDisk
  import opened Handles
  import opened Rotation
  import opened Unlock
  import opened RecoveryUnlock
  import Boot = Bootstrap

  const EMPTY_DISK := Disk(None, None, None, None, None, None, Stores([], [], []), None, map[], NoLog, None, None)

  /** A new passphrase vault in an empty directory. */
  method NewVault(passphrase: string, draw: Boot.Draw) returns (root: Root, h: VaultHandle)
    requires |passphrase| >= MIN_PASSPHRASE_CHARS && draw.phrase.Phrase? && draw.kek.Random?
    ensures fresh(root) && fresh(h) && root.fates == [] && root.disk.journal.None? && Settled(root.disk)
    ensures Coherent(h, root.disk)
    ensures h.custody.Passphrase? && CredentialOpens(root.disk, Passphrase, Some(passphrase), root.access)
    ensures root.disk.keyring.value.active == 1 && ActiveDek(root.disk.keyring.value) == draw.dek
    ensures Boot.FoundBy(root.disk, Passphrase, Some(passphrase), draw)
    ensures root.access.Readable? && root.disk.legacy.None?
  {
    root := new Root(EMPTY_DISK);
    var made := Boot.BootstrapVault(root, Passphrase, Some(passphrase), draw);
    h := made.value.0;
  }

  /** A new vault with the KEK in the keychain. */
  method NewKeychainVault(draw: Boot.Draw) returns (root: Root, h: VaultHandle)
    requires draw.phrase.Phrase? && draw.kek.Random?
    ensures fresh(root) && fresh(h) && root.fates == [] && root.disk.journal.None? && Settled(root.disk)
    ensures root.access.Readable? && root.disk.salt.None? && root.disk.legacy.None?
    ensures PhraseOpens(root.disk, draw.phrase)
  {
    root := new Root(EMPTY_DISK);
    var made := Boot.BootstrapVault(root, OsKeychain, None, draw);
    h := made.value.0;
  }

  /** The step at which `n` steps stop that otherwise succeed. */
  function StopAt(n: nat, last: Fate): seq<Fate> {
    seq(n, i => Good) + [last]
  }

  lemma StopAtProgress(n: nat, last: Fate, total: nat)
    requires n < total && !last.Good?
    ensures Smooth(StopAt(n, last), n) && !Smooth(StopAt(n, last), total)
    ensures Progress(StopAt(n, last), total) == if last.late then n + 1 else n
  {
    var fates := StopAt(n, last);
    assert After(fates, n) == [last];
    StepForward(fates, n, total);
  }
}
