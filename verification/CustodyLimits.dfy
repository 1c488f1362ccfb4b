/** Where changes of custody fall short, shown on new vaults. */
module CustodyLimits {
  import opened Crypto
  import opened Effects
  import opened Keyring
  import opened VaultDisk
  import opened Handles
  import opened KeychainMove
  import opened Unlock
  import opened RecoveryUnlock
  import opened NewVaults
  import Boot = Bootstrap

  /** A move to the keychain stops once the salt is gone, and the keychain loses the
  credential: no credential and no phrase opens the vault. */
  method SeverNewVault(passphrase: string, draw: Boot.Draw, newKek: Key, custody: Custody, tried: Option<string>,
                       phrase: Secret, another: Key)
    returns (root: Root, moved: Outcome<()>, unlocked: Outcome<VaultHandle>, recovered: Outcome<VaultHandle>)
    requires |passphrase| >= MIN_PASSPHRASE_CHARS && draw.phrase.Phrase? && draw.kek.Random? && newKek.Random?
    ensures fresh(root) && Severed(root.disk) && !moved.Ok? && unlocked.Err? && recovered.Err?
  {
    var h: VaultHandle;
    root, h := NewVault(passphrase, draw);
    root.fates := StopAt(4, Crash(true));
    StopAtProgress(4, Crash(true), 6);
    moved := MoveToOsKeychain(root, h, passphrase, newKek);
    ghost var d := root.disk;
    root.disk := root.disk.(scoped := None);
    KeychainChangesDuringMove(d, root.disk);
    root.fates := [];
    unlocked := UnlockVault(root, custody, tried);
    recovered := UnlockWithRecovery(root, phrase, another);
  }

  /** The keychain refuses to release the credential, and a recovery unlock stops after
  it has replaced it: from then on, even if the keychain answers again, only the phrase
  opens the vault. */
  method StopRepair(draw: Boot.Draw, newKek: Key, custody: Custody, tried: Option<string>)
    returns (root: Root, recovered: Outcome<VaultHandle>, unlocked: Outcome<VaultHandle>)
    requires draw.phrase.Phrase? && draw.kek.Random? && newKek.Random?
    ensures fresh(root) && !recovered.Ok? && PhraseOpens(root.disk, draw.phrase)
    ensures root.access.Readable? && (newKek != KekOf(root.disk.keyring.value) ==> !unlocked.Ok?)
  {
    var h: VaultHandle;
    root, h := NewKeychainVault(draw);
    ghost var d := root.disk;
    root.access := Denied;
    root.fates := StopAt(0, Crash(true));
    StopAtProgress(0, Crash(true), 2);
    recovered := UnlockWithRecovery(root, draw.phrase, newKek);
    if newKek != KekOf(d.keyring.value) { RepairHalfDone(d, newKek, custody, tried, Readable); }
    root.fates := [];
    root.access := Readable;
    unlocked := UnlockVault(root, custody, tried);
  }
}
