/** A bootstrap that is interrupted and retried until it succeeds. */
module BootstrapRetry {
  import opened Crypto
  import opened Effects
  import opened Keyring
  import opened VaultDisk
  import opened Handles
  import opened Unlock
  import opened RecoveryUnlock
  import opened Bootstrap

  /** The phrase that has been fixed for a vault: journalled by its bootstrap, or
  in the bundle of the complete vault. */
  ghost function IssuedPhrase(d: Disk): Option<Secret> {
    if d.journal.Some? && d.journal.value.Bootstrap? && d.journal.value.phrase.Some? then
      Some(d.journal.value.phrase.value.plain)
    else if d.journal.None? && d.recovery.Some? && d.recovery.value.box.key.Derived? then
      Some(d.recovery.value.box.key.secret)
    else None
  }

  /** Once a phrase is fixed no attempt changes it. */
  ghost predicate PhraseStays(d: Disk, e: Disk) {
    IssuedPhrase(d).Some? ==> IssuedPhrase(e) == IssuedPhrase(d)
  }

  /** Bootstrap in an empty directory, cut short any number of times and anywhere,
  then retried once without interruption, always with the same custody and
  passphrase. `disks` are the disks before each attempt. The vault ends complete.
  The retry succeeds, and returns the phrase of the vault, if and only if no
  earlier attempt had already completed it; a phrase that any attempt journalled
  is that phrase. */
  method BootstrapUntilDone(root: Root, custody: Custody, passphrase: Option<string>, attempts: seq<(Draw, seq<Fate>)>,
                            last: Draw)
    returns (r: Outcome<(VaultHandle, Secret)>, ghost disks: seq<Disk>)
    requires root.disk.journal.None? && Empty(root.disk)
    requires Founds(custody, passphrase, root.access, root.disk.scoped.None?)
    requires forall i :: 0 <= i < |attempts| ==> attempts[i].0.phrase.Phrase? && attempts[i].0.kek.Random?
    requires last.phrase.Phrase? && last.kek.Random?
    modifies root
    ensures |disks| == |attempts| + 1 && disks[0] == old(root.disk)
    ensures forall i :: 0 <= i < |disks| ==> Retryable(disks[i], custody, passphrase, root.access)
    ensures forall i :: 0 <= i < |attempts| ==> PhraseStays(disks[i], disks[i + 1])
    ensures Complete(root.disk, custody, passphrase, root.access) && root.access == old(root.access)
    ensures r.Ok? <==> !Complete(disks[|attempts|], custody, passphrase, root.access)
    ensures r.Ok? ==> Coherent(r.value.0, root.disk) && PhraseOpens(root.disk, r.value.1)
    ensures forall i :: 0 <= i < |disks| && IssuedPhrase(disks[i]).Some? ==>
              && PhraseOpens(root.disk, IssuedPhrase(disks[i]).value)
              && (r.Ok? ==> r.value.1 == IssuedPhrase(disks[i]).value)
  {
    disks := [root.disk];
    for n := 0 to |attempts|
      invariant root.access == old(root.access) && |disks| == n + 1 && disks[0] == old(root.disk)
      invariant disks[n] == root.disk
      invariant forall i :: 0 <= i <= n ==> Retryable(disks[i], custody, passphrase, root.access)
      invariant forall i :: 0 <= i < n ==> PhraseStays(disks[i], disks[i + 1])
      invariant forall i :: 0 <= i <= n ==> PhraseStays(disks[i], disks[n])
    {
      root.fates := attempts[n].1;
      var attempt := BootstrapVault(root, custody, passphrase, attempts[n].0);
      disks := disks + [root.disk];
    }
    root.fates := [];
    r := BootstrapVault(root, custody, passphrase, last);
  }

  /** The end in which nothing is left to retry: the vault is complete, its phrase
  was never returned, and a retry is refused. From an empty directory a bootstrap
  comes to it if and only if the step that drops the journal takes effect and does
  not report success. */
  method PhraseNeverReturned(root: Root, custody: Custody, passphrase: Option<string>, draw: Draw, again: Draw)
    returns (first: Outcome<(VaultHandle, Secret)>, second: Outcome<(VaultHandle, Secret)>)
    requires root.disk.journal.None? && Empty(root.disk)
    requires Founds(custody, passphrase, root.access, root.disk.scoped.None?)
    requires draw.phrase.Phrase? && draw.kek.Random? && again.phrase.Phrase? && again.kek.Random?
    modifies root
    ensures !first.Ok? && !second.Ok? <==> Unreported(old(root.fates), FOUNDING_STEPS + 2)
    ensures Complete(root.disk, custody, passphrase, root.access)
  {
    first := BootstrapVault(root, custody, passphrase, draw);
    root.fates := [];
    second := BootstrapVault(root, custody, passphrase, again);
  }
}
