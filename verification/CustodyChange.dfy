/** Changing the passphrase, moving to keychain custody, and finishing either
after an interruption. */
module CustodyChange {
  import opened Crypto
  import opened Effects
  import opened Keyring
  import opened VaultDisk
  import opened Handles

  /** Only custody differs: the same DEKs under the same versions, and nothing
  sealed under them has been touched. */
  ghost predicate SameVault(d: Disk, e: Disk) {
    && d.keyring.Some? && e.keyring.Some?
    && e == d.(keyring := e.keyring, staged := e.staged, salt := e.salt, journal := e.journal, scoped := e.scoped)
    && Deks(e.keyring.value.entries) == Deks(d.keyring.value.entries)
    && e.keyring.value.active == d.keyring.value.active
  }

  lemma TwinCore(d: Disk, kr: KeyringFile)
    requires Core(d) && Twin(kr, d.keyring.value)
    ensures Core(d.(keyring := Some(kr))) && SameVault(d, d.(keyring := Some(kr)))
  {
    SameDeks(kr.entries, d.keyring.value.entries);
  }

  ghost predicate CustodyJournal(d: Disk) {
    d.journal.Some? ==> d.journal.value.ChangePassphrase? || d.journal.value.MoveToKeychain?
  }

  /** The one KEK that an unlock with a passphrase has to derive. */
  ghost function PassphraseOpener(d: Disk): Key
    requires Core(d) && (d.journal.Some? && d.journal.value.ChangePassphrase? ==> Inv(d))
  {
    if d.journal.Some? && d.journal.value.ChangePassphrase? && !PassphraseSide(d.keyring.value, d.salt)
    then KekOf(d.staged.value)
    else KekOf(d.keyring.value)
  }

  // ---- passphrase change ------------------------------------------------------------

  /** The disk after the first `k` writes of a passphrase change to the staged keyring
  `next`. The second one replaces whatever journal there is. */
  ghost function ChangeStage(d: Disk, next: KeyringFile, newSalt: nat, k: nat): Disk
    requires d.salt.Some? && k <= 5
  {
    var d1 := d.(staged := Some(next));
    var d2 := d1.(journal := Some(ChangePassphrase(d.salt.value, newSalt)));
    var d3 := d2.(salt := Some(newSalt));
    var d4 := d3.(keyring := Some(next), staged := None);
    if k == 0 then d else if k == 1 then d1 else if k == 2 then d2 else if k == 3 then d3 else if k == 4 then d4
    else d4.(journal := None)
  }

  ghost predicate MayChange(d: Disk, next: KeyringFile, newSalt: nat) {
    && Inv(d) && (d.journal.Some? ==> !d.journal.value.Bootstrap?) && d.keyring.Some? && KeyringOk(d.keyring.value)
    && PassphraseSide(d.keyring.value, d.salt)
    && Twin(next, d.keyring.value) && PassphraseSide(next, Some(newSalt)) && d.salt != Some(newSalt)
  }

  lemma ChangeKeepsVault(d: Disk, next: KeyringFile, newSalt: nat, k: nat)
    requires MayChange(d, next, newSalt) && k <= 5
    ensures
      var e := ChangeStage(d, next, newSalt, k);
      && SameVault(d, e) && KeyringOk(e.keyring.value) && (e.journal == d.journal || CustodyJournal(e))
      && (Core(e) <==> Core(d))
  {
    SameDeks(next.entries, d.keyring.value.entries);
  }

  /** At every one of them one passphrase opens the vault, the one that matches
  the salt on disk, provided everything is under the active DEK. */
  lemma ChangeStages(d: Disk, next: KeyringFile, newSalt: nat, k: nat)
    requires MayChange(d, next, newSalt) && Core(d) && k <= 5
    ensures
      var e := ChangeStage(d, next, newSalt, k);
      && Inv(e) && Core(e)
      && (e.salt == d.salt ==> PassphraseOpener(e) == KekOf(d.keyring.value))
      && (e.salt != d.salt ==> e.salt == Some(newSalt) && PassphraseOpener(e) == KekOf(next))
  {
    ChangeKeepsVault(d, next, newSalt, k);
  }

  /** A change that is begun while a rotation is half done replaces the journal that
  would have undone it: from then on the invariant is broken. */
  lemma ChangeDerails(d: Disk, next: KeyringFile, newSalt: nat, k: nat)
    requires MayChange(d, next, newSalt) && !Core(d) && k <= 5
    ensures d.journal.Some? && d.journal.value.Rotate?
    ensures Inv(ChangeStage(d, next, newSalt, k)) <==> k < 2
  {
    ChangeKeepsVault(d, next, newSalt, k);
  }

  method ChangePassphraseOf(root: Root, h: VaultHandle, current: string, replacement: string, newSalt: nat)
    returns (r: Outcome<()>)
    requires Serving(root.disk) && Attached(h, root.disk) && root.disk.salt != Some(newSalt)
    modifies root
    ensures old(Stuck(root.disk)) ==> r.Err? && root.disk == old(root.disk)
    ensures old(Inv(root.disk)) ==>
              && SameVault(old(root.disk), root.disk) && KeyringOk(root.disk.keyring.value)
              && (root.disk.journal == old(root.disk.journal) || CustodyJournal(root.disk))
    ensures old(AcceptsChange(root.disk, h.custody, current, replacement)) || (r.Err? && root.disk == old(root.disk))
    // the invariant is lost exactly if the journal of a half-done rotation is replaced
    ensures old(Inv(root.disk)) ==>
              (Inv(root.disk) <==>
               !old(ChangeOverwrites(root.disk, h.custody, current, replacement, root.fates)))
    // which passphrase opens the vault is decided by the salt, at every crash point
    ensures old(Inv(root.disk) && Core(root.disk) && AcceptsChange(root.disk, h.custody, current, replacement)) ==>
              && (root.disk.salt == old(root.disk.salt) ==>
                    PassphraseOpener(root.disk) == Derived(Words(current), old(root.disk.salt.value)))
              && (root.disk.salt != old(root.disk.salt) ==>
                    && root.disk.salt == Some(newSalt)
                    && PassphraseOpener(root.disk) == Derived(Words(replacement), newSalt))
    ensures r.Ok? ==> root.disk.journal.None? && root.disk.staged.None? && root.disk.salt == Some(newSalt)
    ensures old(Inv(root.disk) && AcceptsChange(root.disk, h.custody, current, replacement)) ==>
              Takes(5, old(root.fates), root.fates, r.Ok?)
    ensures Onward(old(root.fates), root.fates) && root.access == old(root.access)
  {
    if Stuck(root.disk) && Inv(root.disk) { StuckIsOutside(root.disk); }
    if !h.custody.Passphrase? {
      return Err;
    }
    var oldKek := PassphraseKek(root.disk, Some(current));
    if oldKek.None? {
      return Err;
    }
    var unwrapped := UnwrapKeyring(root.disk.keyring.value, oldKek.value);
    if unwrapped.None? {
      return Err;
    }
    if |replacement| < MIN_PASSPHRASE_CHARS {
      return Err;
    }
    var newKek := Derived(Words(replacement), newSalt);
    var staged := RewrapUnderNewKek(root.disk.keyring.value, oldKek.value, newKek);
    if staged.None? {
      return Err;
    }
    ghost var d, fates := root.disk, root.fates;
    var io := CommitChange(root, staged.value, newSalt);
    ChangeEnds(d, staged.value, newSalt, current, replacement, h.custody, fates);
    r := FromIo(io);
  }

  /** What a change of `d` that is accepted may leave in `e`. */
  ghost predicate Changes(d: Disk, e: Disk, current: string, replacement: string, newSalt: nat, fates: seq<Fate>)
    requires d.salt.Some?
  {
    && SameVault(d, e) && KeyringOk(e.keyring.value) && (e.journal == d.journal || CustodyJournal(e))
    && (Inv(e) <==> Core(d) || !Reaches(fates, 2))
    && (Core(d) && Core(e) && Inv(e) ==>
          && (e.salt == d.salt ==> PassphraseOpener(e) == Derived(Words(current), d.salt.value))
          && (e.salt != d.salt ==>
                e.salt == Some(newSalt) && PassphraseOpener(e) == Derived(Words(replacement), newSalt)))
    && (Core(d) ==> Core(e))
    && (Smooth(fates, 5) ==> e.journal.None? && e.staged.None? && e.salt == Some(newSalt))
  }

  lemma ChangeEnds(d: Disk, next: KeyringFile, newSalt: nat, current: string, replacement: string, custody: Custody,
                   fates: seq<Fate>)
    requires MayChange(d, next, newSalt) && KekOf(next) == Derived(Words(replacement), newSalt)
    requires KekOf(d.keyring.value) == Derived(Words(current), d.salt.value)
    ensures Changes(d, ChangeStage(d, next, newSalt, Progress(fates, 5)), current, replacement, newSalt, fates)
  {
    var k := Progress(fates, 5);
    ReachesProgress(fates, 5, 2);
    if Smooth(fates, 5) { ProgressLater(fates, 5, 0); }
    ChangeKeepsVault(d, next, newSalt, k);
    if Core(d) { ChangeStages(d, next, newSalt, k); } else { ChangeDerails(d, next, newSalt, k); }
  }

  /** The change replaces the journal of a rotation that is half done. */
  ghost predicate ChangeOverwrites(d: Disk, custody: Custody, current: string, replacement: string, fates: seq<Fate>) {
    AcceptsChange(d, custody, current, replacement) && !Core(d) && Reaches(fates, 2)
  }

  method CommitChange(root: Root, next: KeyringFile, newSalt: nat) returns (io: Io)
    requires root.disk.salt.Some?
    modifies root
    ensures root.disk == ChangeStage(old(root.disk), next, newSalt, Progress(old(root.fates), 5))
    ensures Takes(5, old(root.fates), root.fates, io.Done?)
    ensures Onward(old(root.fates), root.fates) && root.access == old(root.access)
  {
    ghost var f := root.fates;
    StepForward(f, 0, 5);
    io := root.Commit(root.disk.(staged := Some(next)));
    if io.Done? {
      StepForward(f, 1, 5);
      io := root.Commit(root.disk.(journal := Some(ChangePassphrase(root.disk.salt.value, newSalt))));
    }
    if io.Done? {
      StepForward(f, 2, 5);
      io := root.Commit(root.disk.(salt := Some(newSalt)));
    }
    if io.Done? {
      StepForward(f, 3, 5);
      io := root.Commit(root.disk.(keyring := root.disk.staged, staged := None));
    }
    if io.Done? {
      StepForward(f, 4, 5);
      io := root.Commit(root.disk.(journal := None));
    }
  }

  ghost predicate AcceptsChange(d: Disk, custody: Custody, current: string, replacement: string) {
    && d.keyring.Some? && KeyringOk(d.keyring.value)
    && custody.Passphrase? && PassphraseKek(d, Some(current)) == Some(KekOf(d.keyring.value))
    && |replacement| >= 16
  }

  method DiscardStaged(root: Root) returns (io: Io)
    modifies root
    ensures root.disk == old(root.disk) || root.disk == old(root.disk).(staged := None)
    ensures io.Done? ==> root.disk == old(root.disk).(staged := None)
    ensures old(root.fates) == [] ==> io.Done?
    ensures Onward(old(root.fates), root.fates) && root.access == old(root.access)
  {
    io := Done;
    if root.disk.staged.Some? {
      io := root.Commit(root.disk.(staged := None));
    }
  }

  /** The states that finishing a passphrase change passes through. */
  lemma RecoverChangeStages(d: Disk, oldSalt: nat, newSalt: nat)
    requires Changing(d, oldSalt, newSalt) && d.journal == Some(ChangePassphrase(oldSalt, newSalt))
    ensures PassphraseSide(d.keyring.value, d.salt) ==>
              var d1 := d.(staged := None);
              Inv(d1) && Settled(d1.(journal := None)) && PassphraseOpener(d1) == PassphraseOpener(d)
    ensures !PassphraseSide(d.keyring.value, d.salt) ==>
              var d1 := d.(keyring := d.staged, staged := None);
              && Inv(d1) && Settled(d1.(journal := None)) && PassphraseOpener(d1) == PassphraseOpener(d)
              && SameVault(d, d1)
  {
    if !PassphraseSide(d.keyring.value, d.salt) { TwinCore(d, d.staged.value); }
  }

  method RecoverChange(root: Root, custody: Custody, passphrase: Option<string>) returns (r: Outcome<Custody>)
    requires Inv(root.disk) && root.disk.journal.Some? && root.disk.journal.value.ChangePassphrase?
    modifies root
    ensures Inv(root.disk) && SameVault(old(root.disk), root.disk) && root.disk.salt == old(root.disk.salt)
    ensures PassphraseOpener(root.disk) == old(PassphraseOpener(root.disk))
    ensures root.disk.journal == old(root.disk.journal) || root.disk.journal.None?
    ensures
      || old(custody.Passphrase? && PassphraseKek(root.disk, passphrase) == Some(PassphraseOpener(root.disk)))
      || (r.Err? && root.disk == old(root.disk))
    ensures r.Ok? ==> r.value == custody && root.disk.journal.None? && root.disk.staged.None?
    ensures old(&& root.fates == [] && custody.Passphrase?
                && PassphraseKek(root.disk, passphrase) == Some(PassphraseOpener(root.disk))) ==>
              r.Ok?
    ensures Onward(old(root.fates), root.fates) && root.access == old(root.access)
  {
    if !custody.Passphrase? || passphrase.None? || root.disk.salt.None? {
      return Err;
    }
    var current, journal := root.disk.salt.value, root.disk.journal.value;
    RecoverChangeStages(root.disk, journal.oldSalt, journal.newSalt);
    var kek := Derived(Words(passphrase.value), current);
    var io: Io;
    if current == journal.oldSalt {
      var live := UnwrapKeyring(root.disk.keyring.value, kek);
      if live.None? {
        return Err;
      }
      io := DiscardStaged(root);
    } else if current != journal.newSalt {
      return Err;
    } else {
      var live := UnwrapKeyring(root.disk.keyring.value, kek);
      if live.Some? {
        io := DiscardStaged(root);
      } else {
        if root.disk.staged.None? {
          return Err;
        }
        var staged := UnwrapKeyring(root.disk.staged.value, kek);
        if staged.None? {
          return Err;
        }
        io := root.Commit(root.disk.(keyring := root.disk.staged, staged := None));
      }
    }
    if io.Done? {
      io := root.Commit(root.disk.(journal := None));
    }
    r := match io
    case Done => Ok(Passphrase)
    case Failed => Err
    case Crashed => Stopped;
  }
}
