/** Moving a passphrase vault to keychain custody, and finishing or undoing the
move after an interruption. */
module KeychainMove {
  import opened Crypto
  import opened Effects
  import opened Keyring
  import opened VaultDisk
  import opened Handles
  import opened CustodyChange

  /** The live keyring opens under the passphrase whose salt is on disk, or under
  a KEK that the keychain holds; without a salt it must be the latter. */
  ghost predicate Openable(d: Disk) {
    && d.keyring.Some? && KeyringOk(d.keyring.value)
    && (PassphraseSide(d.keyring.value, d.salt) || Held(d.scoped, d.legacy, KekOf(d.keyring.value)))
  }

  /** The disk after the first `k` writes of a keychain move to the staged keyring
  `next`. The second one replaces whatever journal there is. */
  ghost function MoveStage(d: Disk, next: KeyringFile, k: nat): Disk
    requires next.entries != [] && k <= 6
  {
    var d1 := d.(staged := Some(next));
    var d2 := d1.(journal := Some(MoveToKeychain));
    var d3 := d2.(scoped := Some(Encoded(KekOf(next))));
    var d4 := d3.(keyring := Some(next), staged := None);
    var d5 := d4.(salt := None);
    if k == 0 then d else if k == 1 then d1 else if k == 2 then d2 else if k == 3 then d3 else if k == 4 then d4
    else if k == 5 then d5 else d5.(journal := None)
  }

  ghost predicate MayMove(d: Disk, next: KeyringFile) {
    && Inv(d) && (d.journal.Some? ==> !d.journal.value.Bootstrap?) && d.keyring.Some? && KeyringOk(d.keyring.value)
    && PassphraseSide(d.keyring.value, d.salt) && Twin(next, d.keyring.value) && KekOf(next).Random?
  }

  lemma MoveKeepsVault(d: Disk, next: KeyringFile, k: nat)
    requires MayMove(d, next) && k <= 6
    ensures
      var e := MoveStage(d, next, k);
      && SameVault(d, e) && KeyringOk(e.keyring.value) && (e.journal == d.journal || CustodyJournal(e))
      && (Core(e) <==> Core(d))
  {
    SameDeks(next.entries, d.keyring.value.entries);
  }

  /** At every one of them the vault is openable, and without a salt it is the
  keychain that opens it, provided everything is under the active DEK. */
  lemma MoveStages(d: Disk, next: KeyringFile, k: nat)
    requires MayMove(d, next) && Core(d) && k <= 6
    ensures
      var e := MoveStage(d, next, k);
      && Inv(e) && Openable(e)
      && (e.salt.None? ==> e.scoped == Some(Encoded(KekOf(next))) && e.keyring == Some(next))
      && (e.keyring == Some(next) || (e.keyring == d.keyring && e.salt == d.salt))
  {
    MoveKeepsVault(d, next, k);
  }

  /** A move that is begun while a rotation is half done replaces the journal that
  would have undone it. */
  lemma MoveDerails(d: Disk, next: KeyringFile, k: nat)
    requires MayMove(d, next) && !Core(d) && k <= 6
    ensures d.journal.Some? && d.journal.value.Rotate?
    ensures Inv(MoveStage(d, next, k)) <==> k < 2
  {
    MoveKeepsVault(d, next, k);
  }

  /** What a move of `d` to `newKek` that is accepted may leave in `e`. */
  ghost predicate Moves(d: Disk, e: Disk, newKek: Key, fates: seq<Fate>) {
    && SameVault(d, e) && KeyringOk(e.keyring.value) && (e.journal == d.journal || CustodyJournal(e))
    && (Inv(e) <==> Core(d) || !Reaches(fates, 2))
    && (Core(d) ==>
          && Openable(e)
          && (e.salt.None? ==> e.scoped == Some(Encoded(newKek)) && KekOf(e.keyring.value) == newKek)
          && (e.keyring == d.keyring ==> e.salt == d.salt)
          && (e.keyring != d.keyring ==> KekOf(e.keyring.value) == newKek))
    && (Smooth(fates, 6) ==> e.journal.None? && e.staged.None? && e.salt.None?)
    && (Progress(fates, 6) == 5 ==> MovedButJournal(e, newKek))
  }

  /** All of a move is done but the removal of its journal. */
  ghost predicate MovedButJournal(e: Disk, newKek: Key) {
    && e.journal == Some(MoveToKeychain) && e.salt.None? && e.staged.None? && e.scoped == Some(Encoded(newKek))
    && e.keyring.Some? && KeyringOk(e.keyring.value) && KekOf(e.keyring.value) == newKek
  }

  lemma MoveEnds(d: Disk, next: KeyringFile, fates: seq<Fate>)
    requires MayMove(d, next)
    ensures Moves(d, MoveStage(d, next, Progress(fates, 6)), KekOf(next), fates)
  {
    var k := Progress(fates, 6);
    ReachesProgress(fates, 6, 2);
    if Smooth(fates, 6) { ProgressLater(fates, 6, 0); }
    MoveKeepsVault(d, next, k);
    if Core(d) { MoveStages(d, next, k); } else { MoveDerails(d, next, k); }
  }

  method MoveToOsKeychain(root: Root, h: VaultHandle, current: string, newKek: Key) returns (r: Outcome<()>)
    requires Serving(root.disk) && Attached(h, root.disk) && newKek.Random?
    modifies root, h`custody
    ensures old(Stuck(root.disk)) ==> r.Err? && root.disk == old(root.disk)
    ensures old(AcceptsMove(root.disk, h.custody, current, root.access)) || (r.Err? && root.disk == old(root.disk))
    ensures old(Inv(root.disk) && AcceptsMove(root.disk, h.custody, current, root.access)) ==>
              Moves(old(root.disk), root.disk, newKek, old(root.fates)) && Takes(6, old(root.fates), root.fates, r.Ok?)
    ensures r.Ok? ==> h.custody.OsKeychain?
    ensures !r.Ok? ==> h.custody == old(h.custody)
    ensures Onward(old(root.fates), root.fates) && root.access == old(root.access)
  {
    if Stuck(root.disk) && Inv(root.disk) { StuckIsOutside(root.disk); }
    if !h.custody.Passphrase? || root.access.Unavailable? {
      return Err;
    }
    var oldKek := PassphraseKek(root.disk, Some(current));
    if oldKek.None? {
      return Err;
    }
    var unwrapped := UnwrapKeyring(root.disk.keyring.value, oldKek.value);
    if unwrapped.None? {
      return Err;
    }
    var staged := RewrapUnderNewKek(root.disk.keyring.value, oldKek.value, newKek);
    if staged.None? {
      return Err;
    }
    MoveEnds(root.disk, staged.value, root.fates);
    var io := CommitMove(root, staged.value, newKek);
    if io.Done? {
      h.custody := OsKeychain;
    }
    r := FromIo(io);
  }

  method CommitMove(root: Root, next: KeyringFile, newKek: Key) returns (io: Io)
    requires KeyringOk(next) && KekOf(next) == newKek
    modifies root
    ensures root.disk == MoveStage(old(root.disk), next, Progress(old(root.fates), 6))
    ensures Takes(6, old(root.fates), root.fates, io.Done?)
    ensures Onward(old(root.fates), root.fates) && root.access == old(root.access)
  {
    ghost var d, f := root.disk, root.fates;
    StepForward(f, 0, 6);
    io := root.Commit(root.disk.(staged := Some(next)));
    if io.Done? {
      StepForward(f, 1, 6);
      io := root.Commit(root.disk.(journal := Some(MoveToKeychain)));
    }
    if io.Done? {
      StepForward(f, 2, 6);
      io := root.Commit(root.disk.(scoped := Some(Encoded(newKek))));
    }
    if io.Done? {
      LoadOpens(next, newKek);
      var check := UnwrapKeyring(root.disk.staged.value, newKek);
      if check.None? {
        return Failed;
      }
      io := PromoteMove(root, next, d, f);
    }
  }

  /** The staged keyring goes live; then salt and journal are removed. */
  method PromoteMove(root: Root, next: KeyringFile, ghost d: Disk, ghost f: seq<Fate>) returns (io: Io)
    requires next.entries != [] && root.disk == MoveStage(d, next, 3) && Smooth(f, 3) && root.fates == After(f, 3)
    modifies root
    ensures root.disk == MoveStage(d, next, Progress(f, 6))
    ensures Takes(6, f, root.fates, io.Done?)
    ensures Onward(old(root.fates), root.fates) && root.access == old(root.access)
  {
    StepForward(f, 3, 6);
    io := root.Commit(root.disk.(keyring := root.disk.staged, staged := None));
    if io.Done? {
      StepForward(f, 4, 6);
      io := root.Commit(root.disk.(salt := None));
    }
    if io.Done? {
      StepForward(f, 5, 6);
      io := root.Commit(root.disk.(journal := None));
    }
  }

  ghost predicate AcceptsMove(d: Disk, custody: Custody, current: string, access: Access) {
    && d.keyring.Some? && KeyringOk(d.keyring.value)
    && custody.Passphrase? && !access.Unavailable?
    && PassphraseKek(d, Some(current)) == Some(KekOf(d.keyring.value))
  }

  /** The move replaces the journal of a rotation that is half done. */
  ghost predicate MoveOverwrites(d: Disk, custody: Custody, current: string, access: Access, fates: seq<Fate>) {
    AcceptsMove(d, custody, current, access) && !Core(d) && Reaches(fates, 2)
  }

  // ---- finishing or undoing an interrupted move ----------------------------------------

  /** `kek` opens the live or the staged keyring. */
  ghost predicate OpensEither(d: Disk, kek: Key)
    requires d.keyring.Some?
  {
    Load(d.keyring.value, kek).Some? || (d.staged.Some? && Load(d.staged.value, kek).Some?)
  }

  /** The states that finishing a move with the credential `kek` passes through. */
  lemma FinishMoveStages(d: Disk, kek: Key)
    requires Moving(d) && d.journal == Some(MoveToKeychain)
    requires Held(d.scoped, d.legacy, kek) && OpensEither(d, kek)
    ensures kek != KekOf(d.keyring.value) ==> d.staged.Some? && Load(d.staged.value, kek).Some?
    ensures
      var d1 := if kek == KekOf(d.keyring.value) then d.(staged := None) else d.(keyring := d.staged, staged := None);
      var d2 := d1.(salt := None);
      && Inv(d1) && Inv(d2) && Settled(d2.(journal := None))
      && KekOf(d1.keyring.value) == kek && SameVault(d, d1)
  {
    LoadOpens(d.keyring.value, kek);
    if kek != KekOf(d.keyring.value) {
      LoadOpens(d.staged.value, kek);
      TwinCore(d, d.staged.value);
    }
  }

  method FinishMove(root: Root, kek: Key) returns (io: Io)
    requires Moving(root.disk) && root.disk.journal == Some(MoveToKeychain)
    requires Held(root.disk.scoped, root.disk.legacy, kek) && OpensEither(root.disk, kek)
    modifies root
    ensures Inv(root.disk) && SameVault(old(root.disk), root.disk) && Openable(root.disk)
    ensures root.disk.scoped == old(root.disk.scoped)
    ensures root.disk.journal == old(root.disk.journal) || root.disk.journal.None?
    ensures io.Done? ==>
              && root.disk.journal.None? && root.disk.staged.None? && root.disk.salt.None?
              && KekOf(root.disk.keyring.value) == kek
    ensures old(root.fates) == [] ==> io.Done?
    ensures Onward(old(root.fates), root.fates) && root.access == old(root.access)
  {
    FinishMoveStages(root.disk, kek);
    var live := UnwrapKeyring(root.disk.keyring.value, kek);
    if live.Some? {
      io := DiscardStaged(root);
    } else {
      io := root.Commit(root.disk.(keyring := root.disk.staged, staged := None));
    }
    if io.Done? && root.disk.salt.Some? {
      io := root.Commit(root.disk.(salt := None));
    }
    if io.Done? {
      io := root.Commit(root.disk.(journal := None));
    }
  }

  /** The keychain credentials an interrupted move may be finished with. */
  function MoveCandidates(d: Disk, access: Access): seq<Key> {
    if access.Readable? && KekCandidates(d.scoped, d.legacy).Some? then KekCandidates(d.scoped, d.legacy).value else []
  }

  /** Some credential opens a side of the move. */
  ghost predicate MoveCanFinish(d: Disk, access: Access)
    requires d.keyring.Some?
  {
    exists kek :: kek in MoveCandidates(d, access) && OpensEither(d, kek)
  }

  /** Replacing what the keychain holds while a move is pending keeps the vault
  openable if and only if the passphrase still opens the live keyring or the
  keychain still holds its KEK; otherwise it is severed until the KEK is back. */
  lemma KeychainChangesDuringMove(d: Disk, e: Disk)
    requires d.journal == Some(MoveToKeychain) && (Moving(d) || Severed(d))
    requires e == d.(scoped := e.scoped, legacy := e.legacy)
    ensures Moving(e) <==>
            PassphraseSide(d.keyring.value, d.salt) || Held(e.scoped, e.legacy, KekOf(d.keyring.value))
    ensures Moving(e) || Severed(e)
    ensures !(Moving(e) && Severed(e))
  {
  }

  /** A severed vault answers to no credential. */
  lemma SeveredOpensNothing(d: Disk, kek: Key, passphrase: Option<string>)
    requires Severed(d)
    ensures Held(d.scoped, d.legacy, kek) ==> !OpensEither(d, kek)
    ensures !PassphraseCanUndo(d, Passphrase, passphrase)
  {
    LoadOpens(d.keyring.value, kek);
  }

  method RecoverMove(root: Root, custody: Custody, passphrase: Option<string>) returns (r: Outcome<Custody>)
    requires root.disk.journal == Some(MoveToKeychain) && (Inv(root.disk) || Severed(root.disk))
    modifies root
    ensures old(Severed(root.disk)) ==> r.Err? && root.disk == old(root.disk)
    ensures old(Inv(root.disk)) ==> Inv(root.disk) && SameVault(old(root.disk), root.disk) && Openable(root.disk)
    ensures root.disk.scoped == old(root.disk.scoped)
    ensures root.disk.journal == old(root.disk.journal) || root.disk.journal.None?
    // a credential that opens neither side changes nothing
    ensures
      || old(MoveCanFinish(root.disk, root.access) || PassphraseCanUndo(root.disk, custody, passphrase))
      || (r.Err? && root.disk == old(root.disk))
    ensures old(MoveCanFinish(root.disk, root.access)) ==> (r.Ok? ==> r.value.OsKeychain? && root.disk.salt.None?)
    ensures !old(MoveCanFinish(root.disk, root.access)) ==>
              && root.disk.keyring == old(root.disk.keyring) && root.disk.salt == old(root.disk.salt)
              && (r.Ok? ==> r.value.Passphrase?)
    ensures r.Ok? ==>
              && root.disk.journal.None? && root.disk.staged.None?
              && (r.value.OsKeychain? ==> Held(root.disk.scoped, root.disk.legacy, KekOf(root.disk.keyring.value)))
    ensures old(&& root.fates == []
                && (MoveCanFinish(root.disk, root.access) || PassphraseCanUndo(root.disk, custody, passphrase))) ==>
              r.Ok?
    ensures Onward(old(root.fates), root.fates) && root.access == old(root.access)
  {
    if !custody.Passphrase? && (!root.access.Readable? || KekCandidates(root.disk.scoped, root.disk.legacy).None?) {
      return Err;
    }
    var candidates := MoveCandidates(root.disk, root.access);
    for i := 0 to |candidates|
      invariant root.disk == old(root.disk) && root.fates == old(root.fates) && root.access == old(root.access)
      invariant forall j :: 0 <= j < i ==> !OpensEither(root.disk, candidates[j])
    {
      var live := UnwrapKeyring(root.disk.keyring.value, candidates[i]);
      var opens := live.Some?;
      if !opens && root.disk.staged.Some? {
        var staged := UnwrapKeyring(root.disk.staged.value, candidates[i]);
        opens := staged.Some?;
      }
      if opens {
        assert candidates[i] in candidates;
        var io := FinishMove(root, candidates[i]);
        return match io
          case Done => Ok(OsKeychain)
          case Failed => Err
          case Crashed => Stopped;
      }
    }
    if !custody.Passphrase? {
      return Err;
    }
    r := UndoMove(root, passphrase);
  }

  ghost predicate PassphraseCanUndo(d: Disk, custody: Custody, passphrase: Option<string>)
    requires d.keyring.Some? && KeyringOk(d.keyring.value)
  {
    custody.Passphrase? && PassphraseKek(d, passphrase) == Some(KekOf(d.keyring.value))
  }

  /** Roll the move back: the passphrase still opens the live keyring. */
  method UndoMove(root: Root, passphrase: Option<string>) returns (r: Outcome<Custody>)
    requires root.disk.journal == Some(MoveToKeychain) && (Inv(root.disk) || Severed(root.disk))
    modifies root
    ensures old(Severed(root.disk)) ==> r.Err? && root.disk == old(root.disk)
    ensures old(Inv(root.disk)) ==> Inv(root.disk) && Openable(root.disk)
    ensures root.disk == old(root.disk).(staged := root.disk.staged, journal := root.disk.journal)
    ensures root.disk.journal == old(root.disk.journal) || root.disk.journal.None?
    ensures old(PassphraseCanUndo(root.disk, Passphrase, passphrase)) || (r.Err? && root.disk == old(root.disk))
    ensures r.Ok? ==> r.value.Passphrase? && root.disk.journal.None? && root.disk.staged.None?
    ensures old(root.fates == [] && PassphraseCanUndo(root.disk, Passphrase, passphrase)) ==> r.Ok?
    ensures Onward(old(root.fates), root.fates) && root.access == old(root.access)
  {
    var kek := PassphraseKek(root.disk, passphrase);
    if kek.None? {
      return Err;
    }
    var live := UnwrapKeyring(root.disk.keyring.value, kek.value);
    if live.None? {
      return Err;
    }
    var io := DiscardStaged(root);
    if io.Done? {
      io := root.Commit(root.disk.(journal := None));
    }
    r := match io
    case Done => Ok(Passphrase)
    case Failed => Err
    case Crashed => Stopped;
  }
}
