/** Rotating the data-encryption key of an unlocked vault. */
module KeyRotation {
  import opened Crypto
  import opened Effects
  import opened Keyring
  import opened VaultDisk
  import opened Handles
  import opened Rotation

  function NewBundle(version: nat, dek: Key, phrase: Secret, salt: nat): Bundle {
    Bundle(Some(version), salt, Seal(Derived(phrase, salt), dek, RECOVERY_AAD))
  }

  // ---- the states a rotation passes through --------------------------------------

  /** The journal of a rotation of `d` has been written. */
  function WithJournal(d: Disk): Disk
    requires d.keyring.Some? && d.recovery.Some?
  {
    d.(journal := Some(Rotate(d.keyring.value.active, d.keyring.value.active + 1, d.recovery.value)))
  }

  lemma BeginStages(d: Disk, newDek: Key)
    requires Settled(d) && d.journal.None? && d.keyring.value.active + 1 < U32_MODULUS
    ensures
      var kr := d.keyring.value;
      var d1 := WithJournal(d);
      var d2 := d1.(keyring := Some(AddActive(kr, KekOf(kr), newDek)));
      && Rotating(d1, kr.active, d.recovery.value) && Inv(d1)
      && Rotating(d2, kr.active, d.recovery.value) && Inv(d2) && d2.keyring.value.active == kr.active + 1
      && AllUnder(d2, kr.active)
      && Deks(d2.keyring.value.entries) == Deks(kr.entries)[kr.active + 1 := newDek]
      && KekOf(d2.keyring.value) == KekOf(kr)
  {
    AddActiveOk(d.keyring.value, newDek);
  }

  lemma EndStages(d: Disk, prior: nat, backup: Bundle, phrase: Secret, salt: nat)
    requires Rotating(d, prior, backup) && d.keyring.value.active == prior + 1
    requires AllUnder(d, prior + 1) && phrase.Phrase?
    ensures
      var dek := ActiveDek(d.keyring.value);
      var d1 := d.(recovery := Some(NewBundle(prior + 1, dek, phrase, salt)));
      && Rotating(d1, prior, backup)
      && Settled(d1.(journal := None))
  {
  }

  // ---- the operation ----------------------------------------------------------------

  /** The state after a rotation from `d`: everything is under the new DEK, and
  the returned phrase opens it. */
  ghost predicate Rotated(d: Disk, e: Disk, newDek: Key, phrase: Secret) {
    && d.keyring.Some? && e.journal.None? && Settled(e)
    && e.keyring.value.active == d.keyring.value.active + 1
    && Deks(e.keyring.value.entries) == Deks(d.keyring.value.entries)[e.keyring.value.active := newDek]
    && e.recovery.value.box.key.secret == phrase
  }

  ghost predicate SaltIs(e: Disk, salt: nat) {
    e.recovery.Some? && e.recovery.value.salt == salt
  }

  /** How many durable steps a rotation of `d` takes before the one that drops
  its journal: the journal, the keyring, every file, identity and stores, the
  recovery bundle. */
  function DropStep(d: Disk): nat {
    3 + |d.files| + MaterialSteps(d.stores)
  }

  /** The operation reported an error although its journal is already gone, which
  happens exactly when the step after the next `n` is such a late error. */
  ghost predicate DropsLate(r: Outcome<()>, e: Disk, n: nat, before: seq<Fate>, after: seq<Fate>) {
    && (r.Err? && e.journal.None? <==> LateErrorAt(before, n))
    && (LateErrorAt(before, n) ==> after == After(before, n + 1))
  }

  lemma DropsLateAfter(n: nat, before: seq<Fate>, middle: seq<Fate>, r: Outcome<()>, e: Disk, k: nat, after: seq<Fate>)
    requires Takes(n, before, middle, true) && DropsLate(r, e, k, middle, after)
    ensures DropsLate(r, e, n + k, before, after)
  {
    LateErrorLater(before, n, k);
    SmoothAdds(before, n, k + 1);
  }

  lemma DropsNotYet(n: nat, before: seq<Fate>, middle: seq<Fate>, r: Outcome<()>, e: Disk, k: nat)
    requires Takes(n, before, middle, false) && e.journal.Some?
    ensures DropsLate(r, e, n + k, before, middle)
  {
    LateErrorLater(before, n, k);
  }

  /** If the keyring has that version, it is that DEK. */
  ghost predicate NewIs(e: Disk, version: nat, newDek: Key) {
    && e.keyring.Some?
    && (version in Deks(e.keyring.value.entries) ==> Deks(e.keyring.value.entries)[version] == newDek)
  }

  /** From `d`, where the rotation has just been journalled, the transaction may
  leave `e`: nothing the vault holds has changed, no DEK is lost, and the
  rotation is either finished or can still be rolled back. */
  ghost predicate Forward(d: Disk, e: Disk, newDek: Key, phrase: Secret)
    requires d.keyring.Some? && KeyringOk(d.keyring.value) && d.journal.Some? && d.journal.value.Rotate?
  {
    && ContentsOf(e) == ContentsOf(d) && SameOpeners(d, e)
    && e.keyring.Some? && KeptDeks(e, d.keyring.value.active) == Deks(d.keyring.value.entries)
    && NewIs(e, d.keyring.value.active + 1, newDek)
    && (|| (e.journal.None? && Rotated(d, e, newDek, phrase))
        || (e.journal == d.journal && Rotating(e, d.keyring.value.active, d.journal.value.backup)))
  }

  /** The journal has been written and nothing else. */
  ghost predicate Journalled(d: Disk) {
    && Settled(d.(journal := None)) && d.keyring.value.active + 1 < U32_MODULUS
    && d.journal == Some(Rotate(d.keyring.value.active, d.keyring.value.active + 1, d.recovery.value))
  }

  lemma MigratedStages(d: Disk, e: Disk, newDek: Key, phrase: Secret, salt: nat)
    requires Journalled(d) && phrase.Phrase?
    requires e.keyring == Some(AddActive(d.keyring.value, KekOf(d.keyring.value), newDek))
    requires e == d.(keyring := e.keyring, files := e.files, identity := e.identity, stores := e.stores)
    requires
      var deks := Deks(d.keyring.value.entries)[d.keyring.value.active + 1 := newDek];
      var a, b := WrapKey(deks[d.keyring.value.active]), WrapKey(newDek);
      && FilesUnderKeys(e.files, deks, d.keyring.value.active, d.keyring.value.active + 1)
      && IdentityUnderEither(e.identity, a, b) && StoresUnderEither(e.stores, a, b)
    requires ContentsOf(e) == ContentsOf(d)
    ensures Forward(d, e, newDek, phrase)
    ensures AllUnder(e, e.keyring.value.active) ==>
              var e1 := e.(recovery := Some(NewBundle(e.keyring.value.active, newDek, phrase, salt)));
              Forward(d, e1, newDek, phrase) && Forward(d, e1.(journal := None), newDek, phrase)
              && Rotated(d, e1.(journal := None), newDek, phrase)
  {
    BeginStages(d.(journal := None), newDek);
    if AllUnder(e, e.keyring.value.active) {
      EndStages(e, d.keyring.value.active, d.recovery.value, phrase, salt);
    }
  }

  /** Identity and material will move: the handle's wrapping key or the new one is
  the one the identity is under. */
  ghost predicate Fits(d: Disk, oldWrap: Key, newDek: Key) {
    IdentityUnderEither(d.identity, oldWrap, WrapKey(newDek))
  }

  /** What the transaction under `kek` makes of the journalled disk `d`. */
  ghost predicate TransactionLeaves(d: Disk, e: Disk, r: Outcome<()>, kek: Key, newDek: Key, phrase: Secret, fits: bool,
                                    before: seq<Fate>, after: seq<Fate>)
    requires d.keyring.Some? && KeyringOk(d.keyring.value) && d.journal.Some? && d.journal.value.Rotate?
  {
    if kek == KekOf(d.keyring.value) then
      && Forward(d, e, newDek, phrase) && (r.Ok? ==> Rotated(d, e, newDek, phrase))
      && if fits then DropsLate(r, e, DropStep(d) - 1, before, after) && (before == [] ==> r.Ok?)
         else !r.Ok? && e.journal == d.journal && (before == [] ==> r.Err? && after == [])
    else
      && !r.Ok? && ContentsOf(e) == ContentsOf(d) && OldStays(d, e) && (before == [] ==> r.Err?)
      && if TakesEffect(NextFate(before)) then LockedOut(e) else e == d
  }

  /** The handle moves to the new DEK once every file has, which takes the first
  `lo` steps. */
  ghost function MovedHold(had: Hold, kr: KeyringFile, newDek: Key, lo: nat, before: seq<Fate>): Hold {
    if Smooth(before, lo) then (Deks(kr.entries)[kr.active + 1 := newDek], kr.active + 1) else had
  }

  /** A handle that moved, and the error that came after it. */
  ghost predicate HandleMoves(had: Hold, hold: Hold, kr: KeyringFile, e: Disk, newDek: Key, r: Outcome<()>,
                              lo: nat, hi: nat, before: seq<Fate>, after: seq<Fate>)
  {
    && hold == MovedHold(had, kr, newDek, lo, before) && Quits(lo, hi, before, after, r)
    && (r.Err? && Smooth(before, lo) ==>
          && e.keyring.Some? && kr.active + 1 in Deks(e.keyring.value.entries) && NoneAt(e.files, kr.active))
  }

  /** The transaction between the two journal writes. The handle moves to the new
  DEK once every file has. */
  method RotateTransaction(root: Root, h: VaultHandle, kek: Key, newDek: Key, oldWrap: Key, predicted: nat,
                           phrase: Secret, salt: nat)
    returns (r: Outcome<()>)
    requires Journalled(root.disk) && Attached(h, root.disk) && phrase.Phrase?
    requires predicted == root.disk.keyring.value.active + 1
    modifies root, h
    ensures TransactionLeaves(old(root.disk), root.disk, r, kek, newDek, phrase, old(Fits(root.disk, oldWrap, newDek)),
                              old(root.fates), root.fates)
    ensures r.Ok? ==> Coherent(h, root.disk)
    ensures h.custody == old(h.custody) && h.identityRoot == old(h.identityRoot)
    ensures (h.keys, h.active) == old((h.keys, h.active)) || HoldsNew(h, predicted, newDek)
    ensures kek != old(KekOf(root.disk.keyring.value)) ==> (h.keys, h.active) == old((h.keys, h.active))
    ensures kek == old(KekOf(root.disk.keyring.value)) && NextFate(old(root.fates)) == Fail(true) ==>
              && r.Err? && root.fates == After(old(root.fates), 1) && (h.keys, h.active) == old((h.keys, h.active))
              && root.disk == old(root.disk).(keyring := Some(AddActive(old(root.disk).keyring.value, kek, newDek)))
              && predicted in Deks(root.disk.keyring.value.entries)
    ensures kek == old(KekOf(root.disk.keyring.value)) && old(Fits(root.disk, oldWrap, newDek)) ==>
              HandleMoves(old((h.keys, h.active)), (h.keys, h.active), old(root.disk).keyring.value, root.disk, newDek,
                          r, 1 + |old(root.disk).files|, DropStep(old(root.disk)), old(root.fates), root.fates)
    ensures r.Ok? ==> SaltIs(root.disk, salt)
    ensures Onward(old(root.fates), root.fates) && root.access == old(root.access)
  {
    ghost var d, before, had := root.disk, root.fates, (h.keys, h.active);
    ghost var fits, lo, hi := Fits(d, oldWrap, newDek), |d.files|, DropStep(d) - 1;
    var added := AddDek(root, kek, newDek, predicted);
    ghost var middle := root.fates;
    if !added.Ok? {
      r := if added.Err? then Err else Stopped;
      EndsAtAdd(d, root.disk, added, r, had, kek, newDek, phrase, salt, fits, before, middle);
      return;
    }
    r := MigrateAndSeal(root, h, added.value, newDek, oldWrap, predicted, phrase, salt, d);
    SealsLater(d, root.disk, r, kek, newDek, phrase, fits, before, middle, root.fates);
    if fits {
      MovesLater(had, (h.keys, h.active), d.keyring.value, root.disk, newDek, r, lo, hi, before, middle, root.fates);
    }
  }

  lemma SealsLater(d: Disk, e: Disk, r: Outcome<()>, kek: Key, newDek: Key, phrase: Secret, fits: bool,
                   before: seq<Fate>, middle: seq<Fate>, after: seq<Fate>)
    requires Journalled(d) && kek == KekOf(d.keyring.value) && Takes(1, before, middle, true) && Onward(middle, after)
    requires SealLeaves(d, e, r, newDek, phrase, fits, middle, after)
    ensures TransactionLeaves(d, e, r, kek, newDek, phrase, fits, before, after)
  {
    if fits { DropsLateAfter(1, before, middle, r, e, DropStep(d) - 2, after); }
  }

  lemma MovesLater(had: Hold, hold: Hold, kr: KeyringFile, e: Disk, newDek: Key, r: Outcome<()>, lo: nat, hi: nat,
                   before: seq<Fate>, middle: seq<Fate>, after: seq<Fate>)
    requires Takes(1, before, middle, true) && HandleMoves(had, hold, kr, e, newDek, r, lo, hi, middle, after)
    ensures HandleMoves(had, hold, kr, e, newDek, r, 1 + lo, 1 + hi, before, after)
  {
    QuitsLater(1, lo, hi, before, middle, after, r);
    SmoothAdds(before, 1, lo);
  }

  /** Before and after the new DEK is in the keyring. */
  lemma AddedStages(d: Disk, newDek: Key, phrase: Secret, salt: nat)
    requires Journalled(d) && phrase.Phrase?
    ensures Forward(d, d, newDek, phrase)
    ensures Forward(d, d.(keyring := Some(AddActive(d.keyring.value, KekOf(d.keyring.value), newDek))), newDek, phrase)
  {
    BeginStages(d.(journal := None), newDek);
    MigratedStages(d, d.(keyring := Some(AddActive(d.keyring.value, KekOf(d.keyring.value), newDek))), newDek, phrase,
                   salt);
  }

  /** The DEK that was active is still there. */
  ghost predicate OldStays(d: Disk, e: Disk)
    requires d.keyring.Some? && KeyringOk(d.keyring.value)
  {
    && e.keyring.Some? && d.keyring.value.active in Deks(e.keyring.value.entries)
    && Deks(e.keyring.value.entries)[d.keyring.value.active] == ActiveDek(d.keyring.value)
  }

  lemma AddKeepsOld(kr: KeyringFile, kek: Key, newDek: Key)
    requires KeyringOk(kr) && Latest(kr) && kr.active + 1 < U32_MODULUS
    ensures
      var deks := Deks(AddActive(kr, kek, newDek).entries);
      kr.active in deks && deks[kr.active] == ActiveDek(kr)
  {
    MaxVersionBounds(kr.entries);
    DeksAt(kr.entries);
    DeksGrow(kr.entries, WrappedDek(MaxVersion(kr.entries) + 1, Seal(kek, newDek, KEYRING_AAD)));
  }

  /** What adding the new DEK makes of the journalled disk `d`. */
  ghost predicate AddLeaves(d: Disk, e: Disk, r: Outcome<Unwrapped>, kek: Key, newDek: Key, before: seq<Fate>,
                            after: seq<Fate>)
    requires d.keyring.Some? && KeyringOk(d.keyring.value)
  {
    var added := d.(keyring := Some(AddActive(d.keyring.value, kek, newDek)));
    var next := d.keyring.value.active + 1;
    if kek == KekOf(d.keyring.value) then
      && (e == d || e == added) && Takes(1, before, after, r.Ok?)
      && (r.Ok? ==> e == added && r.value == Unwrapped(Deks(d.keyring.value.entries)[next := newDek], next))
      && (NextFate(before) == Fail(true) ==>
            r.Err? && after == After(before, 1) && e == added && next in Deks(added.keyring.value.entries))
    else
      && !r.Ok? && OldStays(d, e) && (before == [] ==> r.Err?) && ContentsOf(e) == ContentsOf(d)
      && if TakesEffect(NextFate(before)) then LockedOut(e) else e == d
  }

  /** A transaction that ends with that step. */
  lemma EndsAtAdd(d: Disk, e: Disk, added: Outcome<Unwrapped>, r: Outcome<()>, had: Hold, kek: Key, newDek: Key,
                  phrase: Secret, salt: nat, fits: bool, before: seq<Fate>, after: seq<Fate>)
    requires Journalled(d) && phrase.Phrase? && AddLeaves(d, e, added, kek, newDek, before, after)
    requires !added.Ok? && (r.Err? <==> added.Err?) && !r.Ok? && (before == [] ==> after == [])
    ensures TransactionLeaves(d, e, r, kek, newDek, phrase, fits, before, after)
    ensures kek == KekOf(d.keyring.value) ==>
              HandleMoves(had, had, d.keyring.value, e, newDek, r, 1 + |d.files|, DropStep(d), before, after)
  {
    if kek == KekOf(d.keyring.value) {
      AddedStages(d, newDek, phrase, salt);
      DropsNotYet(1, before, after, r, e, DropStep(d) - 2);
      QuitsBefore(1, 1 + |d.files|, DropStep(d), before, after, r);
    }
  }

  /** Append the new DEK to the keyring and load it again. */
  method AddDek(root: Root, kek: Key, newDek: Key, predicted: nat) returns (r: Outcome<Unwrapped>)
    requires Journalled(root.disk) && predicted == root.disk.keyring.value.active + 1
    modifies root
    ensures AddLeaves(old(root.disk), root.disk, r, kek, newDek, old(root.fates), root.fates)
    ensures Onward(old(root.fates), root.fates) && root.access == old(root.access)
  {
    ghost var d, before := root.disk, root.fates;
    var kr := AddActive(root.disk.keyring.value, kek, newDek);
    var io := root.Commit(root.disk.(keyring := Some(kr)));
    r := if io.Crashed? then Stopped else Err;
    if io.Done? && kr.active == predicted {
      var unwrapped := UnwrapKeyring(root.disk.keyring.value, kek);
      r := if unwrapped.Some? then Ok(unwrapped.value) else Err;
    }
    if kek == KekOf(d.keyring.value) {
      AddsRight(d, root.disk, r, newDek, before);
    } else {
      AddsWrong(d, root.disk, r, kek, newDek, before);
    }
  }

  lemma AddsRight(d: Disk, e: Disk, r: Outcome<Unwrapped>, newDek: Key, before: seq<Fate>)
    requires Journalled(d)
    requires
      var kek, fate := KekOf(d.keyring.value), NextFate(before);
      var kr := AddActive(d.keyring.value, kek, newDek);
      && e == (if TakesEffect(fate) then d.(keyring := Some(kr)) else d)
      && (!fate.Good? ==> r == if fate.Crash? then Stopped else Err)
      && (fate.Good? && kr.active == d.keyring.value.active + 1 ==>
            r == if Load(kr, kek).Some? then Ok(Load(kr, kek).value) else Err)
    ensures AddLeaves(d, e, r, KekOf(d.keyring.value), newDek, before, After(before, 1))
  {
    AddActiveOk(d.keyring.value, newDek);
    LoadOpens(AddActive(d.keyring.value, KekOf(d.keyring.value), newDek), KekOf(d.keyring.value));
  }

  lemma AddsWrong(d: Disk, e: Disk, r: Outcome<Unwrapped>, kek: Key, newDek: Key, before: seq<Fate>)
    requires Journalled(d) && kek != KekOf(d.keyring.value)
    requires
      var fate := NextFate(before);
      var kr := AddActive(d.keyring.value, kek, newDek);
      && e == (if TakesEffect(fate) then d.(keyring := Some(kr)) else d)
      && (!fate.Good? ==> r == if fate.Crash? then Stopped else Err)
      && (fate.Good? ==> r.Err? || Load(kr, kek).Some?)
    ensures AddLeaves(d, e, r, kek, newDek, before, After(before, 1))
  {
    AddUnderWrongKek(d.keyring.value, kek, newDek);
    AddKeepsOld(d.keyring.value, kek, newDek);
  }

  /** The handle works with the new DEK. */
  ghost predicate HoldsNew(h: VaultHandle, version: nat, newDek: Key)
    reads h
  {
    h.active == version && version in h.keys && h.keys[version] == newDek
  }

  /** What the rest of the transaction makes of it. */
  ghost predicate SealLeaves(d: Disk, e: Disk, r: Outcome<()>, newDek: Key, phrase: Secret, fits: bool,
                             before: seq<Fate>, after: seq<Fate>)
    requires d.keyring.Some? && KeyringOk(d.keyring.value) && d.journal.Some? && d.journal.value.Rotate?
  {
    && Forward(d, e, newDek, phrase) && (r.Ok? ==> Rotated(d, e, newDek, phrase))
    && if fits then DropsLate(r, e, DropStep(d) - 2, before, after) && (before == [] ==> r.Ok?)
       else !r.Ok? && e.journal == d.journal && (before == [] ==> r.Err?)
  }

  /** From the keyring with the new DEK to the end of the transaction. */
  method MigrateAndSeal(root: Root, h: VaultHandle, unwrapped: Unwrapped, newDek: Key, oldWrap: Key, predicted: nat,
                        phrase: Secret, salt: nat, ghost d: Disk)
    returns (r: Outcome<()>)
    requires Migratable(root.disk, d, unwrapped, newDek, predicted) && Attached(h, d) && phrase.Phrase?
    modifies root, h
    ensures SealLeaves(d, root.disk, r, newDek, phrase, Fits(d, oldWrap, newDek), old(root.fates), root.fates)
    ensures r.Ok? ==> Coherent(h, root.disk)
    ensures h.custody == old(h.custody) && h.identityRoot == old(h.identityRoot)
    ensures (h.keys, h.active) == old((h.keys, h.active)) || HoldsNew(h, predicted, newDek)
    ensures Fits(d, oldWrap, newDek) ==>
              HandleMoves(old((h.keys, h.active)), (h.keys, h.active), d.keyring.value, root.disk, newDek, r, |d.files|,
                          DropStep(d) - 1, old(root.fates), root.fates)
    ensures r.Ok? ==> SaltIs(root.disk, salt)
    ensures Onward(old(root.fates), root.fates) && root.access == old(root.access)
  {
    ghost var before, had := root.fates, (h.keys, h.active);
    r := MigrateAll(root, h, unwrapped, newDek, oldWrap, predicted, phrase, salt, d);
    ghost var middle, m := root.fates, root.disk;
    if r.Ok? {
      r := SealRotation(root, newDek, predicted, phrase, salt, d);
      MovesAndSeals(had, (h.keys, h.active), d, m, root.disk, newDek, r, before, middle, root.fates);
    } else if Fits(d, oldWrap, newDek) {
      MovesInPart(had, (h.keys, h.active), d, m, newDek, r, before, middle);
    }
  }

  lemma MovesAndSeals(had: Hold, hold: Hold, d: Disk, m: Disk, e: Disk, newDek: Key, r: Outcome<()>,
                      before: seq<Fate>, middle: seq<Fate>, after: seq<Fate>)
    requires d.keyring.Some? && m.keyring.Some? && hold == MovedHold(had, d.keyring.value, newDek, |d.files|, before)
    requires d.keyring.value.active + 1 in Deks(m.keyring.value.entries) && NoneAt(m.files, d.keyring.value.active)
    requires e == m.(recovery := e.recovery, journal := e.journal)
    requires Takes(|d.files| + MaterialSteps(d.stores), before, middle, true)
    requires DropsLate(r, e, 1, middle, after) && Counts(2, middle, after, r)
    ensures DropsLate(r, e, DropStep(d) - 2, before, after)
    ensures HandleMoves(had, hold, d.keyring.value, e, newDek, r, |d.files|, DropStep(d) - 1, before, after)
  {
    var n := |d.files| + MaterialSteps(d.stores);
    DropsLateAfter(n, before, middle, r, e, 1, after);
    QuitsAtEnd(|d.files|, n, 2, before, middle, after, r);
  }

  lemma MovesInPart(had: Hold, hold: Hold, d: Disk, m: Disk, newDek: Key, r: Outcome<()>, before: seq<Fate>,
                    middle: seq<Fate>)
    requires d.keyring.Some? && m.journal.Some?
    requires Takes(|d.files| + MaterialSteps(d.stores), before, middle, false)
    requires HandleMoves(had, hold, d.keyring.value, m, newDek, r, |d.files|, |d.files| + MaterialSteps(d.stores),
                         before, middle)
    ensures DropsLate(r, m, DropStep(d) - 2, before, middle)
    ensures HandleMoves(had, hold, d.keyring.value, m, newDek, r, |d.files|, DropStep(d) - 1, before, middle)
  {
    var n := |d.files| + MaterialSteps(d.stores);
    DropsNotYet(n, before, middle, r, m, 1);
    QuitsStill(|d.files|, n, 2, before, middle, r);
  }

  /** The new DEK is in the keyring and nothing has moved yet. */
  ghost predicate Migratable(e: Disk, d: Disk, unwrapped: Unwrapped, newDek: Key, predicted: nat) {
    && Journalled(d) && predicted == d.keyring.value.active + 1
    && e == d.(keyring := Some(AddActive(d.keyring.value, KekOf(d.keyring.value), newDek)))
    && unwrapped == Unwrapped(Deks(d.keyring.value.entries)[predicted := newDek], predicted)
  }

  /** Everything is under the new DEK; the bundle and the journal are left. */
  ghost predicate ReadyToSeal(d: Disk, e: Disk, newDek: Key, predicted: nat, phrase: Secret, salt: nat) {
    && Journalled(d) && e.journal == d.journal && Forward(d, e, newDek, phrase)
    && predicted == d.keyring.value.active + 1 && e.keyring.Some? && predicted in Deks(e.keyring.value.entries)
    && NoneAt(e.files, d.keyring.value.active)
    && var sealed := e.(recovery := Some(NewBundle(predicted, newDek, phrase, salt)));
    && Forward(d, sealed, newDek, phrase)
    && Forward(d, sealed.(journal := None), newDek, phrase) && Rotated(d, sealed.(journal := None), newDek, phrase)
  }

  method MigrateAll(root: Root, h: VaultHandle, unwrapped: Unwrapped, newDek: Key, oldWrap: Key, predicted: nat,
                    ghost phrase: Secret, ghost salt: nat, ghost d: Disk)
    returns (r: Outcome<()>)
    requires Migratable(root.disk, d, unwrapped, newDek, predicted) && Attached(h, d) && phrase.Phrase?
    modifies root, h
    ensures Forward(d, root.disk, newDek, phrase) && root.disk.journal == d.journal
    ensures r.Ok? ==> ReadyToSeal(d, root.disk, newDek, predicted, phrase, salt) && Coherent(h, root.disk)
    ensures Fits(d, oldWrap, newDek) ==>
              && Takes(|d.files| + MaterialSteps(d.stores), old(root.fates), root.fates, r.Ok?)
              && HandleMoves(old((h.keys, h.active)), (h.keys, h.active), d.keyring.value, root.disk, newDek, r,
                             |d.files|, |d.files| + MaterialSteps(d.stores), old(root.fates), root.fates)
    ensures !Fits(d, oldWrap, newDek) ==> !r.Ok? && (old(root.fates) == [] ==> r.Err?)
    ensures h.custody == old(h.custody) && h.identityRoot == old(h.identityRoot)
    ensures (h.keys, h.active) == old((h.keys, h.active)) || HoldsNew(h, predicted, newDek)
    ensures Onward(old(root.fates), root.fates) && root.access == old(root.access)
  {
    ReadyToMigrate(d, root.disk, unwrapped, newDek, predicted, phrase, salt);
    if root.disk.manifest != Some(h.identityRoot) {
      return Err;
    }
    ghost var e, before, had := root.disk, root.fates, (h.keys, h.active);
    r := MigrateForward(root, h, unwrapped, oldWrap, predicted - 1, WrapKey(ActiveDek(d.keyring.value)));
    MigratedAll(d, e, root.disk, had, (h.keys, h.active), unwrapped, newDek, oldWrap, predicted, phrase, salt, r,
                before, root.fates);
  }

  lemma ReadyToMigrate(d: Disk, e: Disk, unwrapped: Unwrapped, newDek: Key, predicted: nat, phrase: Secret, salt: nat)
    requires Migratable(e, d, unwrapped, newDek, predicted) && phrase.Phrase?
    ensures Forward(d, e, newDek, phrase) && e.manifest == Some(d.identity.value.plain)
    ensures NoneAt(e.files, predicted) && FilesUnderKeys(e.files, unwrapped.keys, predicted - 1, predicted)
    ensures
      var was := WrapKey(ActiveDek(d.keyring.value));
      IdentityUnder(e.identity, was) && StoresUnder(e.stores, was)
  {
    MigratedStages(d, e, newDek, phrase, salt);
  }

  lemma MigratedAll(d: Disk, a: Disk, e: Disk, had: Hold, hold: Hold, unwrapped: Unwrapped, newDek: Key, oldWrap: Key,
                    predicted: nat, phrase: Secret, salt: nat, r: Outcome<()>, before: seq<Fate>, after: seq<Fate>)
    requires Migratable(a, d, unwrapped, newDek, predicted) && phrase.Phrase?
    requires Migrates(a, e, hold, had, unwrapped.keys, predicted - 1, WrapKey(ActiveDek(d.keyring.value)),
                      Fits(d, oldWrap, newDek), r, before, after)
    ensures Forward(d, e, newDek, phrase) && e.journal == d.journal
    ensures r.Ok? ==>
              && ReadyToSeal(d, e, newDek, predicted, phrase, salt)
              && hold == (Deks(e.keyring.value.entries), e.keyring.value.active)
    ensures Fits(d, oldWrap, newDek) ==>
              HandleMoves(had, hold, d.keyring.value, e, newDek, r, |d.files|, |d.files| + MaterialSteps(d.stores),
                          before, after)
  {
    MigratedReady(d, a, e, had, hold, unwrapped, newDek, oldWrap, predicted, phrase, salt, r, before, after);
    BeginStages(d.(journal := None), newDek);
  }

  lemma MigratedReady(d: Disk, a: Disk, e: Disk, had: Hold, hold: Hold, unwrapped: Unwrapped, newDek: Key, oldWrap: Key,
                      predicted: nat, phrase: Secret, salt: nat, r: Outcome<()>, before: seq<Fate>, after: seq<Fate>)
    requires Migratable(a, d, unwrapped, newDek, predicted) && phrase.Phrase?
    requires Migrates(a, e, hold, had, unwrapped.keys, predicted - 1, WrapKey(ActiveDek(d.keyring.value)),
                      Fits(d, oldWrap, newDek), r, before, after)
    ensures Forward(d, e, newDek, phrase) && e.journal == d.journal
    ensures r.Ok? ==> ReadyToSeal(d, e, newDek, predicted, phrase, salt)
  {
    BeginStages(d.(journal := None), newDek);
    MigratedStages(d, e, newDek, phrase, salt);
    assert e.keyring.value.active == predicted;
    if r.Ok? { assert AllUnder(e, predicted); }
  }

  /** Replace the recovery bundle, then drop the journal. */
  method SealRotation(root: Root, newDek: Key, predicted: nat, phrase: Secret, salt: nat, ghost d: Disk)
    returns (r: Outcome<()>)
    requires ReadyToSeal(d, root.disk, newDek, predicted, phrase, salt)
    modifies root
    ensures root.disk == old(root.disk).(recovery := root.disk.recovery, journal := root.disk.journal)
    ensures Forward(d, root.disk, newDek, phrase) && (r.Ok? ==> Rotated(d, root.disk, newDek, phrase))
    ensures DropsLate(r, root.disk, 1, old(root.fates), root.fates)
    ensures Counts(2, old(root.fates), root.fates, r)
    ensures r.Ok? ==> SaltIs(root.disk, salt)
    ensures Onward(old(root.fates), root.fates) && root.access == old(root.access)
  {
    ghost var before := root.fates;
    CountsOne(before);
    var io := root.Commit(root.disk.(recovery := Some(NewBundle(predicted, newDek, phrase, salt))));
    ghost var middle, first := root.fates, FromIo(io);
    if io.Done? {
      CountsOne(middle);
      io := root.Commit(root.disk.(journal := None));
      CountsBoth(1, 1, before, middle, root.fates, first, FromIo(io));
    } else {
      CountsFirst(1, 1, before, middle, first, first);
    }
    r := FromIo(io);
  }

  /** What the migration keeps: everything stays under `was` or goes to `to`. */
  ghost predicate MigrationKeeps(d: Disk, e: Disk, keys: map<nat, Key>, prior: nat, was: Key, to: Key) {
    && e == d.(files := e.files, identity := e.identity, stores := e.stores) && ContentsOf(e) == ContentsOf(d)
    && FilesUnderKeys(e.files, keys, prior, prior + 1)
    && IdentityUnderEither(e.identity, was, to) && StoresUnderEither(e.stores, was, to)
  }

  /** How the migration from `d` ends: files first, then the handle, then identity and
  material. */
  ghost predicate Migrates(d: Disk, e: Disk, hold: Hold, had: Hold, keys: map<nat, Key>, prior: nat, was: Key,
                           fits: bool, r: Outcome<()>, before: seq<Fate>, after: seq<Fate>)
    requires prior + 1 in keys
  {
    var m, n, to := |d.files|, MaterialSteps(d.stores), WrapKey(keys[prior + 1]);
    && MigrationKeeps(d, e, keys, prior, was, to)
    && hold == (if Smooth(before, m) then (keys, prior + 1) else had)
    && (Smooth(before, m) ==> FilesUnder(e.files, prior + 1, keys[prior + 1]))
    && (r.Ok? ==> Smooth(before, m) && IdentityUnder(e.identity, to) && StoresUnder(e.stores, to))
    && if fits then Takes(m + n, before, after, r.Ok?) && Quits(m, m + n, before, after, r)
       else !r.Ok? && (before == [] ==> r.Err?)
  }

  method MigrateForward(root: Root, h: VaultHandle, unwrapped: Unwrapped, oldWrap: Key, ghost prior: nat,
                        ghost was: Key)
    returns (r: Outcome<()>)
    requires unwrapped.active == prior + 1 && prior + 1 in unwrapped.keys && NoneAt(root.disk.files, prior + 1)
    requires FilesUnderKeys(root.disk.files, unwrapped.keys, prior, prior + 1)
    requires IdentityUnder(root.disk.identity, was) && StoresUnder(root.disk.stores, was)
    modifies root, h
    ensures Migrates(old(root.disk), root.disk, (h.keys, h.active), old((h.keys, h.active)), unwrapped.keys, prior, was,
                     old(IdentityUnderEither(root.disk.identity, oldWrap, WrapKey(unwrapped.keys[prior + 1]))), r,
                     old(root.fates), root.fates)
    ensures h.custody == old(h.custody) && h.identityRoot == old(h.identityRoot)
    ensures Onward(old(root.fates), root.fates) && root.access == old(root.access)
  {
    ghost var d, before, had := root.disk, root.fates, (h.keys, h.active);
    ghost var fits := IdentityUnderEither(d.identity, oldWrap, WrapKey(unwrapped.keys[prior + 1]));
    r := RewrapAllFiles(root, unwrapped.keys, unwrapped.active, prior);
    ghost var m, middle := root.disk, root.fates;
    if !r.Ok? {
      StopsAtFiles(d, m, had, unwrapped.keys, prior, was, fits, r, before, middle);
      return;
    }
    h.keys, h.active := unwrapped.keys, unwrapped.active;
    r := RewrapAllMaterial(root, oldWrap, WrapKey(h.keys[h.active]));
    MovesMaterial(d, m, root.disk, had, unwrapped.keys, prior, was, oldWrap, r, before, middle, root.fates);
  }

  lemma StopsAtFiles(d: Disk, e: Disk, had: Hold, keys: map<nat, Key>, prior: nat, was: Key, fits: bool,
                     r: Outcome<()>, before: seq<Fate>, after: seq<Fate>)
    requires prior + 1 in keys && FilesKept(d, e, keys, prior)
    requires IdentityUnder(d.identity, was) && StoresUnder(d.stores, was)
    requires !r.Ok? && (before == [] ==> r.Ok?) && Takes(|d.files|, before, after, false)
    ensures Migrates(d, e, had, had, keys, prior, was, fits, r, before, after)
  {
    QuitsBefore(|d.files|, |d.files|, |d.files| + MaterialSteps(d.stores), before, after, r);
    TakesNeither(|d.files|, MaterialSteps(d.stores), before, after);
  }

  lemma MovesMaterial(d: Disk, m: Disk, e: Disk, had: Hold, keys: map<nat, Key>, prior: nat, was: Key, oldWrap: Key,
                      r: Outcome<()>, before: seq<Fate>, middle: seq<Fate>, after: seq<Fate>)
    requires prior + 1 in keys && FilesKept(d, m, keys, prior) && FilesUnder(m.files, prior + 1, keys[prior + 1])
    requires IdentityUnder(d.identity, was) && StoresUnder(d.stores, was) && Takes(|d.files|, before, middle, true)
    requires
      var to := WrapKey(keys[prior + 1]);
      if IdentityUnderEither(m.identity, oldWrap, to) then
        && MaterialKept(m, e, oldWrap, to) && Counts(MaterialSteps(m.stores), middle, after, r)
        && (r.Ok? ==> IdentityUnder(e.identity, to) && StoresUnder(e.stores, to))
      else r.Err? && e == m
    ensures Migrates(d, e, (keys, prior + 1), had, keys, prior, was,
                     IdentityUnderEither(d.identity, oldWrap, WrapKey(keys[prior + 1])), r, before, after)
  {
    if IdentityUnderEither(m.identity, oldWrap, WrapKey(keys[prior + 1])) {
      QuitsAtEnd(|d.files|, |d.files|, MaterialSteps(d.stores), before, middle, after, r);
      MaterialMoves(d, m, e, keys, prior, was, oldWrap);
    }
  }

  lemma MaterialMoves(d: Disk, m: Disk, e: Disk, keys: map<nat, Key>, prior: nat, was: Key, oldWrap: Key)
    requires prior + 1 in keys && FilesKept(d, m, keys, prior)
    requires IdentityUnder(d.identity, was) && StoresUnder(d.stores, was)
    requires IdentityUnderEither(m.identity, oldWrap, WrapKey(keys[prior + 1]))
    requires MaterialKept(m, e, oldWrap, WrapKey(keys[prior + 1]))
    ensures MigrationKeeps(d, e, keys, prior, was, WrapKey(keys[prior + 1]))
  {
  }

  // ---- the facade operation -----------------------------------------------------------

  /** The KEK that `rotate_key` will use is the one the keyring is wrapped
  under. Keychain custody checks this, passphrase custody does not. */
  ghost predicate RightKek(d: Disk, custody: Custody, passphrase: Option<string>)
    requires d.keyring.Some? && KeyringOk(d.keyring.value)
  {
    custody.Passphrase? && PassphraseKek(d, passphrase).Some? ==>
      PassphraseKek(d, passphrase) == Some(KekOf(d.keyring.value))
  }

  /** What a rotation started in `d` may leave. */
  ghost predicate AllOrNothing(d: Disk, e: Disk, newDek: Key, phrase: Secret)
    requires d.keyring.Some? && KeyringOk(d.keyring.value) && d.recovery.Some?
  {
    var prior := d.keyring.value.active;
    && SameOpeners(d, e)
    && (|| SameButScoped(d, e)
        || (d.journal.None? && Rotated(d, e, newDek, phrase))
        || (&& d.journal.None? && RolledBack(e, prior, d.recovery.value)
            && Deks(e.keyring.value.entries) == Deks(d.keyring.value.entries))
        || (&& d.journal.None? && e.journal == Some(Rotate(prior, prior + 1, d.recovery.value))
            && Rotating(e, prior, d.recovery.value) && KeptDeks(e, prior) == Deks(d.keyring.value.entries)))
  }

  /** A rollback without a journal that stopped on its way: the old DEK is active
  and the new one is still there. */
  ghost predicate Unfinished(d: Disk, e: Disk)
    requires d.keyring.Some? && KeyringOk(d.keyring.value) && d.recovery.Some?
  {
    var prior := d.keyring.value.active;
    && SameOpeners(d, e) && e.journal.None? && Rotating(e, prior, d.recovery.value)
    && e.keyring.value.active == prior && prior + 1 in Deks(e.keyring.value.entries)
    && KeptDeks(e, prior) == Deks(d.keyring.value.entries)
  }

  /** Unfinished, with the old bundle in place only once everything else is under
  the old DEK. No unlock resumes such a rollback. */
  ghost predicate Stranded(d: Disk, e: Disk)
    requires d.keyring.Some? && KeyringOk(d.keyring.value) && d.recovery.Some?
  {
    Unfinished(d, e) && (e.recovery == d.recovery ==> AllUnder(e, d.keyring.value.active))
  }

  /** Stopped right after the first write: identity and bundle are still those of
  the new DEK. */
  ghost predicate StrandedAtOnce(d: Disk, e: Disk, newDek: Key)
    requires d.keyring.Some? && KeyringOk(d.keyring.value) && d.recovery.Some?
  {
    && Stranded(d, e)
    && IdentityUnder(e.identity, WrapKey(newDek)) && BundleFor(e.recovery, d.keyring.value.active + 1, newDek)
  }

  /** What a rotation may leave whose journal was dropped by a step that reported
  an error: finished after all, undone, or stranded. */
  ghost predicate DroppedEnd(d: Disk, e: Disk, newDek: Key, phrase: Secret)
    requires d.keyring.Some? && KeyringOk(d.keyring.value) && d.recovery.Some?
  {
    AllOrNothing(d, e, newDek, phrase) || Unfinished(d, e)
  }

  /** Being stranded is neither end of a rotation, and outside the invariant. */
  lemma StrandedIsNeither(d: Disk, e: Disk, newDek: Key, phrase: Secret)
    requires Settled(d) && d.journal.None? && Stranded(d, e)
    ensures !AllOrNothing(d, e, newDek, phrase) && !Settled(e) && !Inv(e)
  {
  }

  /** Stranded at once, neither normal custody nor the recovery phrase opens the
  vault. */
  lemma StrandedAtOnceIsLost(d: Disk, e: Disk, newDek: Key)
    requires Settled(d) && d.journal.None? && StrandedAtOnce(d, e, newDek) && newDek != ActiveDek(d.keyring.value)
    ensures LoadIdentity(e, ActiveDek(e.keyring.value)).None?
    ensures e.recovery.value.version != Some(e.keyring.value.active)
  {
  }

  lemma NoKeyNoInvariant(d: Disk)
    requires LockedOut(d)
    ensures !Inv(d)
  {
    if Inv(d) { LoadOpens(d.keyring.value, KekOf(d.keyring.value)); }
  }

  lemma InvAfterRotation(d: Disk, e: Disk, newDek: Key, phrase: Secret)
    requires Inv(d) && d.keyring.Some? && KeyringOk(d.keyring.value) && d.recovery.Some?
    requires d.journal.Some? ==> !d.journal.value.Bootstrap?
    requires AllOrNothing(d, e, newDek, phrase)
    ensures Inv(e)
  {
  }

  /** The transaction alone, or followed by a rollback, keeps the promise, unless
  the rollback had no journal. */
  lemma TransactionOutcome(d: Disk, m: Disk, e: Disk, newDek: Key, phrase: Secret)
    requires Settled(d) && d.journal.None?
    requires Forward(WithJournal(d), m, newDek, phrase)
    requires
      || e == m
      || (&& Rotating(m, d.keyring.value.active, d.recovery.value)
          && Toward(m, e, d.keyring.value.active, d.recovery.value) && Returning(m, e, d.keyring.value.active))
    ensures ContentsOf(e) == ContentsOf(d) && SameOpeners(d, e)
    ensures KeptDeks(e, d.keyring.value.active) == Deks(d.keyring.value.entries)
    ensures DroppedEnd(d, e, newDek, phrase)
    ensures m.journal.Some? || e == m ==> AllOrNothing(d, e, newDek, phrase)
  {
    if e != m { RollbackOutcome(d, m, e, newDek, phrase); }
  }

  lemma RollbackOutcome(d: Disk, m: Disk, e: Disk, newDek: Key, phrase: Secret)
    requires Settled(d) && d.journal.None? && ContentsOf(m) == ContentsOf(d) && SameOpeners(d, m)
    requires m.journal.Some? ==>
               m.journal == Some(Rotate(d.keyring.value.active, d.keyring.value.active + 1, d.recovery.value))
    requires Rotating(m, d.keyring.value.active, d.recovery.value)
    requires KeptDeks(m, d.keyring.value.active) == Deks(d.keyring.value.entries)
    requires Toward(m, e, d.keyring.value.active, d.recovery.value) && Returning(m, e, d.keyring.value.active) && e != m
    ensures ContentsOf(e) == ContentsOf(d) && SameOpeners(d, e)
    ensures KeptDeks(e, d.keyring.value.active) == Deks(d.keyring.value.entries)
    ensures DroppedEnd(d, e, newDek, phrase)
    ensures m.journal.Some? ==> AllOrNothing(d, e, newDek, phrase)
  {
    var prior := d.keyring.value.active;
    assert SameOpeners(d, e) && KeptDeks(e, prior) == Deks(d.keyring.value.entries);
    if RolledBack(e, prior, d.recovery.value) {
      assert Deks(e.keyring.value.entries) == KeptDeks(e, prior);
      assert AllOrNothing(d, e, newDek, phrase);
    } else if prior + 1 !in Deks(e.keyring.value.entries) {
      NothingNewYet(e, prior, d.recovery.value);
    }
  }

  /** A finished rotation that is rolled back without a journal. */
  lemma LateRollback(d: Disk, m: Disk, newDek: Key, phrase: Secret)
    requires Settled(d) && d.journal.None? && m.journal.None? && Rotated(d, m, newDek, phrase)
    ensures Rotating(m, d.keyring.value.active, d.recovery.value)
    ensures SameOpeners(d, m) ==> StrandedAtOnce(d, Reactivated(m, d.keyring.value.active), newDek)
  {
    RotatingSetActive(m, d.keyring.value.active, d.recovery.value);
  }

  lemma SameSteps(d: Disk, m: Disk)
    requires ContentsOf(m) == ContentsOf(d)
    ensures UndoSteps(m) == UndoSteps(d)
  {
    assert m.files.Keys == PlainFiles(m.files).Keys == PlainFiles(d.files).Keys == d.files.Keys;
    assert |m.files| == |m.files.Keys| && |d.files| == |d.files.Keys|;
    SameLength(m.stores.transit, d.stores.transit);
    SameLength(m.stores.signing, d.stores.signing);
    SameLength(m.stores.brokers, d.stores.brokers);
  }

  lemma SameLength(a: seq<Material>, b: seq<Material>)
    requires PlainStore(a) == PlainStore(b)
    ensures |a| == |b|
  {
    assert |PlainStore(a)| == |a| && |PlainStore(b)| == |b|;
  }

  /** How far the rollback of a finished rotation came decides where it ends. */
  lemma UndoneExactly(d: Disk, m: Disk, e: Disk, newDek: Key, phrase: Secret, undone: Outcome<()>, fates: seq<Fate>)
    requires Settled(d) && d.journal.None? && m.journal.None? && Rotated(d, m, newDek, phrase) && SameOpeners(d, m)
    requires Rotating(m, d.keyring.value.active, d.recovery.value) && ContentsOf(m) == ContentsOf(d)
    requires Toward(m, e, d.keyring.value.active, d.recovery.value) && DroppedEnd(d, e, newDek, phrase)
    requires UndoneUpTo(m, e, d.keyring.value.active, d.recovery.value, undone, fates)
    ensures CutShort(fates, UndoSteps(d)) ==>
              Stranded(d, e) && (e.recovery == d.recovery <==> Reaches(fates, UndoSteps(d) - 1))
    ensures !CutShort(fates, UndoSteps(d)) ==> AllOrNothing(d, e, newDek, phrase)
  {
    SameSteps(d, m);
    if !CutShort(fates, UndoSteps(d)) && TakesEffect(NextFate(fates)) {
      assert !Unfinished(d, e);
    }
  }

  ghost predicate KeychainOpens(root: Root)
    requires root.disk.keyring.Some?
    reads root
  {
    && KeyringOk(root.disk.keyring.value) && root.access.Readable?
    && Held(root.disk.scoped, root.disk.legacy, KekOf(root.disk.keyring.value))
  }

  /** Unless a step fails, a rotation gets as far as its journal. */
  ghost predicate Startable(d: Disk, custody: Custody, passphrase: Option<string>, access: Access) {
    && d.keyring.Some? && KeyringOk(d.keyring.value) && d.journal.None? && d.keyring.value.active + 1 < U32_MODULUS
    && match custody {
         case Passphrase => PassphraseKek(d, passphrase).Some?
         case OsKeychain => access.Readable? && Held(d.scoped, d.legacy, KekOf(d.keyring.value))
         case Recovery => false
       }
  }

  /** Reading the KEK copies a legacy credential when only that one serves. */
  ghost function CopySteps(d: Disk, custody: Custody): nat
    requires d.keyring.Some? && KeyringOk(d.keyring.value)
  {
    if custody.OsKeychain? && d.scoped != Some(Encoded(KekOf(d.keyring.value))) then 1 else 0
  }

  /** The KEK for a rotation: read from the keychain and tried on the keyring, or
  derived from the passphrase and not tried. */
  method CustodyKek(root: Root, custody: Custody, passphrase: Option<string>) returns (r: Outcome<Key>)
    requires root.disk.keyring.Some?
    modifies root
    ensures root.disk == old(root.disk).(scoped := root.disk.scoped)
    ensures
      || root.disk.scoped == old(root.disk.scoped)
      || (root.disk.scoped.Some? && root.disk.scoped == root.disk.legacy)
    ensures KeyringOk(root.disk.keyring.value) ==> SameButScoped(old(root.disk), root.disk)
    ensures r.Ok? ==>
              match custody
              case OsKeychain =>
                && Load(root.disk.keyring.value, r.value).Some? && root.access.Readable?
                && Held(old(root.disk.scoped), root.disk.legacy, r.value)
              case Passphrase => Some(r.value) == PassphraseKek(root.disk, passphrase)
              case Recovery => false
    ensures r.Ok? && custody.OsKeychain? && KeyringOk(root.disk.keyring.value) ==>
              r.value == KekOf(root.disk.keyring.value)
    ensures (forall kek :: Load(root.disk.keyring.value, kek).None?) ==>
              root.disk == old(root.disk) && (custody.OsKeychain? ==> r.Err?)
    ensures custody.Passphrase? ==>
              && root.disk == old(root.disk) && root.fates == old(root.fates)
              && r == match PassphraseKek(root.disk, passphrase) case Some(kek) => Ok(kek) case None => Err
    ensures (&& KeyringOk(root.disk.keyring.value) && custody.OsKeychain?
             && old(!Held(root.disk.scoped, root.disk.legacy, KekOf(root.disk.keyring.value)))) ==>
              r.Err? && root.disk == old(root.disk)
    ensures (&& KeyringOk(root.disk.keyring.value) && custody.OsKeychain?
             && old(root.fates == [] && KeychainOpens(root))) ==>
              r.Ok?
    ensures custody.Recovery? || (custody.OsKeychain? && !root.access.Readable?) ==>
              r.Err? && root.disk == old(root.disk)
    ensures KeyringOk(root.disk.keyring.value) && old(Startable(root.disk, custody, passphrase, root.access)) ==>
              Takes(CopySteps(old(root.disk), custody), old(root.fates), root.fates, r.Ok?)
    ensures Onward(old(root.fates), root.fates) && root.access == old(root.access)
  {
    match custody
    case OsKeychain =>
      var loaded := LoadKeychainUnwrapped(root);
      r := match loaded
      case Ok(found) => Ok(found.0)
      case Err => Err
      case Stopped => Stopped;
    case Passphrase =>
      var derived := PassphraseKek(root.disk, passphrase);
      r := if derived.Some? then Ok(derived.value) else Err;
    case Recovery =>
      r := Err;
  }

  /** The KEK a rotation works with. */
  ghost function KekUsed(d: Disk, custody: Custody, passphrase: Option<string>): Key
    requires d.keyring.Some? && KeyringOk(d.keyring.value)
  {
    if custody.Passphrase? && PassphraseKek(d, passphrase).Some? then PassphraseKek(d, passphrase).value
    else KekOf(d.keyring.value)
  }

  /** A rotation that cannot start leaves the vault alone; one that can ends as
  `RotationEnds` says, and a handle that matched the vault as `HandleEnds` says. */
  method RotateKey(root: Root, h: VaultHandle, passphrase: Option<string>, newDek: Key, phrase: Secret, salt: nat)
    returns (r: Outcome<Secret>)
    requires Serving(root.disk) && Attached(h, root.disk) && phrase.Phrase?
    modifies root, h
    ensures ContentsOf(root.disk) == old(ContentsOf(root.disk))
    ensures old(Stuck(root.disk)) ==> r.Err? && root.disk == old(root.disk) && unchanged(h)
    ensures !old(Startable(root.disk, h.custody, passphrase, root.access)) ==>
              && !r.Ok? && unchanged(h)
              && (KeyringOk(old(root.disk).keyring.value) ==> SameButScoped(old(root.disk), root.disk))
    ensures old(Startable(root.disk, h.custody, passphrase, root.access)) ==>
              && RotationEnds(old(root.disk), root.disk, r, old(KekUsed(root.disk, h.custody, passphrase)), newDek,
                              phrase, old(Fits(root.disk, WrapKey(h.keys[h.active]), newDek)),
                              old(CopySteps(root.disk, h.custody) + DropStep(root.disk)), old(root.fates))
              && (old(Coherent(h, root.disk)) ==>
                    HandleEnds((h.keys, h.active), old(root.disk), root.disk, r,
                               old(KekUsed(root.disk, h.custody, passphrase)),
                               old(CopySteps(root.disk, h.custody) + DropStep(root.disk)), old(root.fates)))
    ensures r.Ok? ==> r.value == phrase && Rotated(old(root.disk), root.disk, newDek, phrase) && Coherent(h, root.disk)
    ensures old(&& Startable(root.disk, h.custody, passphrase, root.access)
                && RightKek(root.disk, h.custody, passphrase)
                && StallsAt(root.disk, CopySteps(root.disk, h.custody) + DropStep(root.disk), root.fates)) ==>
              && r.Err? && HalfAdded(old(root.disk), root.disk, newDek)
              && h.keys == old(h.keys) && h.active == old(h.active)
    ensures Attached(h, root.disk)
    ensures h.custody == old(h.custody) && h.identityRoot == old(h.identityRoot)
    ensures r.Ok? ==> SaltIs(root.disk, salt)
    ensures Onward(old(root.fates), root.fates) && root.access == old(root.access)
  {
    ghost var d, before := root.disk, root.fates;
    ghost var startable, wrap := Startable(d, h.custody, passphrase, root.access), WrapKey(h.keys[h.active]);
    ghost var fits, coherent := Fits(d, wrap, newDek), Coherent(h, d);
    var kek := RotationKek(root, h.custody, passphrase);
    ghost var copied, middle, k := root.disk, root.fates, CopyStepsOf(d, h.custody);
    if !kek.Ok? {
      r := if kek.Err? then Err else Stopped;
      if startable {
        EndsBeforeJournal(d, copied, r, newDek, phrase, fits, k, before, middle);
        LateErrorLater(before, k, 1);
        if coherent { StaysMoored((h.keys, h.active), d, copied, r, k, before, middle); }
      }
      return;
    }
    if root.disk.journal.Some? || root.disk.recovery.None? {
      return Err;
    }
    assert copied == d.(scoped := copied.scoped);
    assert Fits(copied, wrap, newDek) == fits && DropStep(copied) == DropStep(d);
    r := RotateWithKek(root, h, kek.value, newDek, phrase, salt);
    if startable {
      CopiedEnds(d, copied, root.disk, r, kek.value, newDek, phrase, fits, DropStep(d), middle);
      EndsLater(d, root.disk, r, kek.value, newDek, phrase, fits, k, DropStep(d), before, middle);
      StallsLater(d, k, DropStep(d), before, middle);
      if coherent { HandleEndsLater((h.keys, h.active), d, root.disk, r, kek.value, k, DropStep(d), before, middle); }
    } else {
      assert copied.keyring.value.active + 1 >= U32_MODULUS;
      assert root.disk == copied;
    }
  }

  /** The KEK for a rotation of a vault that a handle is open on. */
  method RotationKek(root: Root, custody: Custody, passphrase: Option<string>) returns (r: Outcome<Key>)
    requires Serving(root.disk)
    modifies root
    ensures root.disk == old(root.disk).(scoped := root.disk.scoped)
    ensures KeyringOk(root.disk.keyring.value) ==> SameButScoped(old(root.disk), root.disk)
    ensures old(Stuck(root.disk)) ==> root.disk == old(root.disk) && !r.Stopped?
    ensures old(Startable(root.disk, custody, passphrase, root.access)) ==>
              && Takes(CopySteps(old(root.disk), custody), old(root.fates), root.fates, r.Ok?)
              && (r.Ok? ==> r.value == old(KekUsed(root.disk, custody, passphrase)))
              && (!r.Ok? ==> old(KekUsed(root.disk, custody, passphrase) == KekOf(root.disk.keyring.value)))
    ensures !old(Startable(root.disk, custody, passphrase, root.access)) && r.Ok? ==>
              root.disk.journal.Some? || root.disk.keyring.value.active + 1 >= U32_MODULUS
    ensures Onward(old(root.fates), root.fates) && root.access == old(root.access)
  {
    r := CustodyKek(root, custody, passphrase);
  }

  ghost function CopyStepsOf(d: Disk, custody: Custody): nat
    requires d.keyring.Some?
  {
    if KeyringOk(d.keyring.value) then CopySteps(d, custody) else 0
  }

  lemma EndsBeforeJournal(d: Disk, e: Disk, r: Outcome<Secret>, newDek: Key, phrase: Secret, fits: bool, n: nat,
                          before: seq<Fate>, middle: seq<Fate>)
    requires d.keyring.Some? && KeyringOk(d.keyring.value) && d.recovery.Some?
    requires !r.Ok? && SameButScoped(d, e) && Takes(n, before, middle, false)
    ensures RotationEnds(d, e, r, KekOf(d.keyring.value), newDek, phrase, fits, n + DropStep(d), before)
  {
    LateErrorLater(before, n, DropStep(d));
  }

  lemma EndsLater(d: Disk, e: Disk, r: Outcome<Secret>, kek: Key, newDek: Key, phrase: Secret, fits: bool,
                  m: nat, n: nat, before: seq<Fate>, middle: seq<Fate>)
    requires d.keyring.Some? && KeyringOk(d.keyring.value) && d.recovery.Some?
    requires Takes(m, before, middle, true) && RotationEnds(d, e, r, kek, newDek, phrase, fits, n, middle)
    requires n + 1 >= DropStep(d)
    ensures RotationEnds(d, e, r, kek, newDek, phrase, fits, m + n, before)
  {
    if kek == KekOf(d.keyring.value) {
      StrandsLater(d, m, n, before, middle);
    } else {
      ReachesLater(m, n + 2 - DropStep(d), before, middle, true);
    }
  }

  lemma StrandsLater(d: Disk, m: nat, n: nat, before: seq<Fate>, middle: seq<Fate>)
    requires Takes(m, before, middle, true)
    ensures StrandsAt(d, m + n, before) <==> StrandsAt(d, n, middle)
    ensures LateErrorAt(before, m + n) <==> LateErrorAt(middle, n)
    ensures After(before, m + n + 1) == After(middle, n + 1)
  {
    LateErrorLater(before, m, n);
    SmoothAdds(before, m, n + 1);
  }

  lemma CopiedEnds(d: Disk, c: Disk, e: Disk, r: Outcome<Secret>, kek: Key, newDek: Key, phrase: Secret, fits: bool,
                   n: nat, fates: seq<Fate>)
    requires Settled(d) && d.journal.None? && SameButScoped(d, c)
    requires RotationEnds(c, e, r, kek, newDek, phrase, fits, n, fates)
    ensures RotationEnds(d, e, r, kek, newDek, phrase, fits, n, fates)
  {
    if AllOrNothing(c, e, newDek, phrase) { EndsAlike(d, c, e, newDek, phrase); }
    if kek == KekOf(d.keyring.value) && fits { CopiedRightEnds(d, c, e, r, newDek, phrase, n, fates); }
  }

  lemma CopiedRightEnds(d: Disk, c: Disk, e: Disk, r: Outcome<Secret>, newDek: Key, phrase: Secret, n: nat,
                        fates: seq<Fate>)
    requires Settled(d) && d.journal.None? && SameButScoped(d, c) && RightEnds(c, e, r, newDek, phrase, n, fates)
    ensures RightEnds(d, e, r, newDek, phrase, n, fates)
  {
    assert UndoSteps(c) == UndoSteps(d);
    if AllOrNothing(c, e, newDek, phrase) { EndsAlike(d, c, e, newDek, phrase); }
    if Stranded(c, e) { StrandedAlike(d, c, e, newDek); }
  }

  lemma StrandedAlike(d: Disk, c: Disk, e: Disk, newDek: Key)
    requires Settled(d) && d.journal.None? && SameButScoped(d, c) && Stranded(c, e)
    ensures Stranded(d, e) && (StrandedAtOnce(c, e, newDek) ==> StrandedAtOnce(d, e, newDek))
  {
  }

  /** The write of the keyring takes effect and reports an error, and so does, without
  effect, the first step of the rollback. */
  ghost predicate StallsAt(d: Disk, n: nat, fates: seq<Fate>) {
    && n + 1 >= DropStep(d)
    && var k := n + 1 - DropStep(d);
    LateErrorAt(fates, k) && NextFate(After(fates, k + 1)) == Fail(false)
  }

  /** A rotation of `d` is journalled, its DEK is in the keyring and active, and nothing
  else has been done. */
  ghost predicate HalfAdded(d: Disk, e: Disk, newDek: Key)
    requires d.keyring.Some? && KeyringOk(d.keyring.value) && d.recovery.Some?
  {
    var kr := d.keyring.value;
    e == d.(journal := Some(Rotate(kr.active, kr.active + 1, d.recovery.value)),
            keyring := Some(AddActive(kr, KekOf(kr), newDek)), scoped := e.scoped)
  }

  lemma StallsLater(d: Disk, m: nat, n: nat, before: seq<Fate>, middle: seq<Fate>)
    requires Takes(m, before, middle, true) && n + 1 >= DropStep(d)
    ensures StallsAt(d, m + n, before) <==> StallsAt(d, n, middle)
  {
    var k := n + 1 - DropStep(d);
    LateErrorLater(before, m, k);
    SmoothAdds(before, m, k + 1);
  }

  // ---- the handle afterwards -----------------------------------------------------------

  /** A rotation reports an error after every file has moved, and the rollback that
  follows removes the new DEK and reports an error too. `n` is the place of the
  step that drops the journal. */
  ghost predicate LosesDek(d: Disk, n: nat, fates: seq<Fate>) {
    MaterialSteps(d.stores) < n && Collapses(fates, n - 1 - MaterialSteps(d.stores), n + 1, UndoSteps(d))
  }

  /** A handle that matched the vault is left with a DEK that is no longer in the
  keyring if and only if the KEK was right and `LosesDek`; otherwise the keyring has
  its DEK. */
  ghost predicate HandleEnds(hold: Hold, d: Disk, e: Disk, r: Outcome<Secret>, kek: Key, n: nat, fates: seq<Fate>)
    requires d.keyring.Some? && KeyringOk(d.keyring.value)
  {
    && e.keyring.Some?
    && (r.Err? && hold.1 !in Deks(e.keyring.value.entries) <==>
          kek == KekOf(d.keyring.value) && LosesDek(d, n, fates))
    && (r.Err? && hold.1 in Deks(e.keyring.value.entries) ==> Moored(hold, e))
  }

  lemma LosesLater(d: Disk, m: nat, n: nat, before: seq<Fate>, middle: seq<Fate>)
    requires Takes(m, before, middle, true) && n + 1 >= DropStep(d)
    ensures LosesDek(d, m + n, before) <==> LosesDek(d, n, middle)
  {
    CollapsesLater(m, n - 1 - MaterialSteps(d.stores), n + 1, UndoSteps(d), before, middle);
  }

  lemma LosesNothing(d: Disk, m: nat, n: nat, before: seq<Fate>, middle: seq<Fate>)
    requires Takes(m, before, middle, false) && n >= DropStep(d)
    ensures !LosesDek(d, m + n, before)
  {
    LeadIsSmooth(before, m);
  }

  lemma HandleEndsLater(hold: Hold, d: Disk, e: Disk, r: Outcome<Secret>, kek: Key, m: nat, n: nat,
                        before: seq<Fate>, middle: seq<Fate>)
    requires d.keyring.Some? && KeyringOk(d.keyring.value)
    requires Takes(m, before, middle, true) && n + 1 >= DropStep(d) && HandleEnds(hold, d, e, r, kek, n, middle)
    ensures HandleEnds(hold, d, e, r, kek, m + n, before)
  {
    LosesLater(d, m, n, before, middle);
  }

  lemma StaysMoored(hold: Hold, d: Disk, e: Disk, r: Outcome<Secret>, m: nat, before: seq<Fate>, middle: seq<Fate>)
    requires d.keyring.Some? && KeyringOk(d.keyring.value) && e.keyring == d.keyring
    requires hold.1 == d.keyring.value.active && hold.1 in hold.0 && hold.0[hold.1] == ActiveDek(d.keyring.value)
    requires Takes(m, before, middle, false)
    ensures HandleEnds(hold, d, e, r, KekOf(d.keyring.value), m + DropStep(d), before)
  {
    LosesNothing(d, m, DropStep(d), before, middle);
  }

  lemma EndsAlike(d: Disk, c: Disk, e: Disk, newDek: Key, phrase: Secret)
    requires Settled(d) && d.journal.None? && SameButScoped(d, c) && AllOrNothing(c, e, newDek, phrase)
    ensures AllOrNothing(d, e, newDek, phrase)
  {
  }

  method RotateWithKek(root: Root, h: VaultHandle, kek: Key, newDek: Key, phrase: Secret, salt: nat)
    returns (r: Outcome<Secret>)
    requires root.disk.journal.None? && Settled(root.disk) && Attached(h, root.disk) && phrase.Phrase?
    modifies root, h
    ensures ContentsOf(root.disk) == old(ContentsOf(root.disk)) && Attached(h, root.disk)
    ensures old(root.disk.keyring.value.active) + 1 >= U32_MODULUS ==>
              r.Err? && root.disk == old(root.disk) && unchanged(h)
    ensures old(root.disk.keyring.value.active) + 1 < U32_MODULUS ==>
              && RotationEnds(old(root.disk), root.disk, r, kek, newDek, phrase,
                              old(Fits(root.disk, WrapKey(h.keys[h.active]), newDek)), DropStep(old(root.disk)),
                              old(root.fates))
              && (old(Coherent(h, root.disk)) ==>
                    HandleEnds((h.keys, h.active), old(root.disk), root.disk, r, kek, DropStep(old(root.disk)),
                               old(root.fates)))
    ensures r.Ok? ==> r.value == phrase && Coherent(h, root.disk)
    ensures (&& kek == old(KekOf(root.disk.keyring.value)) && old(root.disk.keyring.value.active) + 1 < U32_MODULUS
             && StallsAt(old(root.disk), DropStep(old(root.disk)), old(root.fates))) ==>
              && r.Err? && HalfAdded(old(root.disk), root.disk, newDek)
              && h.keys == old(h.keys) && h.active == old(h.active)
    ensures h.custody == old(h.custody) && h.identityRoot == old(h.identityRoot)
    ensures r.Ok? ==> SaltIs(root.disk, salt)
    ensures Onward(old(root.fates), root.fates) && root.access == old(root.access)
  {
    ghost var d, before, coherent := root.disk, root.fates, Coherent(h, root.disk);
    var oldWrap := WrapKey(h.keys[h.active]);
    ghost var fits := Fits(d, oldWrap, newDek);
    var prior, backup := root.disk.keyring.value.active, root.disk.recovery.value;
    var predicted := prior + 1;
    if predicted >= U32_MODULUS {
      return Err;
    }
    var io := root.Commit(root.disk.(journal := Some(Rotate(prior, predicted, backup))));
    ghost var middle := root.fates;
    if !io.Done? {
      r := if io.Failed? then Err else Stopped;
      EndsAtJournal(d, root.disk, r, kek, newDek, phrase, fits, before, middle);
      if coherent { MooredAtJournal((h.keys, h.active), d, root.disk, r, kek, before, middle); }
      return;
    }
    r := RotateJournalled(root, h, kek, newDek, oldWrap, phrase, salt, d);
    AllLater((h.keys, h.active), d, root.disk, r, kek, newDek, phrase, fits, coherent, before, middle);
  }

  lemma AllLater(hold: Hold, d: Disk, e: Disk, r: Outcome<Secret>, kek: Key, newDek: Key, phrase: Secret, fits: bool,
                 coherent: bool, before: seq<Fate>, middle: seq<Fate>)
    requires d.keyring.Some? && KeyringOk(d.keyring.value) && d.recovery.Some? && Takes(1, before, middle, true)
    requires RotationEnds(d, e, r, kek, newDek, phrase, fits, DropStep(d) - 1, middle)
    requires coherent ==> HandleEnds(hold, d, e, r, kek, DropStep(d) - 1, middle)
    ensures RotationEnds(d, e, r, kek, newDek, phrase, fits, DropStep(d), before)
    ensures coherent ==> HandleEnds(hold, d, e, r, kek, DropStep(d), before)
    ensures StallsAt(d, DropStep(d), before) <==> StallsAt(d, DropStep(d) - 1, middle)
  {
    EndsLater(d, e, r, kek, newDek, phrase, fits, 1, DropStep(d) - 1, before, middle);
    StallsLater(d, 1, DropStep(d) - 1, before, middle);
    if coherent { HandleEndsLater(hold, d, e, r, kek, 1, DropStep(d) - 1, before, middle); }
  }

  lemma MooredAtJournal(hold: Hold, d: Disk, e: Disk, r: Outcome<Secret>, kek: Key, before: seq<Fate>,
                        middle: seq<Fate>)
    requires d.keyring.Some? && KeyringOk(d.keyring.value) && e.keyring == d.keyring
    requires hold.1 == d.keyring.value.active && hold.1 in hold.0 && hold.0[hold.1] == ActiveDek(d.keyring.value)
    requires Takes(1, before, middle, false)
    ensures HandleEnds(hold, d, e, r, kek, DropStep(d), before)
  {
    LeadIsSmooth(before, 1);
  }

  lemma JournalReady(d: Disk)
    requires Settled(d) && d.journal.None? && d.keyring.value.active + 1 < U32_MODULUS
    ensures Journalled(WithJournal(d)) && ContentsOf(WithJournal(d)) == ContentsOf(d)
  {
    assert WithJournal(d).(journal := None) == d;
  }

  lemma EndsAtJournal(d: Disk, e: Disk, r: Outcome<Secret>, kek: Key, newDek: Key, phrase: Secret, fits: bool,
                      before: seq<Fate>, middle: seq<Fate>)
    requires Settled(d) && d.journal.None? && d.keyring.value.active + 1 < U32_MODULUS
    requires e == d || e == WithJournal(d)
    requires !r.Ok? && Takes(1, before, middle, false)
    ensures RotationEnds(d, e, r, kek, newDek, phrase, fits, DropStep(d), before)
  {
    JournalOnly(d, newDek, phrase);
    LateErrorLater(before, 1, DropStep(d) - 1);
  }

  lemma JournalOnly(d: Disk, newDek: Key, phrase: Secret)
    requires Settled(d) && d.journal.None? && d.keyring.value.active + 1 < U32_MODULUS
    ensures AllOrNothing(d, d, newDek, phrase) && AllOrNothing(d, WithJournal(d), newDek, phrase)
  {
    BeginStages(d, newDek);
  }

  /** The step that drops the journal of a rotation of `d` comes after `n` others.
  It reports an error although it takes effect, and the rollback that follows
  begins and is cut short before it has removed the new DEK. */
  ghost predicate StrandsAt(d: Disk, n: nat, fates: seq<Fate>) {
    LateErrorAt(fates, n) && CutShort(After(fates, n + 1), UndoSteps(d))
  }

  /** A rotation under a wrong KEK gets as far as its second step, which puts the new
  DEK into the keyring. */
  ghost predicate LocksAt(d: Disk, n: nat, fates: seq<Fate>) {
    n + 1 >= DropStep(d) && Reaches(fates, n + 2 - DropStep(d))
  }

  /** `StrandsAt` of a rotation that has yet to read its KEK. */
  ghost predicate WillStrand(d: Disk, custody: Custody, passphrase: Option<string>, access: Access, fates: seq<Fate>) {
    && Startable(d, custody, passphrase, access) && RightKek(d, custody, passphrase)
    && StrandsAt(d, CopySteps(d, custody) + DropStep(d), fates)
  }

  /** With the right KEK a rotation is all or nothing if and only if it is not
  stranded in that way. */
  lemma AllOrNothingExactly(d: Disk, e: Disk, r: Outcome<Secret>, newDek: Key, phrase: Secret, n: nat, fates: seq<Fate>)
    requires Settled(d) && d.journal.None?
    requires RotationEnds(d, e, r, KekOf(d.keyring.value), newDek, phrase, true, n, fates)
    ensures AllOrNothing(d, e, newDek, phrase) <==> !StrandsAt(d, n, fates)
  {
    if StrandsAt(d, n, fates) { StrandedIsNeither(d, e, newDek, phrase); }
  }

  /** How a rotation of `d` under `kek` ends when the step that drops its journal
  comes after `n` others. If the handle's wrapping key does not fit, identity and
  material never move and the rotation is undone. */
  ghost predicate RotationEnds(d: Disk, e: Disk, r: Outcome<Secret>, kek: Key, newDek: Key, phrase: Secret, fits: bool,
                               n: nat, fates: seq<Fate>)
    requires d.keyring.Some? && KeyringOk(d.keyring.value) && d.recovery.Some?
  {
    var right := kek == KekOf(d.keyring.value);
    || (!right && WrongEnds(d, e, r, newDek, phrase, n, fates))
    || (right && fits && RightEnds(d, e, r, newDek, phrase, n, fates))
    || (right && !fits && !r.Ok? && AllOrNothing(d, e, newDek, phrase)
        && (fates == [] ==> r.Err? && RolledBack(e, d.keyring.value.active, d.recovery.value)))
  }

  ghost predicate RightEnds(d: Disk, e: Disk, r: Outcome<Secret>, newDek: Key, phrase: Secret, n: nat, fates: seq<Fate>)
    requires d.keyring.Some? && KeyringOk(d.keyring.value) && d.recovery.Some?
  {
    && (!StrandsAt(d, n, fates) ==> AllOrNothing(d, e, newDek, phrase))
    && (StrandsAt(d, n, fates) ==>
          && Stranded(d, e)
          && (e.recovery == d.recovery <==> Reaches(After(fates, n + 1), UndoSteps(d) - 1)))
    && (LateErrorAt(fates, n) ==> !r.Ok?)
    && (LateErrorAt(fates, n) && NextFate(After(fates, n + 1)) == Crash(true) ==> StrandedAtOnce(d, e, newDek))
    && (LateErrorAt(fates, n) && After(fates, n + 1) == [] ==>
          RolledBack(e, d.keyring.value.active, d.recovery.value))
    && (fates == [] ==> r.Ok?) && (r.Ok? ==> Rotated(d, e, newDek, phrase))
  }

  ghost predicate WrongEnds(d: Disk, e: Disk, r: Outcome<Secret>, newDek: Key, phrase: Secret, n: nat, fates: seq<Fate>)
    requires d.keyring.Some? && KeyringOk(d.keyring.value) && d.recovery.Some?
  {
    && !r.Ok? && (fates == [] ==> r.Err?)
    && if LocksAt(d, n, fates) then LockedOut(e) else AllOrNothing(d, e, newDek, phrase)
  }

  /** A rotation of `d` from its journal on. */
  method RotateJournalled(root: Root, h: VaultHandle, kek: Key, newDek: Key, oldWrap: Key, phrase: Secret, salt: nat,
                          ghost d: Disk)
    returns (r: Outcome<Secret>)
    requires d.journal.None? && Settled(d) && d.keyring.value.active + 1 < U32_MODULUS && root.disk == WithJournal(d)
    requires Attached(h, d) && phrase.Phrase?
    modifies root, h
    ensures ContentsOf(root.disk) == ContentsOf(d) && Attached(h, root.disk)
    ensures RotationEnds(d, root.disk, r, kek, newDek, phrase, Fits(d, oldWrap, newDek), DropStep(d) - 1,
                         old(root.fates))
    ensures old(Coherent(h, d)) && Fits(d, oldWrap, newDek) ==>
              HandleEnds((h.keys, h.active), d, root.disk, r, kek, DropStep(d) - 1, old(root.fates))
    ensures kek == KekOf(d.keyring.value) && StallsAt(d, DropStep(d) - 1, old(root.fates)) ==>
              r.Err? && HalfAdded(d, root.disk, newDek) && h.keys == old(h.keys) && h.active == old(h.active)
    ensures r.Ok? ==> r.value == phrase && Coherent(h, root.disk) && SaltIs(root.disk, salt)
    ensures h.custody == old(h.custody) && h.identityRoot == old(h.identityRoot)
    ensures Onward(old(root.fates), root.fates) && root.access == old(root.access)
  {
    var prior, backup := root.disk.keyring.value.active, root.disk.recovery.value;
    ghost var before, had, fits, coherent := root.fates, (h.keys, h.active), Fits(d, oldWrap, newDek), Coherent(h, d);
    var done := TransactionFrom(root, h, kek, newDek, oldWrap, prior + 1, phrase, salt, d);
    r := Settle(root, h, done, kek, newDek, phrase, prior, prior + 1, backup, d, fits, had, coherent, before);
  }

  /** Conclude, and see what became of the handle. */
  method Settle(root: Root, h: VaultHandle, done: Outcome<()>, kek: Key, newDek: Key, phrase: Secret, prior: nat,
                next: nat, backup: Bundle, ghost d: Disk, ghost fits: bool, ghost had: Hold, ghost coherent: bool,
                ghost before: seq<Fate>)
    returns (r: Outcome<Secret>)
    requires d.journal.None? && Settled(d) && prior == d.keyring.value.active && next == prior + 1
    requires backup == d.recovery.value && Attached(h, root.disk)
    requires TransactionEnds(d, root.disk, done, kek, newDek, phrase, fits, before, root.fates)
    requires coherent && fits ==>
               && had.1 == prior && had.1 in had.0 && had.0[had.1] == ActiveDek(d.keyring.value)
               && HandleFollows(had, (h.keys, h.active), d, root.disk, done, kek, newDek, before, root.fates)
    modifies root, h
    ensures ContentsOf(root.disk) == ContentsOf(d) && Attached(h, root.disk)
    ensures RotationEnds(d, root.disk, r, kek, newDek, phrase, fits, DropStep(d) - 1, before)
    ensures coherent && fits ==> HandleEnds((h.keys, h.active), d, root.disk, r, kek, DropStep(d) - 1, before)
    ensures if done.Err? then !r.Ok? else root.disk == old(root.disk) && unchanged(h)
    ensures (done.Ok? ==> r == Ok(phrase)) && (done.Stopped? ==> r.Stopped?)
    ensures (&& done.Err? && kek == KekOf(d.keyring.value) && next in old(Deks(root.disk.keyring.value.entries))
             && NextFate(old(root.fates)) == Fail(false)) ==>
              r.Err? && root.disk == old(root.disk) && h.keys == old(h.keys) && h.active == old(h.active)
    ensures h.custody == old(h.custody) && h.identityRoot == old(h.identityRoot)
    ensures Onward(old(root.fates), root.fates) && root.access == old(root.access)
  {
    ghost var m, middle, moved := root.disk, root.fates, (h.keys, h.active);
    r := Conclude(root, h, done, kek, newDek, phrase, prior, next, backup, d, fits, before);
    if coherent && fits {
      HandleSettles(had, moved, (h.keys, h.active), d, m, root.disk, done, r, kek, newDek, before, middle);
    }
  }

  /** Report how the transaction ended, after a rollback if it reported an error. */
  method Conclude(root: Root, h: VaultHandle, done: Outcome<()>, kek: Key, newDek: Key, phrase: Secret, prior: nat,
                  next: nat, backup: Bundle, ghost d: Disk, ghost fits: bool, ghost before: seq<Fate>)
    returns (r: Outcome<Secret>)
    requires d.journal.None? && Settled(d) && prior == d.keyring.value.active && next == prior + 1
    requires backup == d.recovery.value && Attached(h, root.disk)
    requires TransactionEnds(d, root.disk, done, kek, newDek, phrase, fits, before, root.fates)
    modifies root, h
    ensures ContentsOf(root.disk) == ContentsOf(d) && Attached(h, root.disk)
    ensures RotationEnds(d, root.disk, r, kek, newDek, phrase, fits, DropStep(d) - 1, before)
    ensures if done.Err? then
              !r.Ok? && HandleReturns(old((h.keys, h.active)), (h.keys, h.active), d, old(root.disk), root.disk, r, kek,
                                      old(root.fates))
            else root.disk == old(root.disk) && unchanged(h)
    ensures (done.Ok? ==> r == Ok(phrase)) && (done.Stopped? ==> r.Stopped?)
    ensures (&& done.Err? && kek == KekOf(d.keyring.value) && next in old(Deks(root.disk.keyring.value.entries))
             && NextFate(old(root.fates)) == Fail(false)) ==>
              r.Err? && root.disk == old(root.disk) && h.keys == old(h.keys) && h.active == old(h.active)
    ensures h.custody == old(h.custody) && h.identityRoot == old(h.identityRoot)
    ensures Onward(old(root.fates), root.fates) && root.access == old(root.access)
  {
    match done
    case Ok(_) =>
      r := Ok(phrase);
    case Stopped =>
      r := Stopped;
    case Err =>
      r := Abandon(root, h, kek, newDek, phrase, prior, next, backup, d, fits, before);
  }

  /** The transaction, seen from the disk `d` before the journal was written. */
  method TransactionFrom(root: Root, h: VaultHandle, kek: Key, newDek: Key, oldWrap: Key, predicted: nat,
                         phrase: Secret, salt: nat, ghost d: Disk)
    returns (done: Outcome<()>)
    requires d.journal.None? && Settled(d) && d.keyring.value.active + 1 < U32_MODULUS && root.disk == WithJournal(d)
    requires Attached(h, d) && phrase.Phrase? && predicted == d.keyring.value.active + 1
    modifies root, h
    ensures TransactionEnds(d, root.disk, done, kek, newDek, phrase, Fits(d, oldWrap, newDek), old(root.fates),
                            root.fates)
    ensures Attached(h, root.disk) && (done.Ok? ==> Coherent(h, root.disk))
    ensures Fits(d, oldWrap, newDek) ==>
              HandleFollows(old((h.keys, h.active)), (h.keys, h.active), d, root.disk, done, kek, newDek,
                            old(root.fates), root.fates)
    ensures kek == KekOf(d.keyring.value) && NextFate(old(root.fates)) == Fail(true) ==>
              && done.Err? && root.fates == After(old(root.fates), 1) && (h.keys, h.active) == old((h.keys, h.active))
              && HalfAdded(d, root.disk, newDek) && predicted in Deks(root.disk.keyring.value.entries)
    ensures h.custody == old(h.custody) && h.identityRoot == old(h.identityRoot)
    ensures done.Ok? ==> SaltIs(root.disk, salt)
    ensures Onward(old(root.fates), root.fates) && root.access == old(root.access)
  {
    ghost var d1, before, fits := root.disk, root.fates, Fits(d, oldWrap, newDek);
    JournalReady(d);
    assert Fits(d1, oldWrap, newDek) == fits && DropStep(d1) == DropStep(d);
    done := RotateTransaction(root, h, kek, newDek, oldWrap, predicted, phrase, salt);
    AfterTransaction(d, root.disk, done, kek, newDek, phrase, fits, before, root.fates);
  }

  /** The state in which a transaction that reported an error is abandoned. */
  ghost predicate Abandonable(d: Disk, m: Disk, kek: Key, newDek: Key, phrase: Secret, fits: bool, before: seq<Fate>,
                              middle: seq<Fate>)
    requires d.keyring.Some? && KeyringOk(d.keyring.value) && d.recovery.Some?
  {
    var prior := d.keyring.value.active;
    && ContentsOf(m) == ContentsOf(d) && m.keyring.Some?
    && if kek == KekOf(d.keyring.value) then
         && Forward(WithJournal(d), m, newDek, phrase)
         && Rotating(m, prior, d.recovery.value) && KekOf(m.keyring.value) == kek
         && (if fits then before != [] else before == [] ==> middle == [])
         && (m.journal.None? <==> fits && LateErrorAt(before, DropStep(d) - 1))
         && (m.journal.None? ==> Rotated(d, m, newDek, phrase) && middle == After(before, DropStep(d)))
       else
         && Load(m.keyring.value, kek).None? && OldStays(d, m)
         && if TakesEffect(NextFate(before)) then LockedOut(m) else AllOrNothing(d, m, newDek, phrase)
  }

  /** How the transaction ends, seen from the disk before the journal was written. */
  ghost predicate TransactionEnds(d: Disk, m: Disk, done: Outcome<()>, kek: Key, newDek: Key, phrase: Secret,
                                  fits: bool, before: seq<Fate>, middle: seq<Fate>)
    requires d.keyring.Some? && KeyringOk(d.keyring.value) && d.recovery.Some?
  {
    && ContentsOf(m) == ContentsOf(d) && m.keyring.Some?
    && (|| (done.Ok? && RotationEnds(d, m, Ok(phrase), kek, newDek, phrase, fits, DropStep(d) - 1, before))
        || (done.Stopped? && RotationEnds(d, m, Stopped, kek, newDek, phrase, fits, DropStep(d) - 1, before))
        || (done.Err? && Abandonable(d, m, kek, newDek, phrase, fits, before, middle)))
  }

  /** Where the transaction leaves the disk, before any rollback. */
  lemma AfterTransaction(d: Disk, m: Disk, done: Outcome<()>, kek: Key, newDek: Key, phrase: Secret, fits: bool,
                         before: seq<Fate>, middle: seq<Fate>)
    requires Settled(d) && d.journal.None? && d.keyring.value.active + 1 < U32_MODULUS
    requires TransactionLeaves(WithJournal(d), m, done, kek, newDek, phrase, fits, before, middle)
    ensures TransactionEnds(d, m, done, kek, newDek, phrase, fits, before, middle)
    ensures done.Err? && fits ==> DeksStay(d, m, kek, newDek, before)
  {
    if kek == KekOf(d.keyring.value) {
      AfterRightTransaction(d, m, done, kek, newDek, phrase, fits, before, middle);
    } else {
      AfterWrongTransaction(d, m, done, kek, newDek, phrase, fits, before, middle);
    }
  }

  lemma AfterRightTransaction(d: Disk, m: Disk, done: Outcome<()>, kek: Key, newDek: Key, phrase: Secret, fits: bool,
                              before: seq<Fate>, middle: seq<Fate>)
    requires Settled(d) && d.journal.None? && d.keyring.value.active + 1 < U32_MODULUS
    requires kek == KekOf(d.keyring.value)
    requires TransactionLeaves(WithJournal(d), m, done, kek, newDek, phrase, fits, before, middle)
    ensures TransactionEnds(d, m, done, kek, newDek, phrase, fits, before, middle)
  {
    if done.Err? {
      AfterError(d, m, kek, newDek, phrase, fits, before, middle);
    } else {
      TransactionOutcome(d, m, m, newDek, phrase);
      if fits { assert !LateErrorAt(before, DropStep(d) - 1); }
    }
  }

  lemma AfterError(d: Disk, m: Disk, kek: Key, newDek: Key, phrase: Secret, fits: bool, before: seq<Fate>,
                   middle: seq<Fate>)
    requires Settled(d) && d.journal.None? && d.keyring.value.active + 1 < U32_MODULUS
    requires kek == KekOf(d.keyring.value)
    requires TransactionLeaves(WithJournal(d), m, Err, kek, newDek, phrase, fits, before, middle)
    ensures Abandonable(d, m, kek, newDek, phrase, fits, before, middle)
  {
    if m.journal.None? { LateRollback(d, m, newDek, phrase); }
  }

  lemma AfterWrongTransaction(d: Disk, m: Disk, done: Outcome<()>, kek: Key, newDek: Key, phrase: Secret, fits: bool,
                              before: seq<Fate>, middle: seq<Fate>)
    requires Settled(d) && d.journal.None? && d.keyring.value.active + 1 < U32_MODULUS
    requires kek != KekOf(d.keyring.value)
    requires TransactionLeaves(WithJournal(d), m, done, kek, newDek, phrase, fits, before, middle)
    ensures TransactionEnds(d, m, done, kek, newDek, phrase, fits, before, middle)
  {
    assert After(before, 0) == before;
    if !TakesEffect(NextFate(before)) {
      JournalOnly(d, newDek, phrase);
      LoadOpens(d.keyring.value, kek);
    }
  }

  /** The rollback that follows a transaction which reported an error. */
  method Abandon(root: Root, h: VaultHandle, kek: Key, newDek: Key, phrase: Secret, prior: nat, next: nat,
                 backup: Bundle, ghost d: Disk, ghost fits: bool, ghost before: seq<Fate>)
    returns (r: Outcome<Secret>)
    requires d.journal.None? && Settled(d) && prior == d.keyring.value.active && next == prior + 1
    requires backup == d.recovery.value
    requires h.identityRoot == d.identity.value.plain && h.active in h.keys
    requires Abandonable(d, root.disk, kek, newDek, phrase, fits, before, root.fates)
    modifies root, h
    ensures !r.Ok? && ContentsOf(root.disk) == ContentsOf(d) && Attached(h, root.disk)
    ensures RotationEnds(d, root.disk, r, kek, newDek, phrase, fits, DropStep(d) - 1, before)
    ensures HandleReturns(old((h.keys, h.active)), (h.keys, h.active), d, old(root.disk), root.disk, r, kek,
                          old(root.fates))
    ensures (&& kek == KekOf(d.keyring.value) && next in old(Deks(root.disk.keyring.value.entries))
             && NextFate(old(root.fates)) == Fail(false)) ==>
              r.Err? && root.disk == old(root.disk) && h.keys == old(h.keys) && h.active == old(h.active)
    ensures h.custody == old(h.custody) && h.identityRoot == old(h.identityRoot)
    ensures Onward(old(root.fates), root.fates) && root.access == old(root.access)
  {
    ghost var m, middle := root.disk, root.fates;
    if kek == KekOf(d.keyring.value) { LoadOpens(m.keyring.value, kek); }
    ghost var undone;
    r, undone := RollBackInProcess(root, h, kek, prior, next, backup);
    if kek == KekOf(d.keyring.value) {
      Abandoned(d, m, root.disk, r, kek, newDek, phrase, fits, undone, before, middle);
    }
  }

  /** What the in-process rollback `e` of a transaction that left `m` comes to. */
  lemma Abandoned(d: Disk, m: Disk, e: Disk, r: Outcome<Secret>, kek: Key, newDek: Key, phrase: Secret, fits: bool,
                  undone: Outcome<()>, before: seq<Fate>, middle: seq<Fate>)
    requires d.journal.None? && Settled(d) && kek == KekOf(d.keyring.value) && !r.Ok?
    requires middle == [] ==> r.Err?
    requires Abandonable(d, m, kek, newDek, phrase, fits, before, middle)
    requires RollsBack(m, e, d.keyring.value.active, d.recovery.value, undone, middle)
    ensures ContentsOf(e) == ContentsOf(d)
    ensures RotationEnds(d, e, r, kek, newDek, phrase, fits, DropStep(d) - 1, before)
  {
    TransactionOutcome(d, m, e, newDek, phrase);
    if m.journal.None? { AbandonedLate(d, m, e, r, kek, newDek, phrase, undone, before, middle); }
  }

  lemma AbandonedLate(d: Disk, m: Disk, e: Disk, r: Outcome<Secret>, kek: Key, newDek: Key, phrase: Secret,
                      undone: Outcome<()>, before: seq<Fate>, middle: seq<Fate>)
    requires d.journal.None? && Settled(d) && kek == KekOf(d.keyring.value) && !r.Ok? && m.journal.None?
    requires Abandonable(d, m, kek, newDek, phrase, true, before, middle)
    requires RollsBack(m, e, d.keyring.value.active, d.recovery.value, undone, middle)
    requires DroppedEnd(d, e, newDek, phrase)
    ensures RightEnds(d, e, r, newDek, phrase, DropStep(d) - 1, before)
  {
    LateRollback(d, m, newDek, phrase);
    UndoneExactly(d, m, e, newDek, phrase, undone, middle);
  }

  /** What it does to the handle: after a complete rollback it holds the DEKs of the
  keyring, otherwise what it held. */
  ghost predicate GoesBack(had: Hold, hold: Hold, d: Disk, e: Disk, prior: nat, r: Outcome<Secret>, fates: seq<Fate>) {
    && d.keyring.Some? && e.keyring.Some? && prior in Deks(e.keyring.value.entries)
    && (prior in Deks(d.keyring.value.entries) ==>
          Deks(e.keyring.value.entries)[prior] == Deks(d.keyring.value.entries)[prior])
    && (prior + 1 in Deks(e.keyring.value.entries) ==>
          && prior + 1 in Deks(d.keyring.value.entries)
          && Deks(e.keyring.value.entries)[prior + 1] == Deks(d.keyring.value.entries)[prior + 1])
    && (hold == had || (hold.1 == prior && Moored(hold, e)))
    && (had.1 == prior + 1 && prior + 1 in Deks(d.keyring.value.entries) && NoneAt(d.files, prior) ==>
          (r.Err? && hold.1 !in Deks(e.keyring.value.entries) <==> GivesUp(fates, UndoSteps(d), d.journal.Some?)))
  }

  method RollBackInProcess(root: Root, h: VaultHandle, kek: Key, prior: nat, next: nat, backup: Bundle)
    returns (r: Outcome<Secret>, ghost undone: Outcome<()>)
    requires next == prior + 1 && root.disk.keyring.Some? && h.active in h.keys
    requires Load(root.disk.keyring.value, kek).Some? ==>
               Rotating(root.disk, prior, backup) && h.identityRoot == root.disk.identity.value.plain
    modifies root, h
    ensures !r.Ok? && h.active in h.keys
    ensures old(Load(root.disk.keyring.value, kek).None?) ==> r.Err? && root.disk == old(root.disk) && unchanged(h)
    ensures old(Load(root.disk.keyring.value, kek).Some?) ==>
              && RollsBack(old(root.disk), root.disk, prior, backup, undone, old(root.fates))
              && GoesBack(old((h.keys, h.active)), (h.keys, h.active), old(root.disk), root.disk, prior, r,
                          old(root.fates))
              && (old(root.fates) == [] ==> r.Err?)
              && (next in old(Deks(root.disk.keyring.value.entries)) && NextFate(old(root.fates)) == Fail(false) ==>
                    r.Err? && root.disk == old(root.disk) && h.keys == old(h.keys) && h.active == old(h.active))
    ensures h.custody == old(h.custody) && h.identityRoot == old(h.identityRoot)
    ensures Onward(old(root.fates), root.fates) && root.access == old(root.access)
  {
    ghost var d, before, had := root.disk, root.fates, (h.keys, h.active);
    var result := RollbackRotation(root, kek, prior, next, backup);
    undone, r := result, if result.Stopped? then Stopped else Err;
    if result.Ok? {
      LoadOpens(root.disk.keyring.value, kek);
      var unwrapped := UnwrapKeyring(root.disk.keyring.value, kek);
      if unwrapped.Some? && root.disk.manifest == Some(h.identityRoot) {
        h.keys, h.active := unwrapped.value.keys, unwrapped.value.active;
      }
    }
    if Load(d.keyring.value, kek).Some? {
      GoneBack(had, (h.keys, h.active), d, root.disk, prior, backup, r, undone, before);
    }
  }

  lemma GoneBack(had: Hold, hold: Hold, d: Disk, e: Disk, prior: nat, backup: Bundle, r: Outcome<Secret>,
                 undone: Outcome<()>, fates: seq<Fate>)
    requires Rotating(d, prior, backup) && RollsBack(d, e, prior, backup, undone, fates)
    requires undone.Ok? ==> hold == (Deks(e.keyring.value.entries), prior) && RolledBack(e, prior, backup)
    requires !undone.Ok? ==> hold == had && (r.Err? <==> undone.Err?)
    ensures GoesBack(had, hold, d, e, prior, r, fates)
  {
    assert e.keyring.value.active == prior || Rotating(e, prior, backup);
  }

  /** What a transaction that reported an error leaves of the keyring. */
  ghost predicate DeksStay(d: Disk, m: Disk, kek: Key, newDek: Key, before: seq<Fate>)
    requires d.keyring.Some? && KeyringOk(d.keyring.value) && m.keyring.Some?
  {
    if kek == KekOf(d.keyring.value) then
      && ContentsOf(m) == ContentsOf(d) && KeptDeks(m, d.keyring.value.active) == Deks(d.keyring.value.entries)
      && NewIs(m, d.keyring.value.active + 1, newDek)
      && (m.journal.None? <==> LateErrorAt(before, DropStep(d) - 1))
    else OldStays(d, m)
  }

  /** What the transaction does to the handle and leaves of the keyring. */
  ghost predicate HandleFollows(had: Hold, moved: Hold, d: Disk, m: Disk, done: Outcome<()>, kek: Key, newDek: Key,
                                before: seq<Fate>, middle: seq<Fate>)
    requires d.keyring.Some? && KeyringOk(d.keyring.value)
  {
    && m.keyring.Some? && (done.Err? ==> DeksStay(d, m, kek, newDek, before))
    && (|| (&& kek == KekOf(d.keyring.value)
            && HandleMoves(had, moved, d.keyring.value, m, newDek, done, 1 + |d.files|, DropStep(d), before, middle))
        || (kek != KekOf(d.keyring.value) && moved == had))
  }

  /** Transaction and rollback together decide what a handle that matched the vault is
  left with. */
  lemma HandleSettles(had: Hold, moved: Hold, hold: Hold, d: Disk, m: Disk, e: Disk, done: Outcome<()>,
                      r: Outcome<Secret>, kek: Key, newDek: Key, before: seq<Fate>, middle: seq<Fate>)
    requires d.keyring.Some? && KeyringOk(d.keyring.value)
    requires had.1 == d.keyring.value.active && had.1 in had.0 && had.0[had.1] == ActiveDek(d.keyring.value)
    requires HandleFollows(had, moved, d, m, done, kek, newDek, before, middle)
    requires if done.Err? then HandleReturns(moved, hold, d, m, e, r, kek, middle) else e == m && hold == moved
    requires (done.Ok? ==> r.Ok?) && (done.Stopped? ==> r.Stopped?) && (done.Err? ==> !r.Ok?)
    ensures HandleEnds(hold, d, e, r, kek, DropStep(d) - 1, before)
  {
    if kek == KekOf(d.keyring.value) && done.Err? {
      SameSteps(d, m);
      HandleBack(had, moved, hold, d, m, e, r, newDek, done, before, middle);
    }
  }

  lemma HandleBack(had: Hold, moved: Hold, hold: Hold, d: Disk, m: Disk, e: Disk, r: Outcome<Secret>, newDek: Key,
                   done: Outcome<()>, before: seq<Fate>, middle: seq<Fate>)
    requires d.keyring.Some? && KeyringOk(d.keyring.value) && m.keyring.Some? && done.Err?
    requires had.1 == d.keyring.value.active && had.1 in had.0 && had.0[had.1] == ActiveDek(d.keyring.value)
    requires HandleMoves(had, moved, d.keyring.value, m, newDek, done, 1 + |d.files|, DropStep(d), before, middle)
    requires m.journal.None? <==> LateErrorAt(before, DropStep(d) - 1)
    requires NewIs(m, d.keyring.value.active + 1, newDek) && UndoSteps(m) == UndoSteps(d)
    requires KeptDeks(m, d.keyring.value.active) == Deks(d.keyring.value.entries)
    requires GoesBack(moved, hold, m, e, d.keyring.value.active, r, middle)
    ensures HandleEnds(hold, d, e, r, KekOf(d.keyring.value), DropStep(d) - 1, before)
  {
    var prior := d.keyring.value.active;
    assert prior in KeptDeks(m, prior) && KeptDeks(m, prior)[prior] == ActiveDek(d.keyring.value);
  }

  ghost predicate HandleReturns(moved: Hold, hold: Hold, d: Disk, m: Disk, e: Disk, r: Outcome<Secret>, kek: Key,
                                middle: seq<Fate>)
    requires d.keyring.Some? && KeyringOk(d.keyring.value)
  {
    if kek == KekOf(d.keyring.value) then GoesBack(moved, hold, m, e, d.keyring.value.active, r, middle)
    else hold == moved && e == m
  }
}
