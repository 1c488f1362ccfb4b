# Sovereign Vault: a verified model of its lifecycle, audit log and presence check

This project models, in Dafny, the parts of Sovereign Vault whose correctness
is hardest to see by reading, and proves what they promise.

* **The vault lifecycle** (`sv-core`, with the parts of `sv-storage`,
  `sv-recovery` and the transit stores it drives): bootstrap, unlock, recovery
  unlock, passphrase change, keychain move and key rotation, each of which can be
  cut short between any two durable steps. Modules `Crypto`, `Effects`,
  `Keyring`, `VaultDisk`, `Handles`, `Rotation`, `KeyRotation`, `CustodyChange`,
  `KeychainMove`, `Unlock`, `RecoveryUnlock`, `Bootstrap`, `BootstrapRetry`,
  `VaultFiles`, `Runs`; `NewVaults`, `RotationLimits` and `CustodyLimits` show on
  new vaults where the promises end.
* **The authenticated audit log** (`sv-audit`): `AuditChain`, `AuditVerify`,
  `AuditShapes`, `AuditLog`, `AuditRuns`; `AuditSlots` ties it to the lifecycle.
* **The presence coordinator and gate** (`sv-presence`): `PresenceGate`,
  `Presence`, `PresenceSafety`, `PresenceVerdicts`, `OpEncoding`, `OpDecoding`.
* **Arithmetic kernels**: `Checksums` (Luhn, Verhoeff), `Iban`, `Calendar`.

`dafny verify dfyconfig.toml` checks the whole project.

## How things are modelled

**Cryptography is ideal.** Keys, sealed boxes, authentication tags and digests
are terms of a free algebra: they are equal only if they were made from equal
parts, a box opens with exactly its key and associated data, and nobody but a
key holder produces a tag. What a vault holds, `ContentsOf`, is therefore a
function of the disk.

**Durable steps.** All durable state of a vault is one value, `Disk`; the class
`Root` changes it through one primitive, `Commit`, an atomic replace, rename,
removal or keychain store. What each step meets is decided by an arbitrary list
of fates: it succeeds, it reports an error, or the machine stops; in the last
two cases the step may or may not have taken effect (`late`). An operation
proved for every list of fates is proved for a crash or an I/O error at every
point. With the empty list every step succeeds, which is how "one uninterrupted
unlock" is said. Where it matters at which step something happens, contracts
count steps: `Takes(n, ...)` says that an operation has exactly `n` durable steps
and succeeds if and only if all of them do. The audit log has its own directory
type and primitive, with appends that can tear; the vault's disk keeps it as one
slot, and `AuditSlots` shows that the slot changes as the directory does.

**Randomness, clocks and the keychain** are parameters: drawn keys, salts and
phrases, the current time, what the keychain holds and whether it answers.
Generated KEKs are `Random` terms, generated phrases are `Phrase` terms, and a
new passphrase salt differs from the one on disk.

**The presence coordinator** is a transition system whose events are the steps
of its asynchronous calls, spawned tasks and drop handlers that touch shared
state; theorems quantify over all interleavings.

**Line lengths.** The length of a serialised audit record is a parameter of the
append; lengths read from disk are part of the line. The theorems hold for any
positive lengths.

## What the proofs found

* `rotate_key` with passphrase custody derives the KEK and never tries it on the
  keyring (`crates/sv-core/src/lib.rs:993-1045`). With a mistyped passphrase it
  appends a DEK wrapped under the wrong KEK; afterwards no key opens the keyring,
  unlock and rollback fail, and recovery unlock is refused because a journal is
  pending. `KeyRotation.RotateKey` states the exact condition: with a wrong KEK
  the vault is locked out if and only if the write of the keyring takes effect
  (`LocksAt`). `RotationLimits.LockOutByTypo` does it to a new vault.
* If removing the rotation journal reports an error after it took effect, the
  in-process rollback runs without a journal. With the right KEK a rotation is all
  or nothing if and only if this does not happen, or that rollback does not begin,
  or it gets as far as removing the new DEK (`KeyRotation.AllOrNothingExactly`,
  `StrandsAt`). Otherwise the vault is stranded: no unlock resumes the rollback,
  and no journal is there to say that it is needed. A credential that opened the
  vault before opens it still if and only if the rollback had brought the identity
  back under the old DEK (`Runs.RotateThenRecover`); the old recovery phrase opens
  it if and only if the old bundle was back (`RecoveryUnlock.StrandedPhrase`).
  `RotationLimits.StrandRotation` strands every vault at rest beyond reach of
  either, `RotationLimits.StrandNewVault` a new one,
  `RotationLimits.StrandedStillOpens` a new one that still opens. However often a
  stranded vault is rotated again, the version allocated is never the one predicted
  (`RotationLimits.StrandedForGood`).
* A rotation that fails after every file has moved leaves the handle with the new
  DEK. If the rollback then removes that DEK and still reports an error, the handle
  keeps it, and what is written through the handle is lost.
  `KeyRotation.RotateKey` says for which fates this happens (`LosesDek`), and that
  it happens for no others; `RotationLimits.LoseWrite` does it to a new vault. The
  lost file blocks the rollback of later rotations
  (`RotationLimits.LostBlocksRollback`).
* `change_passphrase` and `move_to_os_keychain` do not look for a pending journal
  (`crates/sv-core/src/lib.rs:927-983`). Through the handle of a rotation that is
  half done they replace the journal that would undo it
  (`CustodyChange.ChangeDerails`, `KeychainMove.MoveDerails`).
  `RotationLimits.OverwriteRotation` ends, after a passphrase change that
  succeeds, with a vault that no credential unlocks.
* While a keychain move is pending and the salt is gone, a keychain that loses the
  credential severs the vault: recovery unlock is refused while a journal is
  pending. `KeychainMove.KeychainChangesDuringMove` says exactly when,
  `CustodyLimits.SeverNewVault` does it to a new vault in five steps.
* Recovery unlock overwrites the credential of a keychain that refuses to release
  it. Stopped before it writes the keyring, only the phrase opens the vault
  (`RecoveryUnlock.RepairHalfDone`, `CustodyLimits.StopRepair`).
* `recover_interrupted_commit` uses a saturating increment
  (`crates/sv-audit/src/lib.rs:982`). At 2^64 - 1 records it can report success
  and leave a checkpoint that the append-time check rejects;
  `AuditLog.Recover` states exactly when, `AuditRuns.CeilingIsMisread` gives an
  instance.
* A bootstrap that is cut short right after it dropped its journal has finished
  the vault but never returned the phrase; a retry is then refused because a
  vault exists. `BootstrapRetry.BootstrapUntilDone` states that a retry succeeds
  if and only if this has not happened; `BootstrapRetry.PhraseNeverReturned` says,
  for every empty directory, for exactly which fates it does.
* After a torn append every audit operation is refused; nothing removes the
  incomplete line (`AuditShapes.Wedged`). `AuditLog.Record` says when an append
  tears, `AuditRuns.TearNewLog` does it to a new log. The same holds for the record
  that a 64-bit count cannot cover.
* Luhn misses exactly the swap of neighbouring 0 and 9.

## Model

| member | source | states |
|---|---|---|
| Keyring.LoadOpens | crates/sv-core/src/keyring.rs:265-287 | a keyring that satisfies the version invariant opens under its own KEK, to exactly its own version-to-DEK map, and under no other key |
| Keyring.UnwrapKeyring | crates/sv-core/src/keyring.rs:270-287 | the unwrap loop computes that map, or fails, for every keyring and key |
| Keyring.RewrapUnderNewKek | crates/sv-core/src/keyring.rs:308-319 | rewrapping succeeds exactly under the old KEK and yields the same versions and DEKs, all under the new KEK |
| Keyring.CreateOk | crates/sv-core/src/keyring.rs:211-250 | a new keyring and a single-DEK replacement satisfy the version invariant |
| Keyring.AddActiveOk | crates/sv-core/src/keyring.rs:400-411 | when the active version is the newest and below the 32-bit maximum, adding a DEK allocates exactly the predicted version, keeps every DEK and the invariant |
| Keyring.AddNewest | crates/sv-core/src/keyring.rs:400-411 | whatever the active version is, a new DEK gets the version after the newest one, becomes active, and every DEK is kept |
| Keyring.AddUnderWrongKek | crates/sv-core/src/keyring.rs:400-411 | a DEK added under another KEK than the keyring's leaves a keyring that no key opens |
| Keyring.SetActiveOk | crates/sv-core/src/keyring.rs:422-431 | setting the active version succeeds exactly for a version that is present and keeps the invariant |
| Keyring.RemoveVersionOk | crates/sv-core/src/keyring.rs:434-449 | removing a non-active version removes that DEK and no other, and keeps the invariant with the new minimum |
| Keyring.RemoveVersionMinimum | crates/sv-core/src/keyring.rs:434-449 | after a removal the minimum is the oldest version that is left |
| VaultDisk.Root.Commit | crates/sv-core/src/lib.rs:1333-1390 | one atomic durable step takes effect or does not, whatever it reports, exactly as its fate says; success means it did |
| Handles.LoadKeychainUnwrapped | crates/sv-core/src/lib.rs:1826-1878 | finds the keyring's KEK if and only if either keychain slot holds it and the one copy that may be needed succeeds; afterwards the vault's own slot holds it; copies only a legacy credential that opens the keyring, and changes nothing otherwise |
| Handles.KekCandidates | crates/sv-core/src/lib.rs:1880-1913 | the candidates are exactly the keys the two slots encode |
| Rotation.RewrapFile | crates/sv-storage/src/lib.rs:613-631 | one file moves to the active DEK with its plaintext, or the disk is unchanged |
| Rotation.RewrapAllFiles | crates/sv-core/src/lib.rs:1761-1768 | the loop leaves every file under the old or the active DEK at every interruption, under the active one on success, keeps all plaintexts, and takes one durable step for each file not yet under the active DEK |
| Rotation.Reseal | crates/sv-core/src/transit.rs:636-662 | a box under either wrapping key ends under the new one with its plaintext; any other box is refused |
| Rotation.ResealEntries | crates/sv-core/src/transit.rs:664-697 | the loop over a store reseals every entry or none, keeping names, order and plaintexts |
| Rotation.RewrapAllMaterial | crates/sv-core/src/transit.rs:613-697 | identity and all three stores move to the new wrapping key, store by store; interrupted anywhere, everything is under one of the two keys and keeps its plaintext; it succeeds if and only if all of its counted steps do, and reports an error if and only if the first that does not reports one; an identity under neither key stops it before the first |
| Rotation.RollbackRotation | crates/sv-core/src/lib.rs:1713-1759 | from any state of a rotation the rollback goes toward rest under the old DEK, can be interrupted and resumed anywhere, loses no plaintext and no older DEK, and ends with the journalled recovery bundle; of a rotation that has moved every file it removes the new DEK, puts the old bundle back, and reports an error after removing the DEK, each if and only if the fates of its counted steps say so |
| KeyRotation.CustodyKek | crates/sv-core/src/lib.rs:995-1008 | keychain custody yields a KEK that opens the keyring; passphrase custody yields the derived KEK without trying it |
| KeyRotation.RotateTransaction | crates/sv-core/src/lib.rs:1039-1076 | at every interruption the transaction is finished or can be rolled back, no DEK is lost and contents are kept; it reports an error without its journal if and only if the step that drops it does so late; the handle moves to the new DEK if and only if the keyring and every file were written; under a wrong KEK it fails, and locks the vault if and only if its first write takes effect; with a handle whose wrapping key is not the vault's it fails with its journal in place |
| KeyRotation.RotateKey | crates/sv-core/src/lib.rs:993-1103 | through any handle that was opened on the vault: a rotation that cannot start changes nothing; with the right KEK it is all or nothing unless `StrandsAt` holds of the fates and is stranded if it does; with a wrong KEK it locks the vault if `LocksAt` holds and is undone or resumable if not; uninterrupted it succeeds if and only if the KEK is right and the handle's wrapping key fits; a handle that matched the vault is left with a DEK that the keyring has not if and only if `LosesDek` holds, and otherwise with one that it has; on success the new bundle is under the returned phrase and the drawn salt |
| KeyRotation.HandleSettles | crates/sv-core/src/lib.rs:1039-1103 | transaction and rollback together: the handle ends with a DEK that was removed from the keyring if and only if the transaction reports an error after every file has moved and the rollback reports one after removing the new DEK |
| KeyRotation.TransactionOutcome | crates/sv-core/src/lib.rs:1039-1103 | the transaction alone or followed by a rollback keeps contents, openers and older DEKs; it ends all-or-nothing unless the rollback ran without a journal, and then all-or-nothing or stranded |
| KeyRotation.NoKeyNoInvariant | crates/sv-core/src/lib.rs:1040-1048 | a locked-out vault is outside the invariant |
| KeyRotation.AllOrNothingExactly | crates/sv-core/src/lib.rs:1078-1103 | with the right KEK, for every list of fates: all or nothing if and only if the journal is not dropped by a step that reports an error, or the rollback after it does not begin, or it removes the new DEK |
| KeyRotation.UndoneExactly | crates/sv-core/src/lib.rs:1713-1759 | undoing a finished rotation without a journal leaves it rotated if its first step had no effect, rolled back if all its steps had, and stranded in every other case; stranded, the old bundle is back if and only if the step before the last was reached |
| KeyRotation.StrandedIsNeither | crates/sv-core/src/lib.rs:1078-1103 | a stranded vault is neither rotated nor rolled back nor resumable, and is outside the invariant |
| KeyRotation.StrandedAtOnceIsLost | crates/sv-core/src/lib.rs:1078-1103 | stopped after the first write of that rollback, neither the active DEK opens the identity nor does the recovery bundle hold it |
| RotationLimits.StrandRotation | crates/sv-core/src/lib.rs:1070-1103 | from every vault at rest whose rotation can start with the right KEK, one list of fates leads to such a vault |
| RotationLimits.StrandNewVault | crates/sv-core/src/lib.rs:1070-1103 | the same for a new vault: four steps, the late error, the stop; no credential unlocks it afterwards |
| RotationLimits.StrandedStillOpens | crates/sv-core/src/lib.rs:1070-1103 | stopped before the last step of that rollback instead, the vault is outside the invariant, its passphrase unlocks it and its old phrase opens it |
| RotationLimits.LockOutByTypo | crates/sv-core/src/lib.rs:993-1048 | bootstrap, then an uninterrupted rotation with any other passphrase: no key opens the keyring |
| RotationLimits.LoseWrite | crates/sv-core/src/lib.rs:1078-1103 | a rotation of a new vault fails at the identity and its rollback at the journal, then a write through the handle: it succeeds and no DEK of the keyring reads the file |
| RotationLimits.OverwriteRotation | crates/sv-core/src/lib.rs:927-1103 | a rotation of a new vault that stalls at its second step, then a passphrase change through its handle: the change succeeds, no journal is left, and no credential unlocks the vault |
| RotationLimits.NeverRotatesAgain | crates/sv-core/src/keyring.rs:400-449 | a keyring with a DEK newer than the active one allocates a later version than a rotation predicts, and undoing that rotation leaves a well-formed keyring of the same kind |
| RotationLimits.StrandedForGood | crates/sv-core/src/lib.rs:1036-1048 | after any number of failed rotations of a stranded vault the next one predicts the version after the active one and allocates one that is further on by exactly that number and one |
| RotationLimits.LostBlocksRollback | crates/sv-core/src/lib.rs:1713-1759 | a lost file has the version that the next rotation allocates in its header and does not open under that rotation's DEK, so its rollback cannot read it |
| CustodyChange.ChangeStages | crates/sv-core/src/lib.rs:927-954 | if everything is under the active DEK, every state a passphrase change passes through satisfies the invariant, and the salt on disk decides which KEK opens it |
| CustodyChange.ChangeDerails | crates/sv-core/src/lib.rs:927-954 | a change that is begun while a rotation is half done keeps the invariant if and only if it stops before its second write, which replaces the journal |
| CustodyChange.ChangePassphraseOf | crates/sv-core/src/lib.rs:927-954 | a wrong current or a too short new passphrase changes nothing; otherwise at every interruption contents, DEK map and active version are the same; the invariant is lost if and only if the journal of a half-done rotation is replaced; if not, the passphrase that opens is the one of the salt on disk |
| CustodyChange.RecoverChange | crates/sv-core/src/lib.rs:1594-1630 | finishing a change keeps the DEKs, the salt and the one KEK that opens; any other passphrase changes nothing; a staged keyring is promoted only when it holds the live keyring's DEKs |
| KeychainMove.MoveStages | crates/sv-core/src/lib.rs:961-983 | if everything is under the active DEK, at every state of a move the live keyring opens under the passphrase with its salt present or under the stored keychain KEK; without a salt it is the latter |
| KeychainMove.MoveDerails | crates/sv-core/src/lib.rs:961-983 | a move that is begun while a rotation is half done keeps the invariant if and only if it stops before its second write |
| KeychainMove.MoveToOsKeychain | crates/sv-core/src/lib.rs:961-983 | a wrong passphrase or an absent keychain changes nothing; otherwise the same for every interruption of the operation, in six durable steps, with the same contents, DEKs and active version; the invariant is lost if and only if the journal of a half-done rotation is replaced; the handle's custody changes only on success |
| KeychainMove.FinishMove | crates/sv-core/src/lib.rs:1673-1682 | finishing with a held KEK that opens either side keeps the vault openable at every step and ends under that KEK without a salt |
| KeychainMove.RecoverMove | crates/sv-core/src/lib.rs:1631-1711 | every recovery path keeps DEKs and active version; a credential that opens neither side leaves the disk unchanged, and so does any credential once the vault is severed |
| KeychainMove.UndoMove | crates/sv-core/src/lib.rs:1697-1705 | a passphrase that still opens the live keyring undoes the move without touching keyring or salt |
| KeychainMove.KeychainChangesDuringMove | crates/sv-core/src/lib.rs:961-983 | whatever happens to the keychain slots during a move, the vault stays openable if and only if a passphrase with its salt opens the live keyring or the keychain holds its KEK |
| KeychainMove.SeveredOpensNothing | crates/sv-core/src/lib.rs:1631-1711 | once that fails no held KEK and no passphrase finishes or undoes the move |
| CustodyLimits.SeverNewVault | crates/sv-core/src/lib.rs:961-983 | a new vault whose move stops after its fifth step and whose keychain then loses the credential: no credential unlocks it and no phrase opens it |
| Unlock.EnsureBootstrapAudit | crates/sv-core/src/lib.rs:1280-1290 | the audit slot stays, or goes from no log to the empty file to a log under the vault's key; an existing log is never replaced; two durable steps where there was none |
| AuditSlots.EnsureAudit | crates/sv-core/src/lib.rs:1280-1290 | opening or creating the log on an audit directory changes what the directory shows exactly as the slot may change; success means a log that opens, and an existing one is left as it is |
| AuditSlots.ShowsOne | crates/sv-core/src/lib.rs:1280-1290 | a directory shows at most one slot value, so a ready log has one key |
| Unlock.RecoverRotation | crates/sv-core/src/lib.rs:1642-1669 | unlock rolls a pending rotation back with the credential that opens the vault, and changes nothing for any other |
| Unlock.RecoverLifecycle | crates/sv-core/src/lib.rs:1576-1671 | after recovery the effective custody opens what is on disk; contents and DEKs are kept |
| Unlock.UnlockWithKeychain | crates/sv-core/src/lib.rs:1781-1807 | refused while a salt is on disk; otherwise opens exactly if the keychain holds the KEK |
| Unlock.UnlockVault | crates/sv-core/src/lib.rs:492-532 | from every state of the invariant and for every interruption: keeps invariant, contents and DEKs; an uninterrupted unlock succeeds for the credential the state answers to and any other credential changes nothing; from a state outside it with nothing pending, such as a stranded vault, an uninterrupted unlock succeeds if and only if the credential yields the KEK and the identity reads under the active DEK, and changes at most the copy of the credential; the custody of the handle is passphrase if a salt is on disk and keychain if not, and then the vault's own slot holds the KEK |
| Unlock.OnePassphraseUnlocks | crates/sv-core/src/lib.rs:1594-1630 | at every step of a passphrase change exactly one passphrase unlocks: the old one until the salt changes, the new one from then on; only while the journal of an earlier move is not yet replaced, a keychain that can finish that move makes the passphrase irrelevant |
| RecoveryUnlock.ActiveDekSuffices | crates/sv-core/src/lib.rs:649-720 | at rest the active DEK alone reads every file, the identity root and all material |
| RecoveryUnlock.RepairStages | crates/sv-core/src/keyring.rs:229-250 | repairing the keychain drops older DEKs, keeps the active one and leaves a vault that the phrase opens at each step, and one at rest at the end |
| RecoveryUnlock.UnlockWithRecovery | crates/sv-core/src/lib.rs:649-720 | the phrase of the bundle opens the vault when nothing but the end of a bootstrap is pending and everything is under the active DEK, with exactly that DEK; any other phrase, or another pending operation, changes nothing; on success the custody of the handle is keychain, and keyring and credential are the new ones, if and only if a repair is made, and otherwise it is recovery and they are kept; the two writes of a repair take place as the fates say |
| RecoveryUnlock.StrandedPhrase | crates/sv-core/src/lib.rs:649-720 | a phrase opens a stranded vault if and only if the rollback had put the old bundle back and it is the old phrase |
| RecoveryUnlock.ShouldRepairKeychain | crates/sv-core/src/lib.rs:1814-1824 | a repair is made if and only if there is no salt and a keychain that answers without yielding the KEK, or only the legacy slot holds it and copying it reports an error |
| RecoveryUnlock.RepairHalfDone | crates/sv-core/src/lib.rs:675-681 | between the two writes of a repair a custody credential opens the vault if and only if the legacy slot holds the old KEK, and the phrase opens it always |
| CustodyLimits.StopRepair | crates/sv-core/src/lib.rs:675-681 | a new keychain vault, a keychain that refuses, a recovery unlock that stops after its first write: though the keychain answers again no credential unlocks, and the phrase opens the vault |
| Bootstrap.RollbackBootstrap | crates/sv-core/src/lib.rs:1498-1574 | for any credential in the slot: rollback ends in an empty directory, resumable at every step, and deletes a keychain credential if and only if it matches the journalled fingerprint |
| Bootstrap.FoundedOk | crates/sv-core/src/lib.rs:374-485 | the vault a bootstrap founds satisfies the invariant, holds the drawn DEK as version 1 and a bundle for the journalled phrase |
| Bootstrap.FoundVault | crates/sv-core/src/lib.rs:374-470 | every interruption leaves the empty directory, a journal without phrase, or the founded vault; seven durable steps |
| Bootstrap.ResumeBootstrap | crates/sv-core/src/lib.rs:292-347 | with the journalled custody and its credential the pending bootstrap is finished and returns the journalled phrase |
| Bootstrap.BootstrapVault | crates/sv-core/src/lib.rs:281-485 | an existing vault or another pending operation refuses it unchanged; success settles the vault and returns its phrase and a handle with its DEKs; of a fresh one every drawn value is where it belongs: the DEK as only version, the identity root, phrase and salt of the bundle, and as KEK the drawn one, also in the keychain, or the one of the passphrase (of at least 16 characters) and the drawn salt; a resumed one keeps keyring and bundle; a credential that no pending bootstrap stored stays and refuses a keychain bootstrap; an interrupted one can be retried or is complete |
| BootstrapRetry.BootstrapUntilDone | crates/sv-core/src/lib.rs:281-485 | any number of interrupted bootstraps and one uninterrupted retry with the same custody and passphrase end in a complete vault; the retry succeeds if and only if no attempt had completed it; once an attempt fixed a phrase no later one changes it, it opens the vault, and it is the one returned |
| BootstrapRetry.PhraseNeverReturned | crates/sv-core/src/lib.rs:281-485 | from every empty directory a bootstrap and its uninterrupted retry both fail if and only if the step that drops the journal takes effect without reporting success; the vault is complete either way |
| VaultFiles.WriteFile | crates/sv-storage/src/lib.rs:513-536 | exactly one file's plaintext changes, under the handle's DEK, or nothing does, as the fate of its one step says |
| VaultFiles.WrittenExactly | crates/sv-storage/src/lib.rs:513-536 | a write through any handle, in every state of the vault: the invariant is kept if and only if the keyring has the handle's DEK under its version and that version is the active one or one of the two of a pending rotation |
| VaultFiles.DeleteFile | crates/sv-storage/src/lib.rs:571-591 | exactly that file goes if the step takes effect, and nothing else; deleting a missing file succeeds |
| VaultFiles.CreateMaterial | crates/sv-core/src/transit.rs:247-267 | one entry is appended under the handle's wrapping key, or nothing changes, as the fate of its one step says; an existing name is refused |
| VaultFiles.AddedExactly | crates/sv-core/src/transit.rs:247-267 | the invariant is kept if and only if the handle's DEK is the active one or one of the two of a pending rotation |
| VaultFiles.ReadsContents | crates/sv-storage/src/lib.rs:513-568 | a handle that matches the vault reads every file as the vault holds it and no other, reads what it writes, and no longer what it deletes |
| VaultFiles.MovedFileIsRefused | crates/sv-storage/src/lib.rs:538-568 | a file that is moved to another path does not open there, whatever keys are tried |
| VaultFiles.BoxesDoNotMix | crates/sv-core/src/transit.rs:49-53 | material opens in its own store and in no other place; identity, material and files never open for one another |
| VaultFiles.AuditKeyIsApart | crates/sv-core/src/lib.rs:733-738 | with generated KEK and DEK, the key of the audit log is none of the keys of the vault |
| Runs.Execute | crates/sv-core/src/lib.rs:281-1103 | every facade operation through any session, and every change of the keychain, with any fates: the invariant is lost if and only if `Breaks` holds of the command, the state before it and the fates: a rotation strands or locks the vault, a write or entry is sealed under a DEK the vault has not, a custody change replaces the journal of a half-done rotation, or the keychain severs a pending move; contents change exactly by the content commands, if there is a session and their step takes effect; a lock ends the session, and nothing but the world changes what the keychain answers; a command that opens a vault opens it, uninterrupted, for the credential or phrase the state answers to, and for no other; an uninterrupted passphrase change, move or rotation that is accepted arrives at the new KEK or DEK |
| Runs.Run | crates/sv-core/src/lib.rs:281-1103 | over every run from an empty directory, with any fates for every command, sessions that outlive failed rotations, restarts and an arbitrarily changing keychain: the invariant holds after every command until one for which `Breaks` holds and not after that one, so until then and without a pending operation everything is under the active DEK with a bundle for it; contents change only by the commands that say so, before and after; the run goes on with locked and severed vaults |
| Runs.InvUntilBroken | crates/sv-core/src/lib.rs:281-1103 | the induction over a run: the invariant, and rest in every journal-free state, up to the first command that breaks it, and its loss with that command |
| Runs.RotateThenRecover | crates/sv-core/src/lib.rs:993-1103 | a rotation with any fates, then any number of unlocks with any credentials and any fates, then one uninterrupted unlock: contents are always kept; if the rotation strands the vault it stays stranded and the last unlock succeeds if and only if its credential opened the vault before and the identity is under the old DEK; if it locks the vault no unlock succeeds; otherwise a credential that worked before works and everything is under the old DEK or everything under the new one |
| AuditChain.ScanPathsFrom | crates/sv-audit/src/lib.rs:895-963 | the nested loop over segments and lines computes the scan, with its failure positions and the 64-bit ceiling |
| AuditChain.ScanMeansLinked | crates/sv-audit/src/lib.rs:895-963 | a scan accepts exactly the lines that form a chain below the ceiling, and returns its length and last tag |
| AuditChain.FailureNamesFirst | crates/sv-audit/src/lib.rs:895-963 | a scan that fails names the first line that does not belong to the chain, and whether it has the old format |
| AuditChain.ScanFlattens | crates/sv-audit/src/lib.rs:895-963 | where one segment ends and the next begins makes no difference |
| AuditChain.LinkedAppend | crates/sv-audit/src/lib.rs:1076-1135 | the record the log signs next extends the chain |
| AuditChain.HeadDeterminesChain | crates/sv-audit/src/lib.rs:1076-1135 | the last tag and the number of records determine every record |
| AuditVerify.FastCheckAgrees | crates/sv-audit/src/lib.rs:762-889 | when the archives scan to the boundary the append-time check and full verification give the same report; full acceptance is exactly archive acceptance and active acceptance |
| AuditVerify.AcceptanceMeansChain | crates/sv-audit/src/lib.rs:762-827 | full verification accepts exactly the directories that hold one clean chain with the checkpoint's boundary, count and head |
| AuditVerify.LoadedIsSigned | crates/sv-audit/src/lib.rs:1047-1067 | a checkpoint is loaded if and only if the holder of the key signed it and its counts make sense |
| AuditVerify.ReportNamesPlace | crates/sv-audit/src/lib.rs:762-827 | a failed verification reports the first line that does not belong there, or the place where an intact chain disagrees with the checkpoint |
| AuditVerify.TamperEvidence | crates/sv-audit/src/lib.rs:762-827 | two directories accepted against one checkpoint hold the same archived and the same active records |
| AuditShapes.ShapesAreExclusive | crates/sv-audit/src/lib.rs:965-1045 | settled, one record ahead, torn and renamed exclude each other |
| AuditShapes.ShapedScan | crates/sv-audit/src/lib.rs:965-1001 | what the scan of the active segment finds in each shape |
| AuditShapes.CheckpointCatchesUp | crates/sv-audit/src/lib.rs:984-1001 | signing the lagging checkpoint settles the log with the same records |
| AuditShapes.RenamedScan | crates/sv-audit/src/lib.rs:1005-1018 | the archives of an interrupted rotation scan to the checkpoint and the segment number cannot overflow |
| AuditShapes.RotationCompletes | crates/sv-audit/src/lib.rs:1019-1044 | finishing an interrupted rotation settles the log with the same records |
| AuditShapes.RotationStarts | crates/sv-audit/src/lib.rs:719-728 | renaming a non-empty active segment leaves the renamed shape with the same records |
| AuditShapes.AppendGoesAhead | crates/sv-audit/src/lib.rs:698-701 | an append of the next record leaves the log one ahead of its checkpoint |
| AuditShapes.AppendTears | crates/sv-audit/src/lib.rs:698-701 | an append that stops inside its line leaves records and checkpoint as they were |
| AuditLog.Store.Append | crates/sv-audit/src/lib.rs:698-701 | all, some or none of the bytes of the line reach the file; success means all |
| AuditLog.ShapedFinding | crates/sv-audit/src/lib.rs:965-1001 | for every directory the log produced, the finding of recovery tells settled, lagging, past the ceiling and the rest apart exactly as the shapes do |
| AuditLog.CaughtUpIsAccepted | crates/sv-audit/src/lib.rs:984-1001 | the checkpoint that catching up writes passes the append-time check if and only if the old one was below the ceiling |
| AuditLog.RecoverRotation | crates/sv-audit/src/lib.rs:1003-1044 | for any directory: acts only on archives that scan to the checkpoint, passes through known states, and success is accepted by the append-time check |
| AuditLog.Recover | crates/sv-audit/src/lib.rs:965-1045 | for any directory: when it returns true the append-time check would accept, if and only if the saturating increment was not hit |
| AuditLog.RecoveryKeepsLog | crates/sv-audit/src/lib.rs:965-1045 | recovery of any directory the log produced keeps every record, settles it unless it is wedged, and leaves a wedged one alone |
| AuditLog.Rotate | crates/sv-audit/src/lib.rs:719-744 | the exact directories a rotation passes through |
| AuditLog.RotationStages | crates/sv-audit/src/lib.rs:719-744 | each of them holds the same log |
| AuditLog.AppendRecord | crates/sv-audit/src/lib.rs:698-716 | at most the one record is added; success covers it by the checkpoint |
| AuditLog.WriteRecord | crates/sv-audit/src/lib.rs:667-716 | signs, rotates when the active segment is full, signs the identical record again and appends |
| AuditLog.Record | crates/sv-audit/src/lib.rs:648-717 | the log becomes its old value or its old value and the redacted event, signed next in the chain; success means the latter and a current checkpoint; a wedged log is refused unchanged; an uninterrupted record within limits succeeds; a settled log gets an unfinished line if and only if the append is cut short inside it; the record stores the event's action and detail, and container and file name as their keyed digests or not at all; it goes to the active segment if there is room, and otherwise to a new one after the active segment has become the next archive |
| AuditRuns.Create | crates/sv-audit/src/lib.rs:520-555 | creates an empty settled log only where none exists; every interruption leaves the directory, the empty file or the log |
| AuditRuns.OpenLog | crates/sv-audit/src/lib.rs:560-592 | for any directory success means the full chain is intact; a log's own directory keeps every record and is settled unless wedged; a settled one opens unchanged |
| AuditRuns.TearNewLog | crates/sv-audit/src/lib.rs:648-717 | a new log whose first record is cut short at any byte inside its line: recording and opening are refused from then on |
| AuditRuns.CeilingIsMisread | crates/sv-audit/src/lib.rs:984-1001 | a concrete directory at the ceiling for which recovery reports true and the append-time check rejects |
| AuditRuns.RunAudit | crates/sv-audit/src/lib.rs:520-744 | over every run of create, open and record with every interruption: a known state, an append-only list that grows one recorded event at a time, an event in it for every record that was reported as successful, no name in clear, segments within 256 KiB, archives never empty, and every segment a single record or within the largest threshold in use |
| PresenceGate.VerifyingMeansBegun | crates/sv-presence/src/gate.rs:52-98 | after every list of calls: the gate verifies an attempt and a digest if and only if one call found it pending and began exactly that, and no finish or abort by that attempt and no reset came later |
| PresenceGate.Gate.FinishVerification | crates/sv-presence/src/gate.rs:63-90 | accepts exactly the active attempt with granted, stored and current digest equal and the deadline not passed |
| PresenceGate.AuthenticatedMeansFinished | crates/sv-presence/src/gate.rs:52-109 | after every list of calls: the gate is authenticated for a digest if and only if a verification of that digest was finished in time by its own attempt, with granted and current digest equal to it, and no reset came later |
| PresenceGate.PlayGate | crates/sv-presence/src/gate.rs:52-109 | the mutating gate is in the state those theorems speak of, after every list of calls |
| PresenceSafety.SlotStep | crates/sv-presence/src/coordinator.rs:179-241 | every step keeps: the slot is held by exactly the call or task that is using it |
| PresenceSafety.QueueStep | crates/sv-presence/src/coordinator.rs:102-106 | every step keeps: the counter equals the places in use and at most eight are admitted to wait |
| PresenceSafety.GateStep | crates/sv-presence/src/gate.rs:51-109 | every step keeps: an attempt is active in at most one gate and in none once it has committed |
| PresenceSafety.InvHolds | crates/sv-presence/src/coordinator.rs:108-241 | these invariants hold in every state of every run |
| PresenceSafety.SinglePrompt | crates/sv-presence/src/coordinator.rs:179-241 | at most one backend verification is in flight, whatever became of its caller |
| PresenceSafety.BoundedQueue | crates/sv-presence/src/coordinator.rs:179-205 | at most eight calls wait and the counter is the number of queue places |
| PresenceSafety.SlotIsNotLeaked | crates/sv-presence/src/coordinator.rs:217-224 | a taken slot is always still in use |
| PresenceSafety.AttemptsAreFresh | crates/sv-presence/src/coordinator.rs:131-145 | a new attempt has a number that was never used |
| PresenceSafety.CancelledNeverPrompts | crates/sv-presence/src/coordinator.rs:206-208 | an attempt cancelled before the check after admission never reaches the backend, however the run goes on |
| PresenceSafety.OnlyOwnSignalFires | crates/sv-presence/src/coordinator.rs:86-177 | a signal is fired if and only if its own attempt was invalidated while registered, was dropped, or had a prompt expire |
| PresenceSafety.VerifyingSinceBegin | crates/sv-presence/src/gate.rs:51-109 | a verifying gate has been so, for that attempt and digest, since one begin |
| PresenceSafety.CommitNeedsApproval | crates/sv-presence/src/gate.rs:63-90 | a gate becomes authenticated only by a finish in time, for an attempt active since its begin, with a delivered backend approval of that digest, and for an attempt that has not committed before |
| PresenceSafety.CommitBindsOperation | crates/sv-presence/src/op.rs:76-89 | the operation that is committed is the one whose prompt the backend approved |
| PresenceSafety.NoSecondCommit | crates/sv-presence/src/gate.rs:51-109 | no two commits of a run share an attempt |
| PresenceSafety.ClassificationSticks | crates/sv-presence/src/coordinator.rs:150-161 | a request is classified as protected if and only if it is or one before it was |
| PresenceVerdicts.VerdictsAreDecided | crates/sv-presence/src/coordinator.rs:179-241 | over every run a call has a verdict if and only if a step decided it so: queue full, signal fired, deadline passed, or what the backend task delivered, error by error |
| PresenceVerdicts.TurnedAwayExactly | crates/sv-presence/src/coordinator.rs:186-190 | a call that takes a queue place is turned away if and only if eight places were in use |
| PresenceVerdicts.InvalidatedNeverPrompts | crates/sv-presence/src/coordinator.rs:163-177 | a call whose attempt is invalidated before the check after admission never reaches the backend |
| PresenceVerdicts.InvalidatedIsNeverVerified | crates/sv-presence/src/coordinator.rs:163-177 | a call whose attempt is invalidated at any time before it is told so is never told that it is verified, and commits nothing |
| PresenceVerdicts.InvalidatedEndsSo | crates/sv-presence/src/coordinator.rs:163-241 | a call that waits, is admitted or prompts when its attempt is invalidated ends as invalidated or is dropped by its owner |
| PresenceVerdicts.AbortedGetsNothing | crates/sv-presence/src/coordinator.rs:99-106 | a call whose future is aborted never gets a verdict |
| PresenceVerdicts.RegisteredExactly | crates/sv-presence/src/coordinator.rs:129-145 | an attempt is registered if and only if it was begun and not dropped |
| PresenceVerdicts.AttemptOutlivesCalls | crates/sv-presence/src/coordinator.rs:86-97 | an attempt stays registered as long as a call of it is not over |
| PresenceVerdicts.GatesFollowTheirCalls | crates/sv-presence/src/gate.rs:52-109 | in every run each gate is in the state that its own calls lead to |
| PresenceVerdicts.NoCallIsStuck | crates/sv-presence/src/coordinator.rs:179-241 | in every reachable state a call that is not over can make a step, at once or at its deadline |
| PresenceVerdicts.FreshCallIsServed | crates/sv-presence/src/coordinator.rs:179-241 | from every state with the slot free, a call of an uncancelled attempt with its deadline ahead prompts, is told what the backend answers, and gives the slot back |
| PresenceVerdicts.ApprovalCommits | crates/sv-presence/src/gate.rs:52-98 | begin, an approved call and a finish in time leave the gate authenticated for that operation |
| PresenceVerdicts.FreshCallWaits | crates/sv-presence/src/coordinator.rs:185-203 | while the slot is taken and fewer than eight places are in use a new call waits |
| PresenceVerdicts.WaitingCallIsAdmitted | crates/sv-presence/src/coordinator.rs:191-203 | a waiting call of an uncancelled attempt is admitted once the slot is free, and gives its place back |
| OpEncoding.Digest | crates/sv-presence/src/op.rs:76-89 | the hasher is fed exactly the encoding |
| OpEncoding.DigestInjective | crates/sv-presence/src/op.rs:76-113 | equal digests mean the same kind, fields, order, values and shown flags, for any number of fields of any length |
| OpDecoding.RoundTrip | crates/sv-presence/src/op.rs:76-113 | a decoder of the documented layout reads every operation back from the hashed bytes |
| Checksums.DigitsOnly | crates/sv-patterns/src/validators.rs:84-94 | the loop yields the digits in order, or nothing if any other character occurs |
| Checksums.StripMeans | crates/sv-patterns/src/validators.rs:84-94 | digits, spaces and hyphens are accepted and nothing else, and the digits are kept in order |
| Checksums.ValidateLuhn | crates/sv-patterns/src/validators.rs:97-118 | decides the Luhn condition |
| Checksums.LuhnCheckDigit | crates/sv-patterns/src/validators.rs:97-118 | a number is completed by exactly one digit: what its payload, doubled at every second digit from the last one, lacks to a multiple of ten |
| Checksums.LuhnDetectsSubstitution | crates/sv-patterns/src/validators.rs:97-118 | changing one digit of a valid number is detected, at any length and with any separators |
| Checksums.LuhnMissesExactly09 | crates/sv-patterns/src/validators.rs:97-118 | swapping two neighbouring distinct digits is missed if and only if they are 0 and 9 |
| Checksums.TableIsDihedral | crates/sv-patterns/src/validators.rs:162-173 | the multiplication table is that of the dihedral group of order ten |
| Checksums.DihedralAssociates | crates/sv-patterns/src/validators.rs:162-173 | that product is associative |
| Checksums.TableIsPermuted | crates/sv-patterns/src/validators.rs:174-184 | row i mod 8 of the permutation table is i steps of one permutation, for every i |
| Checksums.ValidateVerhoeff | crates/sv-patterns/src/validators.rs:160-196 | the table-driven loop decides the group-theoretic Verhoeff condition |
| Checksums.VerhoeffCheckDigit | crates/sv-patterns/src/validators.rs:160-196 | a number is completed by exactly one digit: the group inverse of its payload, turned by place from the last digit on |
| Checksums.VerhoeffExample | crates/sv-patterns/src/validators.rs:160-196 | of the digits after 236 exactly 3 is accepted |
| Checksums.VerhoeffDetectsSubstitution | crates/sv-patterns/src/validators.rs:160-196 | changing one digit of a valid number is detected at any length |
| Checksums.VerhoeffDetectsSwap | crates/sv-patterns/src/validators.rs:160-196 | swapping two neighbouring distinct digits is detected at every place, across the wrap of the table |
| Iban.ValidateIban | crates/sv-patterns/src/validators.rs:122-157 | the streaming remainder is the whole letter-expanded number modulo 97 |
| Iban.IbanCheckDigits | crates/sv-patterns/src/validators.rs:122-157 | the check digits of an account are determined modulo 97: what is left of 98 when the country code is moved behind the account number, expanded, and followed by two zeros |
| Iban.IbanExample | crates/sv-patterns/src/validators.rs:122-157 | for one account, of which the tests give the check digits, no other two digits are accepted |
| Iban.IbanDetectsSubstitution | crates/sv-patterns/src/validators.rs:122-157 | replacing a digit by another digit or a letter by another letter makes an accepted IBAN rejected |
| Iban.IbanDetectsSwap | crates/sv-patterns/src/validators.rs:122-157 | so does swapping two neighbouring distinct digits after the first four characters |
| Calendar.ConversionCounts | apps/cli/src/scan_command.rs:225-236 | the conversion agrees with counting years and months, for every day number |
| Calendar.EpochIsDayZero | apps/cli/src/scan_command.rs:225-236 | day 0 is 1970-01-01 |
| Calendar.ConversionIsDate | apps/cli/src/scan_command.rs:225-236 | the result is always a valid proleptic Gregorian date |
| Calendar.ConversionAdvances | apps/cli/src/scan_command.rs:225-236 | the next day number is the next calendar day, across months, leap years, centuries and eras |

## Left out

- Reads that fail: opening and reading files always works; only keychain reads can be refused.
- Malformed JSON, wrong file types, symlinks, permissions and temporary files of the vault; malformed lines and checkpoints of the audit log are modelled.
- Containers, their modes and name validation; files are addressed by container and name.
- Legacy keyring and manifest migration, identity schema 1, `retire_below`, agents and tokens.
- Cross-process locks: every operation of a vault or an audit log runs alone, as its lock enforces.
- KeyRotation.RotateKey: a 32-bit version overflow is refused before anything is written, as in the code; the increment in the keyring itself wraps in the model and would panic in a debug build.
- Runs.Run: ends at a vault that is outside the invariant though its keyring opens: stranded, with a lost write, or with the journal of a rotation replaced. `Runs.RotateThenRecover`, `RecoveryUnlock.StrandedPhrase` and the lemmas of `RotationLimits` say what follows.
- RotationLimits.StrandedForGood: speaks of the keyring; the rotation of a stranded vault itself is not run, because the contracts of rotation start from vaults at rest.
- RotationLimits.LostBlocksRollback: speaks of the lost file and the keyring; the later rotation and its unlocks are not run, for the same reason.
- AuditSlots.EnsureAudit: a ready slot stands for a settled log, as a bootstrap leaves it; events recorded later are part of the audit model only.
- Windows file replacement in two renames, and directory syncs that are no-ops elsewhere.
- Line contents of audit events beyond the redaction of container and file name.
- The order in which a waiting call polls deadline, slot and result: a fired signal wins, and of the others any that is ready may, so every theorem covers the code's order and more.
- The 64-bit attempt counter of the presence coordinator does not wrap, and its semaphore is never closed.
- Native presence prompts and the text shown in them.
- Checksums.ValidateLuhn: the 32-bit running total does not wrap, because that would need hundreds of millions of digits.
- Iban.ValidateIban: lengths are counted in characters; the code counts bytes, which differs only for candidates that both reject.
- Calendar.CivilFromDays: 64-bit overflow near the ends of the day range.
- The other validators, the scanner, the brokers and the user interfaces: they would add only easy members.
