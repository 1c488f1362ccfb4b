/** The durable state of a vault: the files under its root and its slots in the
OS keychain, the invariant that every reachable state satisfies, and the one
primitive through which the code changes it. */
module VaultDisk {
  import opened Crypto
  import opened Effects
  import opened Keyring

  type Bytes = seq<bv8>

  const LIFECYCLE_AAD := "sv-lifecycle-phrase-v1"
  const MATERIAL_WRAP_CONTEXT := "sv-transit-wrap-v1"
  const AUDIT_CONTEXT := "sv-audit-hmac-v1"
  const IDENTITY_AAD := "sv-identity-root-v2"
  const RECOVERY_AAD := "sv-recovery-v1"
  const MIN_PASSPHRASE_CHARS: nat := 16

  // ---- the files ----------------------------------------------------------------

  datatype FileId = FileId(container: string, name: string)

  /** A data file: the DEK version in its header and the sealed content. */
  datatype Envelope = Envelope(version: nat, box: Sealed<Bytes>)

  function AadFor(f: FileId): string { f.container + "/" + f.name }

  /** One transit key, signing seed or brokered secret; `clear` is what the
  store keeps in the clear beside it. */
  datatype Material = Material(name: string, clear: Bytes, box: Sealed<Bytes>)

  datatype StoreId = Transit | Signing | Brokers

  function StoreAad(id: StoreId): string {
    match id
    case Transit => "sv-transit-key-v1"
    case Signing => "sv-signing-key-v1"
    case Brokers => "sv-broker-secret-v1"
  }

  /** The three material stores; a missing file reads as an empty store. */
  datatype Stores = Stores(transit: seq<Material>, signing: seq<Material>, brokers: seq<Material>) {
    function Get(id: StoreId): seq<Material> {
      match id
      case Transit => transit
      case Signing => signing
      case Brokers => brokers
    }

    function Set(id: StoreId, entries: seq<Material>): Stores {
      match id
      case Transit => this.(transit := entries)
      case Signing => this.(signing := entries)
      case Brokers => this.(brokers := entries)
    }
  }

  /** The recovery bundle: a DEK sealed under a key derived from the phrase. */
  datatype Bundle = Bundle(version: Option<nat>, salt: nat, box: Sealed<Key>)

  datatype Custody = OsKeychain | Passphrase | Recovery

  /** A keychain credential: the encoding of a KEK, or text that is none. */
  datatype Credential = Encoded(kek: Key) | Garbage(text: string)

  datatype Fingerprint = Fingerprint(of: Credential)

  datatype Journal =
    | Bootstrap(custody: Custody, salt: Option<nat>, fingerprint: Option<Fingerprint>, phrase: Option<Sealed<Secret>>)
    | ChangePassphrase(oldSalt: nat, newSalt: nat)
    | MoveToKeychain
    | Rotate(oldVersion: nat, newVersion: nat, backup: Bundle)

  /** Creating the audit log writes the empty active file, then the checkpoint. */
  datatype AuditSlot = NoLog | EmptyActive | Ready(key: Key)

  /** How opening or creating the audit log under `key` may change its slot. */
  ghost predicate SlotStep(slot: AuditSlot, now: AuditSlot, key: Key) {
    now == slot || (!slot.Ready? && (now == EmptyActive || now == Ready(key)))
  }

  datatype Disk = Disk(
    keyring: Option<KeyringFile>,
    staged: Option<KeyringFile>,
    salt: Option<nat>,
    journal: Option<Journal>,
    recovery: Option<Bundle>,
    identity: Option<Sealed<Key>>,
    stores: Stores,
    /** the identity root whose derived key authenticates the manifest */
    manifest: Option<Key>,
    files: map<FileId, Envelope>,
    audit: AuditSlot,
    scoped: Option<Credential>,
    legacy: Option<Credential>)

  // ---- what the vault holds -----------------------------------------------------

  datatype Plain = Plain(name: string, clear: Bytes, secret: Bytes)

  /** Everything a vault keeps for its owner, in the clear. */
  datatype Contents = Contents(
    files: map<FileId, Bytes>,
    identity: Option<Key>,
    transit: seq<Plain>,
    signing: seq<Plain>,
    brokers: seq<Plain>)

  function PlainFiles(files: map<FileId, Envelope>): map<FileId, Bytes> {
    map f | f in files :: files[f].box.plain
  }

  function PlainStore(entries: seq<Material>): seq<Plain> {
    seq(|entries|, i requires 0 <= i < |entries| => Plain(entries[i].name, entries[i].clear, entries[i].box.plain))
  }

  function ContentsOf(d: Disk): Contents {
    Contents(PlainFiles(d.files), if d.identity.Some? then Some(d.identity.value.plain) else None,
             PlainStore(d.stores.transit), PlainStore(d.stores.signing), PlainStore(d.stores.brokers))
  }

  // ---- who can open it ----------------------------------------------------------

  function WrapKey(dek: Key): Key { Subkey(dek, MATERIAL_WRAP_CONTEXT) }

  function AuditKey(identityRoot: Key): Key { Subkey(identityRoot, AUDIT_CONTEXT) }

  predicate BoxUnder<T>(box: Sealed<T>, key: Key, aad: string) {
    box.key == key && box.aad == aad
  }

  predicate IdentityUnder(identity: Option<Sealed<Key>>, wrap: Key) {
    identity.Some? && BoxUnder(identity.value, wrap, IDENTITY_AAD)
  }

  predicate StoreUnder(entries: seq<Material>, id: StoreId, wrap: Key) {
    forall i :: 0 <= i < |entries| ==> BoxUnder(entries[i].box, wrap, StoreAad(id))
  }

  predicate StoresUnder(stores: Stores, wrap: Key) {
    && StoreUnder(stores.transit, Transit, wrap)
    && StoreUnder(stores.signing, Signing, wrap)
    && StoreUnder(stores.brokers, Brokers, wrap)
  }

  predicate FilesUnder(files: map<FileId, Envelope>, version: nat, dek: Key) {
    forall f :: f in files ==> files[f].version == version && BoxUnder(files[f].box, dek, AadFor(f))
  }

  predicate BundleFor(bundle: Option<Bundle>, version: nat, dek: Key) {
    && bundle.Some?
    && bundle.value.version == Some(version)
    && bundle.value.box.plain == dek
    && bundle.value.box.aad == RECOVERY_AAD
    && bundle.value.box.key.Derived?
    && bundle.value.box.key.secret.Phrase?
    && bundle.value.box.key.salt == bundle.value.salt
  }

  /** The KEK is derived from the salt on disk: a passphrase opens the vault. */
  predicate PassphraseSide(kr: KeyringFile, salt: Option<nat>)
    requires KeyringOk(kr)
  {
    salt.Some? && KekOf(kr).Derived? && KekOf(kr).salt == salt.value
  }

  predicate Held(scoped: Option<Credential>, legacy: Option<Credential>, kek: Key) {
    scoped == Some(Encoded(kek)) || legacy == Some(Encoded(kek))
  }

  // ---- the invariant ------------------------------------------------------------

  /** A directory no vault has been created in. */
  predicate Empty(d: Disk) {
    && d.keyring.None? && d.staged.None? && d.salt.None? && d.recovery.None? && d.identity.None?
    && d.manifest.None? && d.files == map[] && d.stores == Stores([], [], []) && d.audit.NoLog?
  }

  /** Everything is sealed under the active DEK, which is the newest one; the
  recovery bundle holds that same DEK under its version. */
  predicate Core(d: Disk) {
    && d.keyring.Some? && KeyringOk(d.keyring.value) && Latest(d.keyring.value)
    && var kr := d.keyring.value;
    var dek := ActiveDek(kr);
    && IdentityUnder(d.identity, WrapKey(dek))
    && StoresUnder(d.stores, WrapKey(dek))
    && FilesUnder(d.files, kr.active, dek)
    && BundleFor(d.recovery, kr.active, dek)
    && d.manifest == Some(d.identity.value.plain)
  }

  predicate AuditReady(d: Disk) {
    d.identity.Some? && d.audit == Ready(AuditKey(d.identity.value.plain))
  }

  predicate SaltOk(d: Disk)
    requires d.keyring.Some? && KeyringOk(d.keyring.value)
  {
    d.salt.Some? ==> PassphraseSide(d.keyring.value, d.salt)
  }

  /** A vault at rest. */
  predicate Settled(d: Disk) {
    Core(d) && AuditReady(d) && SaltOk(d)
  }

  /** Nothing is pending and the keyring is in order, whatever is under its DEKs. */
  predicate Loose(d: Disk) {
    d.journal.None? && d.keyring.Some? && KeyringOk(d.keyring.value)
  }

  /** Everything is under the active DEK, though it need not be the newest one. */
  ghost predicate Based(d: Disk) {
    && Loose(d) && AuditReady(d) && SaltOk(d)
    && var dek := ActiveDek(d.keyring.value);
    && IdentityUnder(d.identity, WrapKey(dek)) && StoresUnder(d.stores, WrapKey(dek))
    && FilesUnder(d.files, d.keyring.value.active, dek) && BundleFor(d.recovery, d.keyring.value.active, dek)
    && d.manifest == Some(d.identity.value.plain)
  }

  /** Nothing is pending, and the recovery bundle is that of the version after the
  active one unless everything is under the active DEK. */
  ghost predicate Adrift(d: Disk) {
    && Loose(d) && d.recovery.Some?
    && (Based(d) || d.recovery.value.version == Some(d.keyring.value.active + 1))
  }

  /** Bootstrap before its phrase is journalled: nothing of value exists yet. */
  predicate Starting(d: Disk, j: Journal) {
    && j.Bootstrap? && j.phrase.None? && !j.custody.Recovery?
    && d.files == map[] && d.stores == Stores([], [], []) && d.audit.NoLog?
    && (j.custody.OsKeychain? ==> j.fingerprint.Some?)
  }

  /** Bootstrap once its phrase is journalled: only the audit log is missing. */
  predicate Finishing(d: Disk, j: Journal) {
    && j.Bootstrap? && j.phrase.Some? && Core(d) && SaltOk(d)
    && (d.audit.Ready? ==> AuditReady(d))
    && match j.custody {
         case Passphrase => d.salt.Some? && j.salt == d.salt
         case OsKeychain => d.salt.None?
         case Recovery => false
       }
  }

  /** The journalled phrase opens under the vault's KEK and is the bundle's. */
  ghost predicate PhraseKept(d: Disk, j: Journal)
    requires Finishing(d, j)
  {
    && BoxUnder(j.phrase.value, KekOf(d.keyring.value), LIFECYCLE_AAD)
    && d.recovery.value.box.key.secret == j.phrase.value.plain
  }

  predicate StagedTwin(d: Disk)
    requires d.keyring.Some?
  {
    d.staged.Some? ==> Twin(d.staged.value, d.keyring.value)
  }

  /** A passphrase change in progress: the live keyring matches the salt, or the
  salt is already the new one and the staged keyring matches it; never both. */
  predicate Changing(d: Disk, oldSalt: nat, newSalt: nat) {
    && Core(d) && AuditReady(d) && oldSalt != newSalt && StagedTwin(d)
    && (|| (&& (d.salt == Some(oldSalt) || d.salt == Some(newSalt)) && PassphraseSide(d.keyring.value, d.salt)
            && (d.staged.Some? ==> !PassphraseSide(d.staged.value, d.salt)))
        || (&& d.salt == Some(newSalt) && PassphraseSide(d.keyring.value, Some(oldSalt))
            && d.staged.Some? && PassphraseSide(d.staged.value, d.salt)))
  }

  /** A keychain move in progress. */
  predicate Moving(d: Disk) {
    && Core(d) && AuditReady(d) && StagedTwin(d)
    && (|| PassphraseSide(d.keyring.value, d.salt)
        || (d.staged.None? && Held(d.scoped, d.legacy, KekOf(d.keyring.value))))
  }

  // ---- rotation in progress -------------------------------------------------------

  predicate IdentityUnderEither(identity: Option<Sealed<Key>>, a: Key, b: Key) {
    IdentityUnder(identity, a) || IdentityUnder(identity, b)
  }

  predicate StoreUnderEither(entries: seq<Material>, id: StoreId, a: Key, b: Key) {
    forall i :: 0 <= i < |entries| ==>
                  BoxUnder(entries[i].box, a, StoreAad(id)) || BoxUnder(entries[i].box, b, StoreAad(id))
  }

  predicate StoresUnderEither(stores: Stores, a: Key, b: Key) {
    && StoreUnderEither(stores.transit, Transit, a, b)
    && StoreUnderEither(stores.signing, Signing, a, b)
    && StoreUnderEither(stores.brokers, Brokers, a, b)
  }

  predicate FilesUnderKeys(files: map<FileId, Envelope>, keys: map<nat, Key>, a: nat, b: nat) {
    forall f :: f in files ==>
                  && (files[f].version == a || files[f].version == b)
                  && files[f].version in keys
                  && BoxUnder(files[f].box, keys[files[f].version], AadFor(f))
  }

  /** The keyring of a rotation from `prior` to its successor. */
  predicate RotatingKeyring(kr: KeyringFile, prior: nat) {
    && KeyringOk(kr) && prior in Deks(kr.entries)
    && (kr.active == prior || kr.active == prior + 1)
    && forall v :: v in Deks(kr.entries) ==> v <= prior + 1
  }

  /** Everything is under the old DEK or, while the keyring has it, under the
  new one; `backup` is the recovery bundle of the old DEK. */
  predicate Rotating(d: Disk, prior: nat, backup: Bundle) {
    && d.keyring.Some? && RotatingKeyring(d.keyring.value, prior) && SaltOk(d)
    && var deks := Deks(d.keyring.value.entries);
    var a := deks[prior];
    var b := if prior + 1 in deks then deks[prior + 1] else a;
    && IdentityUnderEither(d.identity, WrapKey(a), WrapKey(b))
    && StoresUnderEither(d.stores, WrapKey(a), WrapKey(b))
    && FilesUnderKeys(d.files, deks, prior, prior + 1)
    && BundleFor(Some(backup), prior, a)
    && (d.recovery == Some(backup) || (prior + 1 in deks && BundleFor(d.recovery, prior + 1, b)))
    && d.manifest == Some(d.identity.value.plain)
    && AuditReady(d)
  }

  /** What holds of every reachable state of the disk. */
  predicate Inv(d: Disk) {
    match d.journal
    case None => Empty(d) || Settled(d)
    case Some(j) =>
      match j
      case Bootstrap(_, _, _, phrase) => if phrase.None? then Starting(d, j) else Finishing(d, j)
      case ChangePassphrase(oldSalt, newSalt) => Changing(d, oldSalt, newSalt)
      case MoveToKeychain => Moving(d)
      case Rotate(prior, next, backup) => next == prior + 1 && Rotating(d, prior, backup)
  }

  /** A rotation is journalled and no key at all opens the keyring. */
  ghost predicate LockedOut(d: Disk) {
    && d.journal.Some? && d.journal.value.Rotate? && d.journal.value.newVersion == d.journal.value.oldVersion + 1
    && d.keyring.Some? && forall kek :: Load(d.keyring.value, kek).None?
  }

  /** A keychain move is journalled whose keyring is already under the keychain's
  KEK, and the keychain holds that KEK no longer. */
  predicate Severed(d: Disk) {
    && d.journal == Some(MoveToKeychain) && Core(d) && AuditReady(d) && d.staged.None?
    && !PassphraseSide(d.keyring.value, d.salt) && !Held(d.scoped, d.legacy, KekOf(d.keyring.value))
  }

  /** No credential opens the vault. */
  ghost predicate Stuck(d: Disk) {
    LockedOut(d) || Severed(d)
  }

  ghost predicate Sound(d: Disk) {
    Inv(d) || Stuck(d)
  }

  lemma StuckIsOutside(d: Disk)
    requires Stuck(d)
    ensures !Inv(d)
  {
    if Inv(d) && LockedOut(d) { LoadOpens(d.keyring.value, KekOf(d.keyring.value)); }
  }

  // ---- changing the disk ----------------------------------------------------------

  /** The OS keychain answers, answers but refuses to release the vault's
  credentials, or does not answer. */
  datatype Access = Readable | Denied | Unavailable

  /** A vault root directory and the machine it lives on. `fates` is an
  arbitrary list chosen by the environment, one fate for each durable step to
  come; when it is used up every step succeeds. */
  class Root {
    var disk: Disk
    var fates: seq<Fate>
    var access: Access

    constructor (disk: Disk)
      ensures this.disk == disk && fates == [] && access == Readable
    {
      this.disk, this.fates, this.access := disk, [], Readable;
    }

    /** One atomic replace, rename, removal or keychain store. */
    method Commit(next: Disk) returns (r: Io)
      modifies this
      ensures r.Done? ==> disk == next
      ensures disk == old(disk) || disk == next
      ensures access == old(access)
      ensures fates == if old(fates) == [] then [] else old(fates)[1..]
      ensures old(fates) == [] ==> r.Done?
      ensures r == Reports(NextFate(old(fates))) && fates == After(old(fates), 1)
      ensures disk == if TakesEffect(NextFate(old(fates))) then next else old(disk)
    {
      var fate := if fates == [] then Good else fates[0];
      assert fates != [] ==> fate == fates[0];
      fates := if fates == [] then [] else fates[1..];
      match fate
      case Good =>
        disk, r := next, Done;
      case Fail(late) =>
        if late { disk := next; }
        r := Failed;
      case Crash(late) =>
        if late { disk := next; }
        r := Crashed;
    }
  }
}
