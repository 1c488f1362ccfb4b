/** An unlocked vault and the OS keychain lookups that unlock one. */
module Handles {
  import opened Crypto
  import opened Effects
  import opened Keyring
  import opened VaultDisk

  /** A live, unlocked vault: the DEKs in memory and the identity root. */
  class VaultHandle {
    var keys: map<nat, Key>
    var active: nat
    var custody: Custody
    var identityRoot: Key

    constructor (unwrapped: Unwrapped, custody: Custody, identityRoot: Key)
      ensures keys == unwrapped.keys && active == unwrapped.active
      ensures this.custody == custody && this.identityRoot == identityRoot
    {
      this.keys, this.active := unwrapped.keys, unwrapped.active;
      this.custody, this.identityRoot := custody, identityRoot;
    }
  }

  /** What the handle writes can be read back after the process is gone. */
  ghost predicate Coherent(h: VaultHandle, d: Disk)
    reads h
  {
    && d.keyring.Some? && KeyringOk(d.keyring.value) && d.identity.Some?
    && h.active == d.keyring.value.active
    && h.active in h.keys && h.keys[h.active] == ActiveDek(d.keyring.value)
    && h.identityRoot == d.identity.value.plain
  }

  /** The handle was opened on this vault; its DEKs may be out of date. */
  ghost predicate Attached(h: VaultHandle, d: Disk)
    reads h
  {
    && h.active in h.keys && d.keyring.Some? && d.identity.Some?
    && h.identityRoot == d.identity.value.plain
  }

  /** What a handle holds: its DEKs and the version it writes with. */
  type Hold = (map<nat, Key>, nat)

  /** The keyring has the DEK that the handle writes with, under its version. */
  ghost predicate Moored(hold: Hold, e: Disk) {
    && e.keyring.Some? && hold.1 in hold.0 && hold.1 in Deks(e.keyring.value.entries)
    && Deks(e.keyring.value.entries)[hold.1] == hold.0[hold.1]
  }

  /** A vault that a handle can be open on. */
  ghost predicate Serving(d: Disk) {
    || (&& Inv(d) && d.keyring.Some? && KeyringOk(d.keyring.value)
        && (d.journal.Some? ==> !d.journal.value.Bootstrap?))
    || Stuck(d)
  }

  /** At most the vault's own keychain slot differs, and the keychain holds the KEK
  if it did. */
  ghost predicate SameButScoped(d: Disk, e: Disk)
    requires d.keyring.Some? && KeyringOk(d.keyring.value)
  {
    && e == d.(scoped := e.scoped)
    && (Held(d.scoped, d.legacy, KekOf(d.keyring.value)) <==> Held(e.scoped, e.legacy, KekOf(d.keyring.value)))
  }

  /** The same credentials open the vault: one KEK, one salt, and the keychain holds
  the KEK if it did. */
  ghost predicate SameOpeners(d: Disk, e: Disk)
    requires d.keyring.Some? && KeyringOk(d.keyring.value)
  {
    && e.keyring.Some? && e.keyring.value.entries != [] && KekOf(e.keyring.value) == KekOf(d.keyring.value)
    && e.salt == d.salt
    && (Held(d.scoped, d.legacy, KekOf(d.keyring.value)) <==> Held(e.scoped, e.legacy, KekOf(d.keyring.value)))
  }

  function PassphraseKek(d: Disk, passphrase: Option<string>): Option<Key> {
    if passphrase.Some? && d.salt.Some? then Some(Derived(Words(passphrase.value), d.salt.value)) else None
  }

  function LoadIdentity(d: Disk, dek: Key): Option<Key> {
    if d.identity.None? then None else Open(WrapKey(dek), d.identity.value, IDENTITY_AAD)
  }

  /** The vault's own credential first, the legacy one only when that cannot
  serve; a legacy credential that opens the keyring is copied to the vault's
  slot. */
  method LoadKeychainUnwrapped(root: Root) returns (r: Outcome<(Key, Unwrapped)>)
    requires root.disk.keyring.Some?
    modifies root
    ensures root.disk == old(root.disk).(scoped := root.disk.scoped)
    ensures
      || root.disk.scoped == old(root.disk.scoped)
      || (root.disk.scoped.Some? && root.disk.scoped == root.disk.legacy)
    ensures r.Ok? ==>
              && root.access.Readable?
              && Held(old(root.disk.scoped), root.disk.legacy, r.value.0)
              && root.disk.scoped == Some(Encoded(r.value.0))
              && Load(root.disk.keyring.value, r.value.0) == Some(r.value.1)
    ensures KeyringOk(root.disk.keyring.value) ==>
              var kek := KekOf(root.disk.keyring.value);
              && (r.Ok? ==>
                    r.value == (kek, Unwrapped(Deks(root.disk.keyring.value.entries), root.disk.keyring.value.active)))
              && (Held(old(root.disk.scoped), root.disk.legacy, kek) <==> Held(root.disk.scoped, root.disk.legacy, kek))
              && (root.access.Readable? && Held(old(root.disk.scoped), root.disk.legacy, kek) ==>
                    && Takes(if old(root.disk.scoped) == Some(Encoded(kek)) then 0 else 1,
                             old(root.fates), root.fates, r.Ok?)
                    && (r.Err? <==> old(root.disk.scoped) != Some(Encoded(kek)) && NextFate(old(root.fates)).Fail?))
              && (!Held(old(root.disk.scoped), root.disk.legacy, kek) ==>
                    r.Err? && root.disk == old(root.disk) && root.fates == old(root.fates))
    ensures !root.access.Readable? ==> r.Err? && root.disk == old(root.disk) && root.fates == old(root.fates)
    ensures (forall kek :: Load(root.disk.keyring.value, kek).None?) ==> r.Err? && root.disk == old(root.disk)
    ensures Onward(old(root.fates), root.fates) && root.access == old(root.access)
  {
    if !root.access.Readable? {
      return Err;
    }
    var scoped, legacy := root.disk.scoped, root.disk.legacy;
    if scoped.Some? && scoped.value.Encoded? {
      var unwrapped := UnwrapKeyring(root.disk.keyring.value, scoped.value.kek);
      if unwrapped.Some? {
        return Ok((scoped.value.kek, unwrapped.value));
      }
    }
    if legacy.Some? && scoped != legacy && legacy.value.Encoded? {
      var unwrapped := UnwrapKeyring(root.disk.keyring.value, legacy.value.kek);
      if unwrapped.Some? {
        var io := root.Commit(root.disk.(scoped := legacy));
        if !io.Done? {
          return if io.Failed? then Err else Stopped;
        }
        return Ok((legacy.value.kek, unwrapped.value));
      }
    }
    r := Err;
  }

  /** Every keychain credential that encodes a key, the vault's own first. */
  function KekCandidates(scoped: Option<Credential>, legacy: Option<Credential>): (r: Option<seq<Key>>)
    ensures r.Some? ==> forall k :: k in r.value <==> Held(scoped, legacy, k)
    ensures r.None? ==> forall k :: !Held(scoped, legacy, k)
  {
    var a := if scoped.Some? && scoped.value.Encoded? then [scoped.value.kek] else [];
    var b := if legacy.Some? && legacy != scoped && legacy.value.Encoded? then [legacy.value.kek] else [];
    var undecodable := || (scoped.Some? && scoped.value.Garbage?)
                       || (legacy.Some? && legacy != scoped && legacy.value.Garbage?);
    if a + b == [] && undecodable then None else Some(a + b)
  }
}
