/** The audit log of a new vault: what the lifecycle model keeps as one slot of
the disk is the directory that the audit model describes. */
module AuditSlots {
  import opened Crypto
  import opened Effects
  import VaultDisk
  import opened AuditChain
  import opened AuditVerify
  import opened AuditShapes
  import opened AuditLog
  import opened AuditRuns

  /** The slot value that stands for an audit directory. */
  ghost predicate Shows(d: Dir, slot: VaultDisk.AuditSlot) {
    match slot
    case NoLog => d == Dir(None, None, map[])
    case EmptyActive => d == Dir(None, Some(EMPTY), map[])
    case Ready(key) => LogOk(d, key) && Settled(d, State(d), key)
  }

  /** A directory shows at most one slot value. */
  lemma ShowsOne(d: Dir, a: VaultDisk.AuditSlot, b: VaultDisk.AuditSlot)
    requires Shows(d, a) && Shows(d, b)
    ensures a == b
  {
    if a.Ready? && b.Ready? {
      ShapedLoads(d, a.key);
      ShapedLoads(d, b.key);
    }
  }

  /** The slot that shows what creating a log left. */
  lemma Created(slot: VaultDisk.AuditSlot, d: Dir, e: Dir, r: Outcome<()>, calm: bool, key: Key)
    returns (now: VaultDisk.AuditSlot)
    requires Shows(d, slot) && Unborn(d) && CreateSteps(d, e, r, calm, key)
    ensures Shows(e, now) && VaultDisk.SlotStep(slot, now, key) && (r.Ok? ==> now == VaultDisk.Ready(key))
  {
    GenesisSettles(d, key);
    now := if e == Born(d, key) then VaultDisk.Ready(key) else if e == d then slot else VaultDisk.EmptyActive;
  }

  /** Open the log, or create it where there is none: on the directory this does
  what the lifecycle model does to its slot, and success means that the log
  opens. */
  method EnsureAudit(store: Store, identityRoot: Key, ghost slot: VaultDisk.AuditSlot)
    returns (r: Outcome<()>, ghost now: VaultDisk.AuditSlot)
    requires Shows(store.dir, slot)
    modifies store
    ensures Shows(store.dir, now) && VaultDisk.SlotStep(slot, now, VaultDisk.AuditKey(identityRoot))
    ensures r.Ok? ==> now == VaultDisk.Ready(VaultDisk.AuditKey(identityRoot))
    ensures old(store.fates) == [] && (slot.Ready? ==> slot.key == VaultDisk.AuditKey(identityRoot)) ==> r.Ok?
    ensures slot.Ready? ==> store.dir == old(store.dir)
  {
    var key := VaultDisk.AuditKey(identityRoot);
    if store.dir.checkpoint.None? {
      r := Create(store, key);
      now := Created(slot, old(store.dir), store.dir, r, old(store.fates) == [], key);
    } else {
      r := OpenLog(store, key);
      now := slot;
    }
  }
}
