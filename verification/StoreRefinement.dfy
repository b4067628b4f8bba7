/**
 * The secret store refines a plain map. A vault is what the store means: the secrets by id and the
 * enrolled passphrase. The daemon holds one vault in memory and one on disk; failed or interrupted
 * writes move only the first, and reopening goes back to the second.
 */
module StoreRefinement {
  import opened Wrappers
  import opened Utf8
  import opened Sealing
  import opened SecretStores

  datatype Secret = Secret(
    title: string, attributes: Attributes, contentType: string, created: nat, modified: nat, value: Bytes)

  datatype Vault = Vault(secrets: map<string, Secret>, passphrase: Option<string>)

  const EMPTY_VAULT := Vault(map[], None)

  // ---- what a file means -------------------------------------------------------------------

  predicate SealedUnder(item: StoredItem, key: Key, id: string) {
    item.sealed.Sealed? && item.sealed.key == key && item.sealed.aad == id && item.sealed.plain.Value?
  }

  predicate ValidItems(items: map<string, StoredItem>, key: Key) {
    forall id :: id in items ==> SealedUnder(items[id], key, id)
  }

  predicate ValidWrap(wrap: Sealed, kdf: KdfParams, key: Key, ikm: Bytes) {
    wrap.Sealed? && wrap.aad == PASSPHRASE_SLOT && wrap.plain == KeyBytes(key)
    && wrap.key.Expanded? && wrap.key.ikm.Stretched?
    && wrap.key == PassphraseKek(wrap.key.ikm.passphrase, kdf, ikm)
  }

  /** Everything in the file belongs to this store key, and the machine's wrap yields it. */
  predicate ValidFile(file: StoreFile, key: Key, ikm: Bytes) {
    file.machineWrap.Some?
    && UnwrapKey(MachineKek(ikm), file.machineWrap.value, MACHINE_SLOT) == Success(key)
    && ValidItems(file.items, key)
    && (file.passphraseWrap.Some? ==>
          file.kdf.Some? && ValidWrap(file.passphraseWrap.value, file.kdf.value, key, ikm))
  }

  function SecretOf(item: StoredItem): Secret
    requires item.sealed.Sealed? && item.sealed.plain.Value?
  {
    Secret(item.title, item.attributes, item.contentType, item.created, item.modified, item.sealed.plain.bytes)
  }

  function VaultOf(file: StoreFile, key: Key, ikm: Bytes): Vault
    requires ValidFile(file, key, ikm)
  {
    Vault(map id | id in file.items :: SecretOf(file.items[id]),
          if file.passphraseWrap.Some? then Some(file.passphraseWrap.value.key.ikm.passphrase) else None)
  }

  // ---- runs --------------------------------------------------------------------------------

  /** A running daemon: its memory, and the disk. */
  datatype Daemon = Daemon(file: StoreFile, key: Key, disk: DiskState)

  datatype Op =
    | Set(id: string, entry: Entry, nonce: nat, io: Io)
    | Delete(id: string, io: Io)
    | Enroll(passphrase: string, freshSalt: Bytes, nonce: nat, io: Io)
    | Reopen(freshKey: Key, now: nat, nonce: nat)
    | PowerLoss(fate: Fate, freshKey: Key, now: nat, nonce: nat)

  function Rewritten(d: Daemon, file: StoreFile, io: Io): Daemon {
    Daemon(file, d.key, AfterSteps(d.disk, file, io.writes, io.steps))
  }

  /** A disk nothing is under way on. */
  function Settled(content: Content): DiskState {
    DiskState(DiskFile(content, true), DiskFile(content, true), DiskFile(Missing, true))
  }

  /** Opening what the store path holds; a path holding nothing is written at once. */
  function Reopened(d: Daemon, disk: DiskState, ikm: Bytes, freshKey: Key, now: nat, nonce: nat): Daemon {
    match OpenContent(disk.store.content, ikm, freshKey, now, nonce)
    case Success(fetched) =>
      Daemon(fetched.file, fetched.key,
             if disk.store.content.Missing? then AfterSteps(disk, fetched.file, 0, StepsNeeded(0)) else disk)
    case Failure(_) => d
  }

  /**
   * One operation. A write may stop after any of its steps, the daemon going on; it may be started
   * again on the disk as it is, or after a power loss on what that leaves.
   */
  function Step(d: Daemon, op: Op, ikm: Bytes): Daemon {
    match op
    case Set(id, entry, nonce, io) => Rewritten(d, SetIn(d.file, d.key, id, entry, nonce), io)
    case Delete(id, io) => Rewritten(d, DeleteFrom(d.file, id), io)
    case Enroll(p, salt, nonce, io) => Rewritten(d, Enrolled(d.file, d.key, ikm, p, salt, nonce), io)
    case Reopen(freshKey, now, nonce) => Reopened(d, d.disk, ikm, freshKey, now, nonce)
    case PowerLoss(fate, freshKey, now, nonce) =>
      Reopened(d, Settled(Crashed(d.disk, fate)), ikm, freshKey, now, nonce)
  }

  function Run(d: Daemon, ops: seq<Op>, ikm: Bytes): Daemon {
    if ops == [] then d else Step(Run(d, ops[..|ops| - 1], ikm), ops[|ops| - 1], ikm)
  }

  /** Content the daemon may meet at the store path: whole and its own, or none yet. */
  predicate Own(content: Content, key: Key, ikm: Bytes) {
    !content.Torn? && (content.Full? ==> ValidFile(content.file, key, ikm))
  }

  /** What the store path names has always reached the platter, now and before the last rename. */
  predicate ValidDisk(disk: DiskState, key: Key, ikm: Bytes) {
    disk.store.synced && disk.platter.synced
    && Own(disk.store.content, key, ikm) && Own(disk.platter.content, key, ikm)
    && (!disk.store.content.Full? ==> !disk.platter.content.Full?)
  }

  predicate Valid(d: Daemon, ikm: Bytes) {
    ValidFile(d.file, d.key, ikm) && ValidDisk(d.disk, d.key, ikm)
  }

  // ---- the same runs on plain maps ---------------------------------------------------------

  /** What is in memory, what is on disk, and what a power loss losing the last rename goes back to. */
  datatype Vaults = Vaults(live: Vault, durable: Vault, previous: Vault)

  function Written(v: Vaults, live: Vault, io: Io): Vaults {
    Vaults(live, if Completes(io) then live else v.durable,
           if io.steps >= StepsToSync(io.writes) then v.durable else v.previous)
  }

  function Put(v: Vault, id: string, entry: Entry): Vault {
    var created := if id in v.secrets then v.secrets[id].created else entry.now;
    v.(secrets := v.secrets[id :=
      Secret(entry.title, entry.attributes, entry.contentType, created, entry.now, entry.value)])
  }

  function PlainStep(v: Vaults, op: Op): Vaults {
    match op
    case Set(id, entry, _, io) => Written(v, Put(v.live, id, entry), io)
    case Delete(id, io) => Written(v, v.live.(secrets := v.live.secrets - {id}), io)
    case Enroll(p, _, _, io) => Written(v, v.live.(passphrase := Some(p)), io)
    case Reopen(_, _, _) => Vaults(v.durable, v.durable, v.previous)
    case PowerLoss(fate, _, _, _) =>
      var left := if fate.renamed then v.durable else v.previous;
      Vaults(left, left, left)
  }

  function PlainRun(v: Vaults, ops: seq<Op>): Vaults {
    if ops == [] then v else PlainStep(PlainRun(v, ops[..|ops| - 1]), ops[|ops| - 1])
  }

  function Held(content: Content, key: Key, ikm: Bytes): Vault
    requires Own(content, key, ikm)
  {
    if content.Full? then VaultOf(content.file, key, ikm) else EMPTY_VAULT
  }

  function Meaning(d: Daemon, ikm: Bytes): Vaults
    requires Valid(d, ikm)
  {
    Vaults(VaultOf(d.file, d.key, ikm), Held(d.disk.store.content, d.key, ikm),
           Held(d.disk.platter.content, d.key, ikm))
  }

  // ---- crash safety ------------------------------------------------------------------------

  /**
   * After any number of steps and any power loss the store path holds a whole file: the new one
   * exactly when the rename was reached and kept, else the old one, or until the sync what a power
   * loss beforehand would have left.
   */
  lemma {:induction false} StoredIsOldOrNew(d: DiskState, file: StoreFile, writes: nat, n: nat, fate: Fate)
    requires d.store.synced && d.platter.synced
    ensures Crashed(AfterSteps(d, file, writes, n), fate)
      == if n >= StepsNeeded(writes) && fate.renamed then Full(file)
         else if n >= StepsToSync(writes) || fate.renamed then d.store.content
         else d.platter.content
  {
  }

  /** A power loss after any step of persisting reopens to exactly the old or exactly the new vault. */
  lemma {:induction false} CrashSafe(d: DiskState, file: StoreFile, writes: nat, n: nat, fate: Fate, key: Key,
                                     ikm: Bytes, freshKey: Key, now: nat, nonce: nat)
    requires d.store.synced && d.store.content.Full? && ValidFile(d.store.content.file, key, ikm)
    requires d.platter == d.store && ValidFile(file, key, ikm)
    ensures var reopened := OpenContent(Crashed(AfterSteps(d, file, writes, n), fate), ikm, freshKey, now, nonce);
      reopened.Success? && reopened.value.key == key && ValidFile(reopened.value.file, key, ikm)
      && VaultOf(reopened.value.file, key, ikm)
         == (if n >= StepsNeeded(writes) && fate.renamed then VaultOf(file, key, ikm)
             else VaultOf(d.store.content.file, key, ikm))
  {
    StoredIsOldOrNew(d, file, writes, n, fate);
  }

  /**
   * The sync before the rename is what makes this so: a file renamed without it can be found torn,
   * and then no store opens.
   */
  lemma {:induction false} UnsyncedRenameIsUnsafe(d: DiskState, file: StoreFile, ikm: Bytes, freshKey: Key,
                                                  now: nat, nonce: nat)
    ensures OpenContent(Crashed(Renamed(Wrote(d, Full(file))), Fate(Part, true)), ikm, freshKey, now, nonce)
      == Failure(UnreadableStore)
  {
  }

  // ---- each operation refines its map counterpart ------------------------------------------

  lemma {:induction false} SetRefines(file: StoreFile, key: Key, ikm: Bytes, id: string, entry: Entry, nonce: nat)
    requires ValidFile(file, key, ikm)
    ensures ValidFile(SetIn(file, key, id, entry, nonce), key, ikm)
    ensures VaultOf(SetIn(file, key, id, entry, nonce), key, ikm) == Put(VaultOf(file, key, ikm), id, entry)
  {
  }

  lemma {:induction false} DeleteRefines(file: StoreFile, key: Key, ikm: Bytes, id: string)
    requires ValidFile(file, key, ikm)
    ensures ValidFile(DeleteFrom(file, id), key, ikm)
    ensures var v := VaultOf(file, key, ikm);
      VaultOf(DeleteFrom(file, id), key, ikm) == v.(secrets := v.secrets - {id})
  {
  }

  /** Rotation re-wraps the store key; no item changes. */
  lemma {:induction false} EnrollRefines(
    file: StoreFile, key: Key, ikm: Bytes, passphrase: string, salt: Bytes, nonce: nat)
    requires ValidFile(file, key, ikm)
    ensures var file' := Enrolled(file, key, ikm, passphrase, salt, nonce);
      ValidFile(file', key, ikm) && file'.items == file.items && file'.machineWrap == file.machineWrap
      && VaultOf(file', key, ikm) == VaultOf(file, key, ikm).(passphrase := Some(passphrase))
  {
  }

  /** Opening the store on a valid disk brings back what it holds. */
  lemma {:induction false} ReopenedRefines(
    d: Daemon, disk: DiskState, ikm: Bytes, freshKey: Key, now: nat, nonce: nat)
    requires ValidDisk(disk, d.key, ikm)
    ensures var d', durable := Reopened(d, disk, ikm, freshKey, now, nonce), Held(disk.store.content, d.key, ikm);
      Valid(d', ikm) && Meaning(d', ikm) == Vaults(durable, durable, Held(disk.platter.content, d.key, ikm))
      && (disk.store.content.Full? ==> d'.key == d.key && d'.file == disk.store.content.file && d'.disk == disk)
  {
    var d' := Reopened(d, disk, ikm, freshKey, now, nonce);
    if disk.store.content.Full? {
    } else {
      assert ValidFile(d'.file, d'.key, ikm);
      assert VaultOf(d'.file, d'.key, ikm) == EMPTY_VAULT;
    }
  }

  lemma {:induction false} RewriteRefines(d: Daemon, ikm: Bytes, file: StoreFile, io: Io)
    requires Valid(d, ikm) && ValidFile(file, d.key, ikm)
    ensures Valid(Rewritten(d, file, io), ikm)
    ensures Meaning(Rewritten(d, file, io), ikm) == Written(Meaning(d, ikm), VaultOf(file, d.key, ikm), io)
    ensures d.disk.store.content.Full? ==> Rewritten(d, file, io).disk.store.content.Full?
  {
  }

  lemma {:induction false} StepRefines(d: Daemon, op: Op, ikm: Bytes)
    requires Valid(d, ikm)
    ensures Valid(Step(d, op, ikm), ikm)
    ensures Meaning(Step(d, op, ikm), ikm) == PlainStep(Meaning(d, ikm), op)
  {
    match op {
      case Set(id, entry, nonce, io) =>
        SetRefines(d.file, d.key, ikm, id, entry, nonce);
        RewriteRefines(d, ikm, SetIn(d.file, d.key, id, entry, nonce), io);
      case Delete(id, io) =>
        DeleteRefines(d.file, d.key, ikm, id);
        RewriteRefines(d, ikm, DeleteFrom(d.file, id), io);
      case Enroll(p, salt, nonce, io) =>
        EnrollRefines(d.file, d.key, ikm, p, salt, nonce);
        RewriteRefines(d, ikm, Enrolled(d.file, d.key, ikm, p, salt, nonce), io);
      case Reopen(freshKey, now, nonce) =>
        ReopenedRefines(d, d.disk, ikm, freshKey, now, nonce);
      case PowerLoss(fate, freshKey, now, nonce) =>
        ReopenedRefines(d, Settled(Crashed(d.disk, fate)), ikm, freshKey, now, nonce);
    }
  }

  /** Refinement over every run, with writes cut short and power lost anywhere. */
  lemma {:induction false} RunRefines(d: Daemon, ops: seq<Op>, ikm: Bytes)
    requires Valid(d, ikm)
    ensures Valid(Run(d, ops, ikm), ikm)
    ensures Meaning(Run(d, ops, ikm), ikm) == PlainRun(Meaning(d, ikm), ops)
  {
    if ops == [] {
    } else {
      RunRefines(d, ops[..|ops| - 1], ikm);
      StepRefines(Run(d, ops[..|ops| - 1], ikm), ops[|ops| - 1], ikm);
    }
  }

  predicate KeepsRename(op: Op) {
    op.PowerLoss? ==> op.fate.renamed
  }

  /**
   * Once a store is on disk no run changes its key or takes it off the disk, unless a power loss
   * loses the very rename that first put it there.
   */
  lemma {:induction false} RunKeepsKey(d: Daemon, ops: seq<Op>, ikm: Bytes)
    requires Valid(d, ikm) && d.disk.store.content.Full?
    requires d.disk.platter.content.Full? || forall i :: 0 <= i < |ops| ==> KeepsRename(ops[i])
    ensures Run(d, ops, ikm).key == d.key && Run(d, ops, ikm).disk.store.content.Full?
    ensures d.disk.platter.content.Full? ==> Run(d, ops, ikm).disk.platter.content.Full?
  {
    if ops == [] {
    } else {
      var front, last := ops[..|ops| - 1], ops[|ops| - 1];
      RunKeepsKey(d, front, ikm);
      RunRefines(d, front, ikm);
      StepKeepsKey(Run(d, front, ikm), last, ikm);
    }
  }

  lemma {:induction false} StepKeepsKey(d: Daemon, op: Op, ikm: Bytes)
    requires Valid(d, ikm) && d.disk.store.content.Full? && (d.disk.platter.content.Full? || KeepsRename(op))
    ensures Step(d, op, ikm).key == d.key && Step(d, op, ikm).disk.store.content.Full?
    ensures d.disk.platter.content.Full? ==> Step(d, op, ikm).disk.platter.content.Full?
  {
    match op {
      case Set(_, _, _, _) =>
      case Delete(_, _) =>
      case Enroll(_, _, _, _) =>
      case Reopen(freshKey, now, nonce) =>
        ReopenedRefines(d, d.disk, ikm, freshKey, now, nonce);
      case PowerLoss(fate, freshKey, now, nonce) =>
        ReopenedRefines(d, Settled(Crashed(d.disk, fate)), ikm, freshKey, now, nonce);
    }
  }

  // ---- what a reader sees ------------------------------------------------------------------

  /** Reading gives back the value of the vault, except that a stored empty value cannot be opened. */
  lemma {:induction false} GetMeaning(file: StoreFile, key: Key, ikm: Bytes, id: string)
    requires ValidFile(file, key, ikm)
    ensures var secrets := VaultOf(file, key, ikm).secrets;
      GetFrom(file, key, id)
        == if id !in secrets then Success(None)
           else if secrets[id].value == [] then Failure(CannotDecrypt(TooShort))
           else Success(Some(secrets[id].value))
  {
  }

  lemma {:induction false} SearchMeaning(file: StoreFile, key: Key, ikm: Bytes, query: Attributes, id: string)
    requires ValidFile(file, key, ikm)
    ensures var secrets := VaultOf(file, key, ikm).secrets;
      id in SearchIn(file, query) <==> id in secrets && Includes(secrets[id].attributes, query)
  {
  }

  /** Exactly the enrolled passphrase verifies. */
  lemma {:induction false} VerifyMeaning(file: StoreFile, key: Key, ikm: Bytes, passphrase: string)
    requires ValidFile(file, key, ikm)
    ensures Verifies(file, key, ikm, passphrase) <==> VaultOf(file, key, ikm).passphrase == Some(passphrase)
  {
  }

  /** No item opens under another item's id. */
  lemma {:induction false} ItemOpensOnlyUnderItsId(file: StoreFile, key: Key, ikm: Bytes, id: string, other: string)
    requires ValidFile(file, key, ikm) && id in file.items
    ensures OpenSealed(key, other, file.items[id].sealed).Success?
      <==> other == id && VaultOf(file, key, ikm).secrets[id].value != []
  {
    assert SealedUnder(file.items[id], key, id);
  }

  /** Another machine's material opens nothing. */
  lemma {:induction false} WrongMachineFailsClosed(
    file: StoreFile, key: Key, ikm: Bytes, other: Bytes, freshKey: Key, now: nat, nonce: nat)
    requires ValidFile(file, key, ikm)
    ensures OpenContent(Full(file), other, freshKey, now, nonce).Success? <==> other == ikm
  {
  }

  // ---- histories ---------------------------------------------------------------------------

  /** The last thing a history says about an id: an entry, or nothing. */
  function LastSet(ops: seq<Op>, id: string): Option<Entry> {
    if ops == [] then None
    else
      match ops[|ops| - 1]
      case Set(i, entry, _, _) => if i == id then Some(entry) else LastSet(ops[..|ops| - 1], id)
      case Delete(i, _) => if i == id then None else LastSet(ops[..|ops| - 1], id)
      case _ => LastSet(ops[..|ops| - 1], id)
  }

  function LastEnrolled(ops: seq<Op>): Option<string> {
    if ops == [] then None
    else if ops[|ops| - 1].Enroll? then Some(ops[|ops| - 1].passphrase)
    else LastEnrolled(ops[..|ops| - 1])
  }

  /** No write stops short, and no power loss loses a rename. */
  predicate AllPersisted(ops: seq<Op>) {
    forall i :: 0 <= i < |ops| ==>
      match ops[i]
      case Reopen(_, _, _) => true
      case PowerLoss(fate, _, _, _) => fate.renamed
      case Set(_, _, _, io) => Completes(io)
      case Delete(_, io) => Completes(io)
      case Enroll(_, _, _, io) => Completes(io)
  }

  predicate Records(v: Vault, id: string, last: Option<Entry>) {
    if last.None? then id !in v.secrets
    else
      id in v.secrets && v.secrets[id].value == last.value.value
      && v.secrets[id].attributes == last.value.attributes
      && v.secrets[id].title == last.value.title && v.secrets[id].contentType == last.value.contentType
      && v.secrets[id].modified == last.value.now
  }

  lemma {:induction false} PlainRunRecords(ops: seq<Op>, id: string)
    requires AllPersisted(ops)
    ensures var v := PlainRun(Vaults(EMPTY_VAULT, EMPTY_VAULT, EMPTY_VAULT), ops);
      v.live == v.durable && Records(v.live, id, LastSet(ops, id)) && v.live.passphrase == LastEnrolled(ops)
  {
    if ops == [] {
    } else {
      PlainRunRecords(ops[..|ops| - 1], id);
    }
  }

  /** A daemon that has just opened a store path holding nothing. */
  predicate JustCreated(d: Daemon, ikm: Bytes) {
    Valid(d, ikm) && Meaning(d, ikm) == Vaults(EMPTY_VAULT, EMPTY_VAULT, EMPTY_VAULT)
  }

  lemma {:induction false} OpeningCreates(content: Content, ikm: Bytes, freshKey: Key, now: nat, nonce: nat, d: Daemon)
    requires content.Missing? || content.Blank?
    ensures JustCreated(Reopened(d, Settled(content), ikm, freshKey, now, nonce), ikm)
    ensures Reopened(d, Settled(content), ikm, freshKey, now, nonce).key == freshKey
  {
    ReopenedRefines(d, Settled(content), ikm, freshKey, now, nonce);
  }

  /**
   * After any run of sets, deletes, rotations, reopens and power losses from an empty store: a read gives the
   * last value set and not deleted (an empty one cannot be opened), a search finds exactly the
   * ids last set with the attributes asked for, and exactly the last passphrase enrolled verifies.
   */
  lemma {:induction false} StoreRefinesMap(
    d: Daemon, ops: seq<Op>, ikm: Bytes, id: string, query: Attributes, p: string)
    requires JustCreated(d, ikm) && AllPersisted(ops)
    ensures var now, last := Run(d, ops, ikm), LastSet(ops, id);
      && GetFrom(now.file, now.key, id)
         == (if last.None? then Success(None)
             else if last.value.value == [] then Failure(CannotDecrypt(TooShort))
             else Success(Some(last.value.value)))
      && (id in SearchIn(now.file, query) <==> last.Some? && Includes(last.value.attributes, query))
      && (Verifies(now.file, now.key, ikm, p) <==> LastEnrolled(ops) == Some(p))
  {
    RunRefines(d, ops, ikm);
    PlainRunRecords(ops, id);
    var now := Run(d, ops, ikm);
    GetMeaning(now.file, now.key, ikm, id);
    SearchMeaning(now.file, now.key, ikm, query, id);
    VerifyMeaning(now.file, now.key, ikm, p);
  }
}
