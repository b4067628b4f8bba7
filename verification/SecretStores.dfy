/**
 * The encrypted secret store: a random store key seals every item under its id, and is itself
 * wrapped under the machine's key and, once enrolled, under the user's passphrase.
 */
module SecretStores {
  import opened Wrappers
  import opened Utf8
  import opened Sealing

  type Attributes = map<string, string>

  datatype StoredItem = StoredItem(
    title: string, attributes: Attributes, contentType: string, created: nat, modified: nat, sealed: Sealed)

  datatype StoreFile = StoreFile(
    version: nat, created: nat, kdf: Option<KdfParams>,
    machineWrap: Option<Sealed>, passphraseWrap: Option<Sealed>,
    items: map<string, StoredItem>)

  const EMPTY_FILE := StoreFile(0, 0, None, None, None, map[])

  const STORE_VERSION := 2
  const ARGON2_M_COST_KIB := 64 * 1024
  const ARGON2_T_COST := 3
  const ARGON2_P_COST := 1

  // ---- the disk ----------------------------------------------------------------------------

  /** What a path holds. A torn file is some bytes that are not a whole store. */
  datatype Content = Missing | Blank | Torn | Full(file: StoreFile)

  /** A file as programs see it, and whether what they see has reached the platter. */
  datatype DiskFile = DiskFile(content: Content, synced: bool)

  /**
   * The store path and the temporary path, and what the store path named when the directory last
   * reached the platter. Syncing a file takes earlier changes of its directory along.
   */
  datatype DiskState = DiskState(store: DiskFile, platter: DiskFile, temp: DiskFile)

  function Wrote(d: DiskState, content: Content): DiskState {
    d.(temp := DiskFile(content, false))
  }

  function Synced(d: DiskState): DiskState {
    d.(temp := d.temp.(synced := true), platter := d.store)
  }

  function Renamed(d: DiskState): DiskState {
    d.(store := d.temp, temp := DiskFile(Missing, true))
  }

  /** How persisting goes: how many partial writes it takes, and how many steps the disk carries out. */
  datatype Io = Io(writes: nat, steps: nat)

  function StepsToSync(writes: nat): nat {
    writes + 4
  }

  function StepsNeeded(writes: nat): nat {
    StepsToSync(writes) + 1
  }

  predicate Completes(io: Io) {
    io.steps >= StepsNeeded(io.writes)
  }

  /**
   * The disk after the first `n` steps of persisting: make the directory, create the temporary
   * file empty, write it piece by piece, finish it, sync it, rename it over the store.
   */
  function AfterSteps(d: DiskState, file: StoreFile, writes: nat, n: nat): DiskState {
    if n < 2 then d
    else if n == 2 then Wrote(d, Blank)
    else if n < 3 + writes then Wrote(d, Torn)
    else if n < StepsToSync(writes) then Wrote(d, Full(file))
    else if n < StepsNeeded(writes) then Synced(Wrote(d, Full(file)))
    else Renamed(Synced(Wrote(d, Full(file))))
  }

  /** What a power loss leaves of content that had not reached the platter. */
  datatype Kept = Nothing | Part | All

  /** How a power loss goes: what it leaves of unsynced content, and whether the last rename is kept. */
  datatype Fate = Fate(kept: Kept, renamed: bool)

  function Surviving(e: DiskFile, kept: Kept): Content {
    if e.synced || e.content.Missing? || kept.All? then e.content else if kept.Nothing? then Blank else Torn
  }

  /** What the store path holds when the power comes back. */
  function Crashed(d: DiskState, fate: Fate): Content {
    Surviving(if fate.renamed then d.store else d.platter, fate.kept)
  }

  // ---- what each operation does to the file ------------------------------------------------

  datatype StoreError = UnreadableStore | CannotUnwrap(cause: SealError) | CannotDecrypt(cause: SealError) | IoError

  datatype Fetched = Fetched(file: StoreFile, key: Key)

  /** Opening what a path holds: parse it, then unwrap the store key or mint a new one. */
  function OpenContent(content: Content, ikm: Bytes, freshKey: Key, now: nat, nonce: nat): Result<Fetched, StoreError> {
    if content.Torn? then Failure(UnreadableStore)
    else
      var file := if content.Full? then content.file else EMPTY_FILE;
      match file.machineWrap
      case Some(wrapped) =>
        (match UnwrapKey(MachineKek(ikm), wrapped, MACHINE_SLOT)
         case Success(key) => Success(Fetched(file, key))
         case Failure(e) => Failure(CannotUnwrap(e)))
      case None =>
        Success(Fetched(
          file.(version := STORE_VERSION, created := now,
                machineWrap := Some(WrapKey(MachineKek(ikm), freshKey, MACHINE_SLOT, nonce))),
          freshKey))
  }

  function SetIn(file: StoreFile, key: Key, id: string, entry: Entry, nonce: nat): StoreFile {
    var created := if id in file.items then file.items[id].created else entry.now;
    file.(items := file.items[id := StoredItem(
      entry.title, entry.attributes, entry.contentType, created, entry.now,
      Seal(key, id, Value(entry.value), nonce))])
  }

  function DeleteFrom(file: StoreFile, id: string): StoreFile {
    file.(items := file.items - {id})
  }

  function Enrolled(
    file: StoreFile, key: Key, ikm: Bytes, passphrase: string, freshSalt: Bytes, nonce: nat): StoreFile
  {
    var kdf := file.kdf.GetOr(KdfParams(freshSalt, ARGON2_M_COST_KIB, ARGON2_T_COST, ARGON2_P_COST));
    file.(passphraseWrap := Some(WrapKey(PassphraseKek(passphrase, kdf, ikm), key, PASSPHRASE_SLOT, nonce)),
          kdf := Some(kdf))
  }

  /** What the caller of `set` provides, with the time of the call. */
  datatype Entry = Entry(title: string, attributes: Attributes, contentType: string, value: Bytes, now: nat)

  function GetFrom(file: StoreFile, key: Key, id: string): Result<Option<Bytes>, StoreError> {
    if id !in file.items then Success(None)
    else
      match OpenSealed(key, id, file.items[id].sealed)
      case Success(Value(bytes)) => Success(Some(bytes))
      case Success(KeyBytes(_)) => Failure(CannotDecrypt(WrongLength))
      case Failure(e) => Failure(CannotDecrypt(e))
  }

  predicate Verifies(file: StoreFile, key: Key, ikm: Bytes, passphrase: string) {
    file.passphraseWrap.Some? && file.kdf.Some?
    && UnwrapKey(PassphraseKek(passphrase, file.kdf.value, ikm), file.passphraseWrap.value, PASSPHRASE_SLOT)
       == Success(key)
  }

  predicate Includes(attributes: Attributes, query: Attributes) {
    forall k :: k in query ==> k in attributes && attributes[k] == query[k]
  }

  function SearchIn(file: StoreFile, query: Attributes): set<string> {
    set id | id in file.items && Includes(file.items[id].attributes, query)
  }

  // ---- the program -------------------------------------------------------------------------

  /** The two paths persisting touches. */
  class Disk {
    var store: DiskFile
    var platter: DiskFile
    var temp: DiskFile

    constructor (store: Content, temp: Content)
      ensures State() == DiskState(DiskFile(store, true), DiskFile(store, true), DiskFile(temp, true))
    {
      this.store, this.platter, this.temp := DiskFile(store, true), DiskFile(store, true), DiskFile(temp, true);
    }

    function State(): DiskState
      reads this
    {
      DiskState(store, platter, temp)
    }

    method Write(content: Content)
      modifies this
      ensures State() == Wrote(old(State()), content)
    {
      temp := DiskFile(content, false);
    }

    method Sync()
      modifies this
      ensures State() == Synced(old(State()))
    {
      temp := temp.(synced := true);
      platter := store;
    }

    method Rename()
      modifies this
      ensures State() == Renamed(old(State()))
    {
      store := temp;
      temp := DiskFile(Missing, true);
    }
  }

  class SecretStore {
    const disk: Disk
    const machineIkm: Bytes
    var storeKey: Key
    var file: StoreFile

    /** Opening an existing store, or minting a fresh one and persisting it at once. */
    static method Open(machineIkm: Bytes, disk: Disk, freshKey: Key, now: nat, nonce: nat, io: Io)
      returns (r: Result<SecretStore, StoreError>)
      modifies disk
      ensures var fetched := OpenContent(old(disk.store.content), machineIkm, freshKey, now, nonce);
        if fetched.Failure? then r == Failure(fetched.error) && disk.State() == old(disk.State())
        else if old(disk.store.content).Missing? then
          disk.State() == AfterSteps(old(disk.State()), fetched.value.file, io.writes, io.steps)
          && (if Completes(io) then r.Success? else r == Failure(IoError))
        else
          disk.State() == old(disk.State()) && r.Success?
      ensures r.Success? ==>
        && fresh(r.value) && r.value.disk == disk && r.value.machineIkm == machineIkm
        && OpenContent(old(disk.store.content), machineIkm, freshKey, now, nonce)
           == Success(Fetched(r.value.file, r.value.storeKey))
    {
      if disk.store.content.Torn? {
        return Failure(UnreadableStore);
      }
      var file := if disk.store.content.Full? then disk.store.content.file else EMPTY_FILE;
      var key;
      match file.machineWrap {
        case Some(wrapped) =>
          var unwrapped := UnwrapKey(MachineKek(machineIkm), wrapped, MACHINE_SLOT);
          if unwrapped.Failure? {
            return Failure(CannotUnwrap(unwrapped.error));
          }
          key := unwrapped.value;
        case None =>
          key := freshKey;
          file := file.(version := STORE_VERSION, created := now,
                        machineWrap := Some(WrapKey(MachineKek(machineIkm), key, MACHINE_SLOT, nonce)));
      }
      var store := new SecretStore(machineIkm, disk, key, file);
      if store.file.version == STORE_VERSION && store.file.items == map[] && disk.store.content.Missing? {
        var ok := store.Persist(io);
        if !ok {
          return Failure(IoError);
        }
      }
      return Success(store);
    }

    constructor (machineIkm: Bytes, disk: Disk, storeKey: Key, file: StoreFile)
      ensures this.disk == disk && this.machineIkm == machineIkm
      ensures this.storeKey == storeKey && this.file == file
    {
      this.machineIkm, this.disk, this.storeKey, this.file := machineIkm, disk, storeKey, file;
    }

    /** Write a temporary file and rename it over the store; any step may fail or never happen. */
    method Persist(io: Io) returns (ok: bool)
      modifies disk
      ensures ok <==> Completes(io)
      ensures disk.State() == AfterSteps(old(disk.State()), file, io.writes, io.steps)
    {
      ok := false;
      if io.steps < 2 {
        return;
      }
      disk.Write(Blank);
      for i := 0 to io.writes
        invariant io.steps >= 2 + i
        invariant disk.State() == Wrote(old(disk.State()), if i == 0 then Blank else Torn)
      {
        if io.steps < 3 + i {
          return;
        }
        disk.Write(Torn);
      }
      if io.steps < 3 + io.writes {
        return;
      }
      disk.Write(Full(file));
      if io.steps < StepsToSync(io.writes) {
        return;
      }
      disk.Sync();
      if io.steps < StepsNeeded(io.writes) {
        return;
      }
      disk.Rename();
      ok := true;
    }

    method Set(id: string, entry: Entry, nonce: nat, io: Io) returns (ok: bool)
      modifies this`file, disk
      ensures file == SetIn(old(file), storeKey, id, entry, nonce)
      ensures ok <==> Completes(io)
      ensures disk.State() == AfterSteps(old(disk.State()), file, io.writes, io.steps)
    {
      var sealed := Seal(storeKey, id, Value(entry.value), nonce);
      var created := if id in file.items then file.items[id].created else entry.now;
      file := file.(items := file.items[id := StoredItem(
        entry.title, entry.attributes, entry.contentType, created, entry.now, sealed)]);
      ok := Persist(io);
    }

    method Delete(id: string, io: Io) returns (ok: bool)
      modifies this`file, disk
      ensures file == DeleteFrom(old(file), id)
      ensures ok <==> Completes(io)
      ensures disk.State() == AfterSteps(old(disk.State()), file, io.writes, io.steps)
    {
      file := file.(items := file.items - {id});
      ok := Persist(io);
    }

    method SetPassphrase(passphrase: string, freshSalt: Bytes, nonce: nat, io: Io) returns (ok: bool)
      modifies this`file, disk
      ensures file == Enrolled(old(file), storeKey, machineIkm, passphrase, freshSalt, nonce)
      ensures ok <==> Completes(io)
      ensures disk.State() == AfterSteps(old(disk.State()), file, io.writes, io.steps)
    {
      var kdf;
      match file.kdf {
        case Some(k) => kdf := k;
        case None => kdf := KdfParams(freshSalt, ARGON2_M_COST_KIB, ARGON2_T_COST, ARGON2_P_COST);
      }
      var kek := PassphraseKek(passphrase, kdf, machineIkm);
      file := file.(passphraseWrap := Some(WrapKey(kek, storeKey, PASSPHRASE_SLOT, nonce)));
      file := file.(kdf := Some(kdf));
      ok := Persist(io);
    }

    method Get(id: string) returns (r: Result<Option<Bytes>, StoreError>)
      ensures r == GetFrom(file, storeKey, id)
    {
      if id !in file.items {
        return Success(None);
      }
      var unsealed := OpenSealed(storeKey, id, file.items[id].sealed);
      match unsealed {
        case Failure(error) => r := Failure(CannotDecrypt(error));
        case Success(KeyBytes(_)) => r := Failure(CannotDecrypt(WrongLength));
        case Success(Value(bytes)) => r := Success(Some(bytes));
      }
    }

    method Search(query: Attributes) returns (ids: set<string>)
      ensures forall id :: id in ids <==> id in file.items && Includes(file.items[id].attributes, query)
    {
      ids := SearchIn(file, query);
    }

    method VerifyPassphrase(passphrase: string) returns (ok: bool)
      ensures ok <==> Verifies(file, storeKey, machineIkm, passphrase)
    {
      if file.passphraseWrap.None? || file.kdf.None? {
        return false;
      }
      var kek := PassphraseKek(passphrase, file.kdf.value, machineIkm);
      var unwrapped := UnwrapKey(kek, file.passphraseWrap.value, PASSPHRASE_SLOT);
      ok := unwrapped.Success? && unwrapped.value == storeKey;
    }
  }
}
