/**
 The phones a host is paired with, in memory and in the file that outlives the process. Reads and writes of
 that file may fail, a write before or after the old file is replaced.
 */
module DeviceTable {
  import opened Wrappers
  import opened Sets

  /** Scanner ids, in the order the maps keep them. */
  type Scanner = nat
  type Profile = nat
  /** The hexadecimal SHA-256 of a token, as bytes. */
  type Digest = seq<bv8>

  datatype Device = Device(deviceId: string, digest: Digest, profiles: seq<Profile>, pairedAt: nat, tls: bool)

  const DEVICE_STORE_VERSION: nat := 2

  /** A device as the file has it; the first version did not say whether the pairing was over TLS. */
  datatype Record = Record(deviceId: string, digest: Digest, profiles: seq<Profile>, pairedAt: nat, tls: Option<bool>)

  datatype File =
    | Missing
    | Garbage
    | Saved(version: nat, port: nat, hostId: string, records: map<Scanner, Record>)

  /** The file as it is worked on. */
  datatype Store = Store(version: nat, port: nat, hostId: string, devices: map<Scanner, Device>)

  const DEFAULT_STORE := Store(DEVICE_STORE_VERSION, 0, "", map[])

  function FromRecord(r: Record): Device {
    Device(r.deviceId, r.digest, r.profiles, r.pairedAt, r.tls == Some(true))
  }

  function ToRecord(d: Device): Record {
    Record(d.deviceId, d.digest, d.profiles, d.pairedAt, Some(d.tls))
  }

  function ToFile(store: Store): File {
    Saved(store.version, store.port, store.hostId, map s | s in store.devices :: ToRecord(store.devices[s]))
  }

  datatype WriteOutcome = Written | FailedBefore | FailedAfter

  /** How one operation's file accesses go. */
  datatype Faults = Faults(readFails: bool, asideFails: bool, write: WriteOutcome)

  const NO_FAULTS := Faults(false, false, Written)

  function FromRecords(records: map<Scanner, Record>): map<Scanner, Device> {
    map s | s in records :: FromRecord(records[s])
  }

  function LoadStore(file: File, readFails: bool): Option<Store> {
    match file
    case Missing => Some(DEFAULT_STORE)
    case Garbage => None
    case Saved(version, port, hostId, records) =>
      if readFails || version > DEVICE_STORE_VERSION then None
      else Some(Store(DEVICE_STORE_VERSION, port, hostId, FromRecords(records)))
  }

  /** What is written is read back whole. */
  lemma {:induction false} StoreReadsBack(store: Store)
    requires store.version == DEVICE_STORE_VERSION
    ensures LoadStore(ToFile(store), false) == Some(store)
  {
    var records := map s | s in store.devices :: ToRecord(store.devices[s]);
    forall s | s in store.devices
      ensures FromRecord(records[s]) == store.devices[s]
    {
      assert records[s] == ToRecord(store.devices[s]);
    }
    assert FromRecords(records) == store.devices;
  }

  // ----- The steps on values -----

  datatype State = State(file: File, paired: map<Scanner, Device>, hostId: string, port: nat)

  /** An unreadable file is moved out of the way, and an empty one stands for it. */
  function Reset(file: File, f: Faults): (r: (Store, File))
    ensures r.0.version == DEVICE_STORE_VERSION
  {
    match LoadStore(file, f.readFails)
    case Some(store) => (store, file)
    case None => (DEFAULT_STORE, if f.asideFails then file else Missing)
  }

  function Replaced(file: File, store: Store, write: WriteOutcome): File {
    if write == FailedBefore then file else ToFile(store)
  }

  function Persisted(st: State, paired: map<Scanner, Device>, f: Faults): File {
    var (store, file) := Reset(st.file, f);
    Replaced(file, store.(port := st.port, devices := paired), f.write)
  }

  datatype Event =
    | Pair(scanner: Scanner, device: Device, faults: Faults)
    | Forget(scanner: Scanner, faults: Faults)
    | Prune(restored: set<Scanner>, faults: Faults)
    | Restart(drawn: string, bound: nat, faults: Faults)

  function Retained(paired: map<Scanner, Device>, restored: set<Scanner>): map<Scanner, Device> {
    map s | s in paired && s in restored :: paired[s]
  }

  function Started(file: File, drawn: string, bound: nat, f: Faults): State {
    var (store, left) := Reset(file, f);
    var hostId := if store.hostId == "" then drawn else store.hostId;
    var changed := store.hostId == "" || store.port != bound;
    State(
      if changed then Replaced(left, store.(hostId := hostId, port := bound), f.write) else left,
      store.devices, hostId, bound)
  }

  /** The state after, and whether the call answers without an error. */
  function Step(st: State, e: Event): (State, bool) {
    match e
    case Pair(s, d, f) =>
      var paired := st.paired[s := d];
      var ok := f.write == Written;
      (st.(file := Persisted(st, paired, f), paired := if ok then paired else paired - {s}), ok)
    case Forget(s, f) =>
      if s !in st.paired then (st, true)
      else (st.(file := Persisted(st, st.paired - {s}, f), paired := st.paired - {s}), f.write == Written)
    case Prune(restored, f) =>
      var kept := Retained(st.paired, restored);
      if |kept| == |st.paired| then (st.(paired := kept), true)
      else (st.(file := Persisted(st, kept, f), paired := kept), f.write == Written)
    case Restart(drawn, bound, f) => (Started(st.file, drawn, bound, f), true)
  }

  /** The next start would find these phones and this port. */
  predicate Holds(file: File, paired: map<Scanner, Device>, port: nat) {
    var store := LoadStore(file, false);
    store.Some? && store.value.devices == paired && store.value.port == port
  }

  /** A file of a newer version is not read, and a start on it begins with no phone and a name of its own. */
  lemma {:induction false} ANewerFileIsNotRead(file: File, drawn: string, bound: nat, f: Faults)
    requires file.Saved? && file.version > 2
    ensures var st := Started(file, drawn, bound, f);
            && st.paired == map[] && st.hostId == drawn && st.port == bound
            && (f.write == FailedBefore ==> st.file == if f.asideFails then file else Missing)
  {
  }

  /** A start on a file that can be read has its phones, and its name unless it has none. */
  lemma {:induction false} AStartTakesTheFile(
    port: nat, hostId: string, records: map<Scanner, Record>, version: nat, drawn: string, bound: nat, f: Faults)
    requires version <= 2 && !f.readFails
    ensures var st := Started(Saved(version, port, hostId, records), drawn, bound, f);
            && st.paired.Keys == records.Keys && st.port == bound
            && (forall s | s in records ::
                  var r := records[s];
                  st.paired[s] == Device(r.deviceId, r.digest, r.profiles, r.pairedAt, r.tls == Some(true)))
            && st.hostId == if hostId == "" then drawn else hostId
  {
  }

  // ----- The operations as they run -----

  /** One process, and the file it leaves to the next. */
  class Host {
    var file: File
    var paired: map<Scanner, Device>
    var hostId: string
    var port: nat

    function Table(): State
      reads this
    {
      State(file, paired, hostId, port)
    }

    constructor (file: File, drawn: string, bound: nat, f: Faults)
      ensures Table() == Started(file, drawn, bound, f)
    {
      var left := file;
      var loaded := LoadStore(file, f.readFails);
      if loaded.None? && !f.asideFails {
        left := Missing;
      }
      var store := if loaded.Some? then loaded.value else DEFAULT_STORE;
      var changed := false;
      if store.hostId == "" {
        store := store.(hostId := drawn);
        changed := true;
      }
      if store.port != bound {
        store := store.(port := bound);
        changed := true;
      }
      if changed {
        left := Replaced(left, store, f.write);
      }
      this.file, paired, hostId, port := left, store.devices, store.hostId, bound;
    }

    method LoadOrReset(f: Faults) returns (store: Store)
      modifies this`file
      ensures (store, file) == Reset(old(file), f)
    {
      var loaded := LoadStore(file, f.readFails);
      if loaded.Some? {
        return loaded.value;
      }
      if !f.asideFails {
        file := Missing;
      }
      return DEFAULT_STORE;
    }

    method PersistPaired(f: Faults) returns (ok: bool)
      modifies this`file
      ensures file == Persisted(old(Table()), paired, f)
      ensures ok <==> f.write == Written
      ensures ok ==> Holds(file, paired, port)
    {
      var store := LoadOrReset(f);
      store := store.(port := port, devices := paired);
      StoreReadsBack(store);
      file := Replaced(file, store, f.write);
      return f.write == Written;
    }

    method StorePairedDevice(scanner: Scanner, device: Device, f: Faults) returns (ok: bool)
      modifies this
      ensures (Table(), ok) == Step(old(Table()), Pair(scanner, device, f))
      ensures paired == if ok then old(paired)[scanner := device] else old(paired) - {scanner}
      ensures ok <==> f.write == Written
      ensures ok ==> Holds(file, paired, port)
      ensures hostId == old(hostId) && port == old(port)
    {
      paired := paired[scanner := device];
      ok := PersistPaired(f);
      if !ok {
        paired := paired - {scanner};
      }
    }

    method ForgetDevice(scanner: Scanner, f: Faults) returns (ok: bool)
      modifies this
      ensures (Table(), ok) == Step(old(Table()), Forget(scanner, f))
      ensures paired == old(paired) - {scanner} && hostId == old(hostId) && port == old(port)
      ensures if scanner in old(paired) then (ok <==> f.write == Written) && (ok ==> Holds(file, paired, port))
              else ok && file == old(file)
    {
      ok := true;
      if scanner in paired {
        paired := paired - {scanner};
        ok := PersistPaired(f);
      }
    }

    method PruneUnrestored(restored: set<Scanner>, f: Faults) returns (ok: bool)
      modifies this
      ensures (Table(), ok) == Step(old(Table()), Prune(restored, f))
      ensures paired.Keys == old(paired).Keys * restored && forall s | s in paired :: paired[s] == old(paired)[s]
      ensures hostId == old(hostId) && port == old(port)
      ensures if old(paired).Keys <= restored then ok && file == old(file)
              else (ok <==> f.write == Written) && (ok ==> Holds(file, paired, port))
    {
      KeepingAllKeepsThem(paired, restored);
      ok := true;
      var before := |paired|;
      paired := Retained(paired, restored);
      if |paired| != before {
        ok := PersistPaired(f);
      }
    }
  }

  // ----- Runs without faults -----

  /** The next start would find what this process has. */
  predicate Agrees(st: State) {
    st.hostId != "" && LoadStore(st.file, false) == Some(Store(DEVICE_STORE_VERSION, st.port, st.hostId, st.paired))
  }

  predicate Draws(e: Event) { e.Restart? ==> e.drawn != "" }

  function Run(st: State, events: seq<Event>): State
    decreases |events|
  {
    if events == [] then st else Run(Step(st, events[0]).0, events[1..])
  }

  lemma {:induction false} KeepingAllKeepsThem(paired: map<Scanner, Device>, restored: set<Scanner>)
    ensures |Retained(paired, restored)| == |paired| <==> Retained(paired, restored) == paired
    ensures Retained(paired, restored) == paired <==> paired.Keys <= restored
  {
    var kept := Retained(paired, restored);
    assert kept.Keys == paired.Keys * restored;
    SmallerUnlessEqual(kept.Keys, paired.Keys);
    if paired.Keys <= restored {
      assert kept == paired;
    }
  }

  /** A start from any file at all leaves file and process in agreement, if the write succeeds. */
  lemma {:induction false} AStartAgrees(file: File, drawn: string, bound: nat, f: Faults)
    requires drawn != "" && f.write == Written
    ensures Agrees(Started(file, drawn, bound, f))
  {
    hide ToFile, FromRecord;
    var store := Reset(file, f).0;
    StoreReadsBack(store.(hostId := if store.hostId == "" then drawn else store.hostId, port := bound));
  }

  /** Without faults every step keeps file and process in agreement, and a restart changes nothing but the port. */
  lemma {:induction false} AStepAgrees(st: State, e: Event)
    requires Agrees(st) && e.faults == NO_FAULTS && Draws(e)
    ensures Agrees(Step(st, e).0) && Step(st, e).1
    ensures Step(st, e).0.hostId == st.hostId
    ensures e.Restart? ==> Step(st, e).0 == st.(port := e.bound, file := Step(st, e).0.file)
  {
    hide ToFile, FromRecord;
    var after := Step(st, e).0;
    StoreReadsBack(Store(DEVICE_STORE_VERSION, after.port, after.hostId, after.paired));
    if e.Prune? {
      KeepingAllKeepsThem(st.paired, e.restored);
    }
  }

  /** Over every run whose reads and writes all succeed the file is the table, and the host keeps its name. */
  lemma {:induction false} TheFileIsTheTable(st: State, events: seq<Event>)
    requires Agrees(st) && forall e | e in events :: e.faults == NO_FAULTS && Draws(e)
    ensures Agrees(Run(st, events)) && Run(st, events).hostId == st.hostId
    decreases |events|
  {
    hide Step;
    if events != [] {
      AStepAgrees(st, events[0]);
      TheFileIsTheTable(Step(st, events[0]).0, events[1..]);
    }
  }

  // ----- What faults do -----

  /** The devices the next start would find are those of this process. */
  predicate DevicesAgree(st: State) {
    LoadStore(st.file, false).Some? && LoadStore(st.file, false).value.devices == st.paired
  }

  predicate HasNothingToWrite(st: State, e: Event) {
    match e
    case Pair(_, _, _) => false
    case Forget(s, _) => s !in st.paired
    case Prune(restored, _) => st.paired.Keys <= restored
    case Restart(_, _, _) => true
  }

  /** A store that is there and cannot be read. */
  predicate Unread(st: State, f: Faults) { f.readFails && st.file.Saved? }

  /** What a write that fails before replacing the file leaves in it: nothing, if the file was set aside first. */
  function LeftBehind(st: State, f: Faults): map<Scanner, Device> {
    if Unread(st, f) && !f.asideFails then map[] else st.paired
  }

  /** What memory keeps after a revocation or a pruning. */
  function KeptInMemory(st: State, e: Event): map<Scanner, Device>
    requires e.Forget? || e.Prune?
  {
    if e.Forget? then st.paired - {e.scanner} else Retained(st.paired, e.restored)
  }

  /**
   File and process after each operation and fault. A pairing parts them unless it is written, or fails
   leaving just what memory goes back to. A revocation or a pruning parts them only if the old file stays and
   keeps more. A start parts them only if it could not read the file, nor set it aside, nor replace it.
   */
  lemma {:induction false} ExactlyTheseFaultsPartThem(st: State, e: Event)
    requires DevicesAgree(st)
    ensures DevicesAgree(Step(st, e).0) <==>
              var f := e.faults;
              match e
              case Pair(s, _, _) =>
                f.write == Written || (f.write == FailedBefore && LeftBehind(st, f) == st.paired - {s})
              case Restart(_, _, _) =>
                !Unread(st, f) || f.write != FailedBefore || !f.asideFails || st.paired == map[]
              case _ =>
                HasNothingToWrite(st, e) || f.write != FailedBefore || LeftBehind(st, f) == KeptInMemory(st, e)
  {
    hide ToFile, FromRecords, Retained;
    var store := Reset(st.file, e.faults).0;
    match e
    case Pair(s, d, f) =>
      StoreReadsBack(store.(port := st.port, devices := st.paired[s := d]));
      assert s in st.paired[s := d] && s !in st.paired - {s};
      assert st.paired[s := d] - {s} == st.paired - {s};
    case Forget(s, f) =>
      StoreReadsBack(store.(port := st.port, devices := st.paired - {s}));
    case Prune(restored, f) =>
      KeepingAllKeepsThem(st.paired, restored);
      StoreReadsBack(store.(port := st.port, devices := Retained(st.paired, restored)));
    case Restart(drawn, bound, f) =>
      StoreReadsBack(store.(port := bound, hostId := if store.hostId == "" then drawn else store.hostId));
  }

  /** A pairing that fails leaves the table as it was exactly if the scanner was not paired before. */
  lemma {:induction false} AFailedPairingForgetsTheOldOne(st: State, s: Scanner, d: Device, f: Faults)
    requires f.write != Written
    ensures !Step(st, Pair(s, d, f)).1
    ensures Step(st, Pair(s, d, f)).0.paired == st.paired <==> s !in st.paired
  {
    assert s !in st.paired ==> st.paired[s := d] - {s} == st.paired;
    assert s !in st.paired[s := d] - {s};
  }

  /** A revocation that fails before the file is replaced lasts until the next start, if that finds the file. */
  lemma {:induction false} AFailedRevocationIsUndone(
    st: State, s: Scanner, f: Faults, drawn: string, bound: nat, g: Faults)
    requires DevicesAgree(st) && s in st.paired && f.write == FailedBefore
    ensures var revoked := Step(st, Forget(s, f)).0;
            var later := Step(revoked, Restart(drawn, bound, g)).0;
            && s !in revoked.paired
            && (s in later.paired <==> !g.readFails && (f.readFails ==> f.asideFails))
            && (s in later.paired ==> later.paired == st.paired)
  {
  }

  // ----- The host's name -----

  predicate NameIsKept(st: State, name: string) {
    st.hostId == name && LoadStore(st.file, false).Some? && LoadStore(st.file, false).value.hostId == name
  }

  predicate LooksAtTheFile(st: State, e: Event) {
    e.Restart? || !HasNothingToWrite(st, e)
  }

  /** The name is lost exactly when a file that is there cannot be read, and the fault gets as far as the file. */
  lemma {:induction false} ExactlyAnUnreadableFileCostsTheName(st: State, e: Event)
    requires NameIsKept(st, st.hostId) && st.hostId != "" && (e.Restart? ==> e.drawn != st.hostId)
    ensures NameIsKept(Step(st, e).0, st.hostId) <==>
              !(LooksAtTheFile(st, e) && e.faults.readFails
                && (e.Restart? || e.faults.write != FailedBefore || !e.faults.asideFails))
  {
    hide ToFile, FromRecord;
    var (store, left) := Reset(st.file, e.faults);
    match e
    case Pair(s, d, f) => StoreReadsBack(store.(port := st.port, devices := st.paired[s := d]));
    case Forget(s, f) => StoreReadsBack(store.(port := st.port, devices := st.paired - {s}));
    case Prune(restored, f) =>
      KeepingAllKeepsThem(st.paired, restored);
      StoreReadsBack(store.(port := st.port, devices := Retained(st.paired, restored)));
    case Restart(drawn, bound, f) =>
      StoreReadsBack(store.(port := bound, hostId := if store.hostId == "" then drawn else store.hostId));
  }

  /** One failed read while a phone is paired: the pairing is written, and the next start draws another name. */
  lemma {:induction false} ANameCanBeLost(d: Device)
    ensures var file := Saved(DEVICE_STORE_VERSION, 4000, "old", map[]);
            var st := Started(file, "unused", 4000, NO_FAULTS);
            var paired := Step(st, Pair(1, d, NO_FAULTS.(readFails := true)));
            var later := Step(paired.0, Restart("new", 4000, NO_FAULTS)).0;
            && st.hostId == "old" && paired.1 && later.paired == map[1 := d] && later.hostId == "new"
  {
    hide ToFile, FromRecord;
    var file := Saved(DEVICE_STORE_VERSION, 4000, "old", map[]);
    var st := Started(file, "unused", 4000, NO_FAULTS);
    assert st.paired == map[];
    StoreReadsBack(Store(DEVICE_STORE_VERSION, 4000, "", map[1 := d]));
  }

  /** So a host whose file can always be read keeps one name, whatever becomes of its writes. */
  lemma {:induction false} OneNameForEver(st: State, events: seq<Event>)
    requires NameIsKept(st, st.hostId) && st.hostId != ""
    requires forall e | e in events :: !e.faults.readFails && (e.Restart? ==> e.drawn != st.hostId)
    ensures NameIsKept(Run(st, events), st.hostId)
    decreases |events|
  {
    hide Step;
    if events != [] {
      ExactlyAnUnreadableFileCostsTheName(st, events[0]);
      OneNameForEver(Step(st, events[0]).0, events[1..]);
    }
  }

  // ----- The file of an older version -----

  /** An older file keeps every pairing, each taken for one made in the clear, and once written says so. */
  lemma {:induction false} AnOldFileKeepsItsPairings(file: File, drawn: string, bound: nat, f: Faults)
    requires file.Saved? && file.version < DEVICE_STORE_VERSION && !f.readFails
    requires forall s | s in file.records :: file.records[s].tls == None
    ensures var st := Started(file, drawn, bound, f);
            && st.paired.Keys == file.records.Keys
            && (forall s | s in file.records ::
                  var r := file.records[s];
                  st.paired[s] == Device(r.deviceId, r.digest, r.profiles, r.pairedAt, false))
            && DevicesAgree(st)
  {
    var store := Reset(file, f).0;
    StoreReadsBack(store.(hostId := if store.hostId == "" then drawn else store.hostId, port := bound));
  }
}
