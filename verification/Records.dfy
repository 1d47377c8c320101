/**
 The record a container leaves on disk, and its JSON form (src/common/state.c).

 The text of a state file is either not a JSON document at all or an object whose
 members the loader inspects one by one.
 */
module Records {

  datatype Option<+T> = None | Some(value: T)

  datatype Status = Invalid | Created | Running | Stopped | Paused
  datatype Mode = ContainerMode | VmMode

  /** A pid_t: 32 bits, signed. */
  type PidT = p: int | -0x8000_0000 <= p < 0x8000_0000

  /** A pid the kernel hands out. */
  type Pid = p: int | 0 < p < 0x8000_0000 witness 1

  datatype Container = Container(
    id: Option<string>,
    bundle: Option<string>,
    state: Status,
    mode: Mode,
    pid: PidT)

  datatype Json = JString(s: string) | JInteger(i: int) | JOther
  type JsonObject = map<string, Json>

  datatype Text = Unparseable | Object(members: JsonObject)

  // ---- the string codecs ----

  function StateToString(s: Status): string {
    match s
    case Created => "created"
    case Running => "running"
    case Stopped => "stopped"
    case Paused => "paused"
    case Invalid => "unknown"
  }

  function StringToState(s: string): Status {
    if s == "created" then Created
    else if s == "running" then Running
    else if s == "stopped" then Stopped
    else if s == "paused" then Paused
    else Created
  }

  function ModeToString(m: Mode): string {
    if m == VmMode then "vm" else "container"
  }

  function StringToMode(s: string): Mode {
    if s == "vm" then VmMode else ContainerMode
  }

  /** Assigning a JSON integer to a pid_t keeps its low 32 bits. */
  function WrapPid(i: int): PidT {
    var low := i % 0x1_0000_0000;
    if low < 0x8000_0000 then low else low - 0x1_0000_0000
  }

  // ---- the record as a JSON object ----

  function Encode(c: Container): JsonObject
    requires c.id.Some?
  {
    map["id" := JString(c.id.value),
        "bundle_path" := JString(if c.bundle.Some? then c.bundle.value else ""),
        "state" := JString(StateToString(c.state)),
        "mode" := JString(ModeToString(c.mode)),
        "pid" := JInteger(c.pid)]
  }

  function StringMember(o: JsonObject, key: string): Option<string> {
    if key in o && o[key].JString? then Some(o[key].s) else None
  }

  function Decode(o: JsonObject): Container {
    var bundle := StringMember(o, "bundle_path");
    var state := StringMember(o, "state");
    var mode := StringMember(o, "mode");
    Container(
      StringMember(o, "id"),
      if bundle.Some? && |bundle.value| > 0 then bundle else None,
      if state.Some? then StringToState(state.value) else Created,
      if mode.Some? then StringToMode(mode.value) else ContainerMode,
      if "pid" in o && o["pid"].JInteger? then WrapPid(o["pid"].i) else 0)
  }

  /** What a saved container looks like once loaded again. */
  function Normal(c: Container): Container {
    c.(bundle := if c.bundle == Some("") then None else c.bundle,
       state := if c.state == Invalid then Created else c.state)
  }

  /** A record survives the disk unchanged exactly when its state has a name of its own and
      its bundle is not the empty string. */
  lemma RoundTrip(c: Container)
    requires c.id.Some?
    ensures Decode(Encode(c)) == Normal(c)
    ensures Decode(Encode(c)) == c <==> c.state != Invalid && c.bundle != Some("")
  {
    assert WrapPid(c.pid) == c.pid;
    StatusRoundTrip(c.state);
    assert "container" != "vm" by { assert |"container"| != |"vm"|; }
  }

  lemma StatusRoundTrip(s: Status)
    ensures StringToState(StateToString(s)) == if s == Invalid then Created else s
  {
    assert "created"[0] == 'c' && "running"[0] == 'r' && "stopped"[0] == 's';
    assert "paused"[0] == 'p' && "unknown"[0] == 'u';
  }

  /** The text of a record: each member under its name, each state and mode by its word. */
  lemma RecordText(c: Container)
    requires c.id.Some?
    ensures var o := Encode(c);
            && o.Keys == {"id", "bundle_path", "state", "mode", "pid"}
            && o["id"] == JString(c.id.value) && o["pid"] == JInteger(c.pid)
            && (c.bundle.Some? ==> o["bundle_path"] == JString(c.bundle.value))
            && (c.bundle.None? ==> o["bundle_path"] == JString(""))
            && (c.state == Created ==> o["state"] == JString("created"))
            && (c.state == Running ==> o["state"] == JString("running"))
            && (c.state == Stopped ==> o["state"] == JString("stopped"))
            && (c.state == Paused ==> o["state"] == JString("paused"))
            && (c.state == Invalid ==> o["state"] == JString("unknown"))
            && (c.mode == VmMode ==> o["mode"] == JString("vm"))
            && (c.mode == ContainerMode ==> o["mode"] == JString("container"))
  {
    assert "id"[0] == 'i' && "bundle_path"[0] == 'b' && "state"[0] == 's' && "mode"[0] == 'm' && "pid"[0] == 'p';
  }

  /** What a record is read as when its members are missing, of the wrong type, or words nobody
      wrote: a CREATED container without id, bundle and pid. */
  lemma ForeignText(o: JsonObject)
    requires "id" in o ==> !o["id"].JString?
    requires "bundle_path" in o ==> !o["bundle_path"].JString? || o["bundle_path"].s == ""
    requires "state" in o && o["state"].JString? ==>
               o["state"].s != "running" && o["state"].s != "stopped" && o["state"].s != "paused"
    requires "mode" in o && o["mode"].JString? ==> o["mode"].s != "vm"
    requires "pid" in o ==> !o["pid"].JInteger?
    ensures Decode(o) == Container(None, None, Created, ContainerMode, 0)
  {
  }

  /** A pid that does not fit 32 bits is read as the one it agrees with in the low 32. */
  lemma PidIsCutTo32Bits(o: JsonObject)
    requires "pid" in o && o["pid"].JInteger?
    ensures exists k: int :: Decode(o).pid == o["pid"].i + k * 0x1_0000_0000
  {
    var i := o["pid"].i;
    var k := -(i / 0x1_0000_0000);
    var low := i % 0x1_0000_0000;
    assert low == i + k * 0x1_0000_0000;
    assert low - 0x1_0000_0000 == i + (k - 1) * 0x1_0000_0000;
  }

  // ---- the store the commands see ----

  /** A state file that exists: either a record, or a regular file that does not parse. */
  datatype Contents = Parsed(c: Container) | Torn

  type Store = map<string, Contents>

  datatype SaveOutcome =
    | SaveOk
    | OpenFails      // nothing written, -1 reported
    | TornReported   // truncated, the write failed, -1 reported
    | TornSilent     // truncated, the loss came at the unchecked fclose, 0 reported

  /** Saving writes under the id held in memory; a container without an id is refused. */
  function Saved(store: Store, c: Container, o: SaveOutcome): (r: (Store, bool)) {
    if c.id.None? then (store, false)
    else match o
      case SaveOk => (store[c.id.value := Parsed(Normal(c))], true)
      case OpenFails => (store, false)
      case TornReported => (store[c.id.value := Torn], false)
      case TornSilent => (store[c.id.value := Torn], true)
  }

  function Loaded(store: Store, id: string): Option<Container> {
    if id in store && store[id].Parsed? then Some(store[id].c) else None
  }

  // ---- coherence ----

  predicate CoherentRecord(c: Container) {
    || (c.state == Created && c.pid == 0)
    || (c.state == Running && c.pid > 0)
    || (c.state == Stopped && c.pid == 0)
  }

  predicate CoherentFile(id: string, f: Contents) {
    f.Parsed? ==> f.c.id == Some(id) && f.c.bundle != Some("") && CoherentRecord(f.c)
  }

  /** Every parseable record carries the id it is filed under and is CREATED with pid 0,
      RUNNING with a pid, or STOPPED with pid 0. (An empty bundle path loads as no bundle path.) */
  ghost predicate Coherent(store: Store) {
    forall id | id in store :: CoherentFile(id, store[id])
  }

  ghost predicate SameElsewhere(a: Store, b: Store, id: string) {
    forall k | k != id :: (k in a <==> k in b) && (k in a ==> a[k] == b[k])
  }

  predicate IsRunning(f: Contents, pid: int) {
    f.Parsed? && f.c.state == Running && f.c.pid == pid
  }

  function Rank(s: Status): int {
    match s
    case Created => 1
    case Running => 2
    case Stopped => 3
    case _ => 0
  }
}
