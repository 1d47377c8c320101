/**
 The commands of src/main.c as transformations of a world: the store of records, the
 table of container init processes, and a log of what the commands did to processes.

 Whatever the host decides (which saves fail, which processes exit and when, whether a
 signal is permitted, how a helper ends) is a parameter. Processes also move on their own
 between any two kernel calls of a command: those moves are parameters too. Moves that a
 command no longer looks at are counted with the last ones before, as those after a refused
 signal, or those after the launch of a detached init.
 */
module Lifecycle {
  import opened Records

  /** An init as kill(pid, 0) sees it: a zombie still answers, a reaped process does not. */
  datatype Life = Live | Zombie | Gone

  /** `killed` remembers that some command sent this process SIGKILL. */
  datatype Proc = Proc(life: Life, killed: bool)

  type Procs = map<int, Proc>
  type Moves = map<int, Life>

  datatype Signal = Term | Kill

  datatype Effect =
    | Spawned(id: string, pid: int)
    | Signalled(id: string, pid: int, sig: Signal)

  datatype World = World(store: Store, procs: Procs, log: seq<Effect>)

  // ---- the kernel ----

  function Later(a: Life, b: Life): Life {
    if a == Gone || b == Gone then Gone
    else if a == Zombie || b == Zombie then Zombie
    else Live
  }

  /** Processes only move from live to zombie to gone. */
  function Advance(procs: Procs, moves: Moves): Procs {
    map p | p in procs :: if p in moves then procs[p].(life := Later(procs[p].life, moves[p])) else procs[p]
  }

  datatype KillResult = Delivered | NotPermitted | NoProcess

  function KillAnswer(procs: Procs, pid: int, permitted: bool): KillResult {
    if pid !in procs || procs[pid].life == Gone then NoProcess
    else if permitted then Delivered
    else NotPermitted
  }

  /** is_pid_alive: a refused signal also proves that the process exists. */
  function PidAlive(procs: Procs, pid: int, permitted: bool): bool {
    pid > 0 && KillAnswer(procs, pid, permitted) != NoProcess
  }

  // ---- what the host decides during one command ----

  type ExitByte = c: int | 0 <= c < 256
  type SignalNumber = s: int | 0 < s < 127 witness 1

  datatype UnlinkOutcome = UnlinkOk | UnlinkFails

  datatype CreateIO = CreateIO(stateDirOk: bool, specOk: bool, save: SaveOutcome)

  datatype SpecOutcome = SpecUnloadable | SpecIncomplete | SpecUsable

  datatype ExecOutcome =
    | CloneFails
    | HandshakeFails(child: Pid)   // the child is reaped before the call returns
    | Returns(pid: Pid)

  datatype WaitOutcome = WaitFails | ExitedWith(code: ExitByte) | KilledBy(sig: SignalNumber)

  datatype StartIO = StartIO(
    spec: SpecOutcome, exec: ExecOutcome, saveRunning: SaveOutcome,
    running: Moves, wait: WaitOutcome, saveStopped: SaveOutcome)

  datatype HelperOutcome = HelperExited(code: ExitByte) | HelperKilledBy(sig: SignalNumber) | HelperOther

  datatype ResumeIO = ResumeIO(
    before: Moves, firstPermitted: bool, procfs: bool, forkOk: bool, waitOk: bool,
    helper: HelperOutcome, session: Moves, secondPermitted: bool, save: SaveOutcome)

  datatype DeleteIO = DeleteIO(
    before: Moves, termPermitted: bool, grace: Moves, probePermitted: bool,
    escalation: Moves, killPermitted: bool, unlink: UnlinkOutcome)

  // ---- create ----

  function Create(w: World, id: string, bundle: string, mode: Mode, io: CreateIO): (World, bool) {
    if io.stateDirOk && id !in w.store && io.specOk then
      var (store, ok) := Saved(w.store, Container(Some(id), Some(bundle), Created, mode, 0), io.save);
      (w.(store := store), ok)
    else
      (w, false)
  }

  // ---- start ----

  datatype StartResult = StartFailed | Started(code: int)

  function ExitCode(wait: WaitOutcome): int {
    match wait
    case ExitedWith(code) => code
    case KilledBy(sig) => 128 + sig
    case WaitFails => 0
  }

  function Start(w: World, id: string, attach: bool, io: StartIO): (World, StartResult) {
    var loaded := Loaded(w.store, id);
    if loaded.None? || loaded.value.state != Created || io.spec != SpecUsable || loaded.value.mode == VmMode then
      (w, StartFailed)
    else match io.exec
      case CloneFails => (w, StartFailed)
      case HandshakeFails(child) => (w.(log := w.log + [Spawned(id, child)]), StartFailed)
      case Returns(pid) =>
        var running := loaded.value.(state := Running, pid := pid);
        var w1 := Launched(w, id, running, io.saveRunning);
        if attach then Attended(w1, running, io)
        else (w1.(procs := Advance(w1.procs, io.running)), Started(0))
  }

  /** The init exists and the record that names it has been saved, if the save went through. */
  function Launched(w: World, id: string, running: Container, save: SaveOutcome): World {
    World(Saved(w.store, running, save).0,
          w.procs[running.pid as int := Proc(Live, false)],
          w.log + [Spawned(id, running.pid)])
  }

  /** The attached half of start: wait for the init, then record that it stopped. */
  function Attended(w: World, running: Container, io: StartIO): (World, StartResult) {
    var procs := Advance(w.procs, io.running);
    if io.wait == WaitFails then
      (w.(procs := procs), StartFailed)
    else
      var stopped := running.(state := Stopped, pid := 0);
      (w.(procs := Advance(procs, map[running.pid as int := Gone]),
          store := Saved(w.store, stopped, io.saveStopped).0),
       Started(ExitCode(io.wait)))
  }

  // ---- exec ----

  function Update(w: World, c: Container, permitted: bool, save: SaveOutcome): World {
    if c.state == Running && c.pid > 0 && !PidAlive(w.procs, c.pid, permitted) then
      w.(store := Saved(w.store, c.(state := Stopped, pid := 0), save).0)
    else
      w
  }

  function HelperCode(h: HelperOutcome): int {
    match h
    case HelperExited(code) => code
    case HelperKilledBy(sig) => 128 + sig
    case HelperOther => 1
  }

  function Resume(w: World, id: string, io: ResumeIO): (World, int) {
    var loaded := Loaded(w.store, id);
    if loaded.None? || loaded.value.state != Running || loaded.value.pid <= 0 then (w, -1)
    else
      var c := loaded.value;
      var w1 := w.(procs := Advance(w.procs, io.before));
      var w2 := w1.(procs := Advance(w1.procs, io.session));
      if !PidAlive(w1.procs, c.pid, io.firstPermitted) then (Update(w2, c, io.secondPermitted, io.save), -1)
      else if !io.procfs || !io.forkOk then (w1, -1)
      else if !io.waitOk then (w2, -1)
      else (Update(w2, c, io.secondPermitted, io.save), HelperCode(io.helper))
  }

  // ---- delete ----

  /** SIGTERM, a pause, and SIGKILL if the process still answers. */
  function Stop(w: World, id: string, pid: int, io: DeleteIO): World {
    var w1 := w.(procs := Advance(w.procs, io.before));
    if KillAnswer(w1.procs, pid, io.termPermitted) != Delivered then w1
    else
      var w2 := w1.(procs := Advance(w1.procs, io.grace), log := w1.log + [Signalled(id, pid, Term)]);
      if KillAnswer(w2.procs, pid, io.probePermitted) != Delivered then w2
      else
        var w3 := w2.(procs := Advance(w2.procs, io.escalation));
        if KillAnswer(w3.procs, pid, io.killPermitted) != Delivered then w3
        else World(w3.store, w3.procs[pid := w3.procs[pid].(killed := true)],
                   w3.log + [Signalled(id, pid, Kill)])
  }

  function Delete(w: World, id: string, io: DeleteIO): (World, bool) {
    var loaded := Loaded(w.store, id);
    if loaded.None? then (w, false)
    else
      var c := loaded.value;
      var w1 := if c.state == Running && c.pid > 0 then Stop(w, id, c.pid, io) else w;
      (if io.unlink == UnlinkOk then w1.(store := w1.store - {id}) else w1, true)
  }

  // ---- run ----

  datatype RunIO = RunIO(create: CreateIO, start: StartIO, delete: DeleteIO)

  function RunCommand(w: World, id: string, bundle: string, mode: Mode, attach: bool, rm: bool, io: RunIO)
    : (World, int)
  {
    var (w1, created) := Create(w, id, bundle, mode, io.create);
    if !created then (w1, -1)
    else
      var (w2, started) := Start(w1, id, attach, io.start);
      if started == StartFailed then
        (if rm then Delete(w2, id, io.delete).0 else w2, -1)
      else if rm then
        var (w3, deleted) := Delete(w2, id, io.delete);
        (w3, if !deleted then -1 else if attach then started.code else 0)
      else
        (w2, if attach then started.code else 0)
  }

  // ---- runs ----

  datatype Event =
    | CreateEvent(id: string, bundle: string, mode: Mode, cio: CreateIO)
    | StartEvent(id: string, attach: bool, sio: StartIO)
    | RunEvent(id: string, bundle: string, mode: Mode, attach: bool, rm: bool, rio: RunIO)
    | ExecEvent(id: string, xio: ResumeIO)
    | DeleteEvent(id: string, dio: DeleteIO)
    | StateEvent(id: string)
    | HostEvent(moves: Moves)

  function Step(w: World, e: Event): World {
    match e
    case CreateEvent(id, bundle, mode, io) => Create(w, id, bundle, mode, io).0
    case StartEvent(id, attach, io) => Start(w, id, attach, io).0
    case RunEvent(id, bundle, mode, attach, rm, io) => RunCommand(w, id, bundle, mode, attach, rm, io).0
    case ExecEvent(id, io) => Resume(w, id, io).0
    case DeleteEvent(id, io) => Delete(w, id, io).0
    case StateEvent(_) => w
    case HostEvent(moves) => w.(procs := Advance(w.procs, moves))
  }

  /** The --pid-file option: not given, given as an empty name, or naming a file that can be opened or not. */
  datatype PidFileIO = NoPidFile | EmptyName | Named(opens: bool)

  /** After a detached start the pid is read back from the record: the status, and what was written. */
  function PidFile(w: World, id: string, pidFile: PidFileIO): (int, Option<PidT>) {
    var loaded := Loaded(w.store, id);
    if pidFile == NoPidFile then (0, None)
    else if loaded.None? || loaded.value.pid <= 0 then (-1, None)
    else if pidFile == EmptyName then (0, None)
    else if pidFile.opens then (0, Some(loaded.value.pid))
    else (-1, None)
  }

  /** What main returns, and what it writes to the pid file. */
  function ExitStatus(w: World, e: Event, pidFile: PidFileIO): (int, Option<PidT>) {
    match e
    case CreateEvent(id, bundle, mode, io) => (if Create(w, id, bundle, mode, io).1 then 0 else -1, None)
    case StartEvent(id, attach, io) =>
      var (w2, r) := Start(w, id, attach, io);
      if r.StartFailed? then (-1, None) else if attach then (r.code, None) else PidFile(w2, id, pidFile)
    case RunEvent(id, bundle, mode, attach, rm, io) =>
      var (w2, code) := RunCommand(w, id, bundle, mode, attach, rm, io);
      if code == 0 && !attach then PidFile(w2, id, pidFile) else (code, None)
    case ExecEvent(id, io) => (Resume(w, id, io).1, None)
    case DeleteEvent(id, io) => (if Delete(w, id, io).1 then 0 else -1, None)
    case StateEvent(id) => (if Loaded(w.store, id).Some? then 0 else 1, None)
    case HostEvent(_) => (0, None)
  }

  function RunAll(w: World, es: seq<Event>): World
    decreases |es|
  {
    if es == [] then w else RunAll(Step(w, es[0]), es[1..])
  }

  const EMPTY := World(map[], map[], [])
}
