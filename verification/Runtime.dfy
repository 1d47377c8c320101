/**
 The commands as src/main.c runs them: step by step, overwriting the record held in memory
 and saving it. Each method is proved to do what its function in `Lifecycle` says.
 */
module Runtime {
  import opened Records
  import opened Lifecycle
  import Conservation

  class Machine {
    var store: Store
    var procs: Procs
    var log: seq<Effect>

    constructor ()
      ensures Now() == EMPTY
    {
      store, procs, log := map[], map[], [];
    }

    ghost function Now(): World
      reads this
    {
      World(store, procs, log)
    }

    // ---- the state directory ----

    method Save(c: Container, o: SaveOutcome) returns (ok: bool)
      modifies this`store
      ensures (store, ok) == Saved(old(store), c, o)
    {
      if c.id.None? { return false; }
      match o
      case SaveOk => store, ok := store[c.id.value := Parsed(Normal(c))], true;
      case OpenFails => ok := false;
      case TornReported => store, ok := store[c.id.value := Torn], false;
      case TornSilent => store, ok := store[c.id.value := Torn], true;
    }

    method Load(id: string) returns (c: Option<Container>)
      ensures c == Loaded(store, id)
    {
      if id in store {
        match store[id]
        case Parsed(found) => return Some(found);
        case Torn => return None;
      }
      return None;
    }

    method Exists(id: string) returns (found: bool)
      ensures found <==> id in store
    {
      found := id in store;
    }

    // ---- the kernel ----

    method HostMoves(moves: Moves)
      modifies this`procs
      ensures procs == Advance(old(procs), moves)
    {
      procs := Advance(procs, moves);
    }

    method Probe(pid: int, permitted: bool) returns (r: KillResult)
      ensures r == KillAnswer(procs, pid, permitted)
    {
      r := KillAnswer(procs, pid, permitted);
    }

    method Send(id: string, pid: int, sig: Signal, permitted: bool) returns (sent: bool)
      modifies this`procs, this`log
      ensures sent <==> KillAnswer(old(procs), pid, permitted) == Delivered
      ensures log == if sent then old(log) + [Signalled(id, pid, sig)] else old(log)
      ensures sent && sig == Kill ==> pid in old(procs) && procs == old(procs)[pid := old(procs)[pid].(killed := true)]
      ensures !(sent && sig == Kill) ==> procs == old(procs)
    {
      var r := Probe(pid, permitted);
      sent := r == Delivered;
      if sent {
        log := log + [Signalled(id, pid, sig)];
        if sig == Kill {
          procs := procs[pid := procs[pid].(killed := true)];
        }
      }
    }

    method Exec(id: string, exec: ExecOutcome) returns (pid: int)
      modifies this`procs, this`log
      ensures pid == if exec.Returns? then exec.pid else -1
      ensures procs == if exec.Returns? then old(procs)[pid := Proc(Live, false)] else old(procs)
      ensures log == match exec
                     case CloneFails => old(log)
                     case HandshakeFails(child) => old(log) + [Spawned(id, child)]
                     case Returns(p) => old(log) + [Spawned(id, p)]
    {
      match exec
      case CloneFails =>
        pid := -1;
      case HandshakeFails(child) =>
        log := log + [Spawned(id, child)];
        pid := -1;
      case Returns(p) =>
        pid := p;
        procs := procs[pid := Proc(Live, false)];
        log := log + [Spawned(id, pid)];
    }

    // ---- create ----

    method CreateContainer(id: string, bundle: string, mode: Mode, io: CreateIO) returns (ok: bool)
      modifies this
      ensures (Now(), ok) == Create(old(Now()), id, bundle, mode, io)
    {
      if !io.stateDirOk { return false; }
      var taken := Exists(id);
      if taken { return false; }
      if !io.specOk { return false; }
      var container := Container(Some(id), Some(bundle), Created, mode, 0);
      ok := Save(container, io.save);
    }

    // ---- start ----

    method StartContainer(id: string, attach: bool, io: StartIO) returns (r: StartResult)
      modifies this
      ensures (Now(), r) == Start(old(Now()), id, attach, io)
    {
      var loaded := Load(id);
      if loaded.None? { return StartFailed; }
      var container := loaded.value;
      if container.state != Created { return StartFailed; }
      if io.spec != SpecUsable { return StartFailed; }
      if container.mode == VmMode { return StartFailed; }

      var pid := Exec(id, io.exec);
      if pid == -1 { return StartFailed; }

      container := container.(state := Running, pid := pid);
      var _ := Save(container, io.saveRunning);
      HostMoves(io.running);
      if !attach { return Started(0); }

      if io.wait == WaitFails { return StartFailed; }
      HostMoves(map[pid := Gone]);   // waitpid reaps the init
      var code := match io.wait
                  case ExitedWith(status) => status
                  case KilledBy(sig) => 128 + sig
                  case WaitFails => 0;

      container := container.(state := Stopped, pid := 0);
      var _ := Save(container, io.saveStopped);
      r := Started(code);
    }

    // ---- run ----

    method RunContainer(id: string, bundle: string, mode: Mode, attach: bool, rm: bool, io: RunIO) returns (code: int)
      modifies this
      ensures (Now(), code) == RunCommand(old(Now()), id, bundle, mode, attach, rm, io)
    {
      var created := CreateContainer(id, bundle, mode, io.create);
      if !created { return -1; }
      var started := StartContainer(id, attach, io.start);
      if started.StartFailed? {
        if rm {
          var _ := DeleteContainer(id, io.delete);
        }
        return -1;
      }
      if rm {
        var deleted := DeleteContainer(id, io.delete);
        if !deleted { return -1; }
      }
      code := if attach then started.code else 0;
    }

    // ---- exec ----

    method UpdateStoppedStateIfDead(container: Container, permitted: bool, save: SaveOutcome)
      modifies this`store
      ensures Now() == Update(old(Now()), container, permitted, save)
    {
      if container.state != Running || container.pid <= 0 { return; }
      var answer := Probe(container.pid, permitted);
      if answer != NoProcess { return; }
      var _ := Save(container.(state := Stopped, pid := 0), save);
    }

    method ExecIn(id: string, io: ResumeIO) returns (code: int)
      modifies this
      ensures (Now(), code) == Resume(old(Now()), id, io)
    {
      var loaded := Load(id);
      if loaded.None? { return -1; }
      var container := loaded.value;
      if container.state != Running || container.pid <= 0 { return -1; }

      HostMoves(io.before);
      var answer := Probe(container.pid, io.firstPermitted);
      if answer == NoProcess {
        HostMoves(io.session);
        UpdateStoppedStateIfDead(container, io.secondPermitted, io.save);
        return -1;
      }
      if !io.procfs { return -1; }
      if !io.forkOk { return -1; }
      HostMoves(io.session);
      if !io.waitOk { return -1; }
      code := match io.helper
              case HelperExited(status) => status
              case HelperKilledBy(sig) => 128 + sig
              case HelperOther => 1;
      UpdateStoppedStateIfDead(container, io.secondPermitted, io.save);
    }

    // ---- delete ----

    method StopProcess(id: string, pid: int, io: DeleteIO)
      modifies this`procs, this`log
      ensures Now() == Stop(old(Now()), id, pid, io)
    {
      HostMoves(io.before);
      var asked := Send(id, pid, Term, io.termPermitted);
      if asked {
        HostMoves(io.grace);
        var answer := Probe(pid, io.probePermitted);
        if answer == Delivered {
          HostMoves(io.escalation);
          var _ := Send(id, pid, Kill, io.killPermitted);
        }
      }
    }

    method DeleteContainer(id: string, io: DeleteIO) returns (ok: bool)
      modifies this
      ensures (Now(), ok) == Delete(old(Now()), id, io)
    {
      var loaded := Load(id);
      if loaded.None? { return false; }
      var container := loaded.value;
      if container.state == Running && container.pid > 0 {
        StopProcess(id, container.pid, io);
      }
      if io.unlink == UnlinkOk {
        store := store - {id};
      }
      ok := true;
    }

    // ---- whole sessions ----

    /** write_container_pid_file */
    method WritePidFile(id: string, pidFile: PidFileIO) returns (status: int, written: Option<PidT>)
      ensures (status, written) == PidFile(Now(), id, pidFile)
    {
      if pidFile == NoPidFile { return 0, None; }
      var loaded := Load(id);
      if loaded.None? { return -1, None; }
      if loaded.value.pid <= 0 { return -1, None; }
      if pidFile == EmptyName { return 0, None; }
      if !pidFile.opens { return -1, None; }
      return 0, Some(loaded.value.pid);
    }

    /** One command line: what it does to the world, what main returns, and what the pid file gets. */
    method Execute(e: Event, pidFile: PidFileIO) returns (status: int, written: Option<PidT>)
      modifies this
      ensures Now() == Step(old(Now()), e)
      ensures (status, written) == ExitStatus(old(Now()), e, pidFile)
    {
      status, written := 0, None;
      match e
      case CreateEvent(id, bundle, mode, io) =>
        var ok := CreateContainer(id, bundle, mode, io);
        status := if ok then 0 else -1;
      case StartEvent(id, attach, io) =>
        var r := StartContainer(id, attach, io);
        if r.StartFailed? {
          status := -1;
        } else if attach {
          status := r.code;
        } else {
          status, written := WritePidFile(id, pidFile);
        }
      case RunEvent(id, bundle, mode, attach, rm, io) =>
        status := RunContainer(id, bundle, mode, attach, rm, io);
        if status == 0 && !attach {
          status, written := WritePidFile(id, pidFile);
        }
      case ExecEvent(id, io) =>
        status := ExecIn(id, io);
      case DeleteEvent(id, io) =>
        var ok := DeleteContainer(id, io);
        status := if ok then 0 else -1;
      case StateEvent(id) =>
        var loaded := Load(id);
        status := if loaded.None? then 1 else 0;
      case HostEvent(moves) => HostMoves(moves);
    }

    /** A whole session does what the run does that the theorems speak of; so it keeps every
        init accounted for. */
    method Session(es: seq<Event>, pidFile: PidFileIO)
      modifies this
      ensures Now() == RunAll(old(Now()), es)
      ensures old(Conservation.Inv(Now()) && Conservation.GoodRun(Now(), es)) ==> Conservation.Inv(Now())
    {
      ghost var before := Now();
      for i := 0 to |es|
        invariant RunAll(Now(), es[i..]) == RunAll(before, es)
      {
        assert es[i..][0] == es[i] && es[i..][1..] == es[i + 1..];
        var _, _ := Execute(es[i], pidFile);
      }
      if Conservation.Inv(before) && Conservation.GoodRun(before, es) {
        Conservation.ProcessConservation(before, es);
      }
    }
  }
}
