/**
 What single commands promise, for every outcome the host can choose.
 */
module Commands {
  import opened Records
  import opened Lifecycle
  import opened Coherence

  // ---- exec is a session, not a lifecycle transition ----

  predicate HasRunningRecord(w: World, id: string) {
    Loaded(w.store, id).Some? && w.store[id].c.state == Running && w.store[id].c.pid > 0
  }

  /** The init is not there any more after `moves`. */
  predicate GoneAfter(w: World, pid: int, moves: Moves) {
    pid !in w.procs || w.procs[pid].life == Gone || (pid in moves && moves[pid] == Gone)
  }

  predicate HelperRan(io: ResumeIO) {
    io.procfs && io.forkOk && io.waitOk
  }

  /** -1 means exactly a runtime error; anything else is a code in 0..255 from the session. */
  lemma ExecReturns(w: World, id: string, io: ResumeIO)
    ensures var code := Resume(w, id, io).1;
            && -1 <= code < 256
            && (code == -1 <==> !HasRunningRecord(w, id)
                                || GoneAfter(w, w.store[id].c.pid, io.before)
                                || !HelperRan(io))
  {
  }

  /** The init answers no probe any more: at the first one, or at the second after a helper that ran. */
  predicate FoundGone(w: World, id: string, io: ResumeIO) {
    HasRunningRecord(w, id) &&
    var pid := w.store[id].c.pid;
    || GoneAfter(w, pid, io.before)
    || (HelperRan(io) && GoneAfter(w.(procs := Advance(w.procs, io.before)), pid, io.session))
  }

  /** exec leaves the store as it was, except that it saves its own record as STOPPED, well or
      badly, exactly when a probe found the init gone. So no failure of /proc, fork, nsenter or
      the session touches the record of a container whose init still exists. */
  lemma ExecIsNotALifecycleTransition(w: World, id: string, io: ResumeIO)
    ensures Resume(w, id, io).0.store ==
              if FoundGone(w, id, io) then Saved(w.store, w.store[id].c.(state := Stopped, pid := 0), io.save).0
              else w.store
  {
    if HasRunningRecord(w, id) {
      var w1 := w.(procs := Advance(w.procs, io.before));
      UpdateExact(w1.(procs := Advance(w1.procs, io.session)), w.store[id].c, io.secondPermitted, io.save);
    }
  }

  /** A zombie still answers the probe: the record of a dead init that nobody has reaped stays RUNNING. */
  lemma ZombieStaysRunning(w: World, id: string, pid: Pid)
    requires w.store == map[id := Parsed(Container(Some(id), None, Running, ContainerMode, pid))]
    requires w.procs == map[pid as int := Proc(Zombie, false)]
    ensures var io := ResumeIO(map[], true, true, true, true, HelperExited(0), map[], true, SaveOk);
            Resume(w, id, io) == (w, 0)
  {
    assert Advance(w.procs, map[]) == w.procs;
  }

  lemma UpdateExact(w: World, c: Container, permitted: bool, save: SaveOutcome)
    requires c.state == Running && c.pid > 0
    ensures Update(w, c, permitted, save) ==
            if c.pid !in w.procs || w.procs[c.pid].life == Gone
            then w.(store := Saved(w.store, c.(state := Stopped, pid := 0), save).0)
            else w
  {
  }

  // ---- start ----

  predicate Startable(w: World, id: string, io: StartIO) {
    && Loaded(w.store, id).Some? && w.store[id].c.state == Created && w.store[id].c.mode != VmMode
    && io.spec == SpecUsable
  }

  /** The init was launched, waited for and reaped. */
  predicate Waited(attach: bool, io: StartIO) {
    attach && io.exec.Returns? && io.wait != WaitFails
  }

  /** Start fails exactly if it may not or cannot launch, or cannot wait for what it launched; it
      mirrors the exit of an init it waited for. What it did not launch leaves no trace in store
      and process table; what it launched is logged once and reaped if waited for. */
  lemma StartOutcome(w: World, id: string, attach: bool, io: StartIO)
    ensures var (w2, r) := Start(w, id, attach, io);
            var launched := Startable(w, id, io) && io.exec.Returns?;
            && (r == StartFailed <==> !launched || (attach && io.wait == WaitFails))
            && (r.Started? && !attach ==> r.code == 0)
            && (r.Started? && attach && io.wait.ExitedWith? ==> r.code == io.wait.code)
            && (r.Started? && attach && io.wait.KilledBy? ==> r.code == 128 + io.wait.sig)
            && (!launched ==> && w2.store == w.store && w2.procs == w.procs
                              && w2.log == if Startable(w, id, io) && io.exec.HandshakeFails?
                                           then w.log + [Spawned(id, io.exec.child)] else w.log)
            && (launched ==> && w2.log == w.log + [Spawned(id, io.exec.pid)] && io.exec.pid in w2.procs
                             && !w2.procs[io.exec.pid].killed
                             && (Waited(attach, io) ==> w2.procs[io.exec.pid].life == Gone))
  {
  }

  /** What a save leaves that got as far as opening the file. */
  function Written(c: Container, o: SaveOutcome): Contents {
    if o == SaveOk then Parsed(c) else Torn
  }

  /** Of the two saves of start the last that opened the file decides what is in it: STOPPED and
      no pid if the init was waited for, else RUNNING with the pid of this init; if neither opened
      it, it still says CREATED. */
  lemma StartRecord(w: World, id: string, attach: bool, io: StartIO)
    requires Coherent(w.store) && Startable(w, id, io) && io.exec.Returns?
    ensures var c := w.store[id].c;
            Start(w, id, attach, io).0.store ==
              if Waited(attach, io) && io.saveStopped != OpenFails then
                w.store[id := Written(c.(state := Stopped, pid := 0), io.saveStopped)]
              else if io.saveRunning != OpenFails then
                w.store[id := Written(c.(state := Running, pid := io.exec.pid), io.saveRunning)]
              else w.store
  {
    var c := w.store[id].c;
    assert Normal(c.(state := Running, pid := io.exec.pid)) == c.(state := Running, pid := io.exec.pid);
    assert Normal(c.(state := Stopped, pid := 0)) == c.(state := Stopped, pid := 0);
  }

  // ---- run --rm ----

  predicate Tears(o: SaveOutcome) { o == TornReported || o == TornSilent }

  predicate Launches(mode: Mode, io: StartIO) {
    mode != VmMode && io.spec == SpecUsable && io.exec.Returns?
  }

  /** Does the last word on disk, when the start of a fresh container is over, fail to parse? */
  predicate TornAfterStart(mode: Mode, attach: bool, io: StartIO) {
    Launches(mode, io) &&
    if attach && io.wait != WaitFails && io.saveStopped != OpenFails then Tears(io.saveStopped)
    else Tears(io.saveRunning)
  }

  predicate TraceLeft(mode: Mode, attach: bool, io: RunIO) {
    && io.create.stateDirOk && io.create.specOk
    && (Tears(io.create.save)
        || (io.create.save == SaveOk && (TornAfterStart(mode, attach, io.start) || io.delete.unlink == UnlinkFails)))
  }

  /** run --rm on an id that is taken changes nothing. On a free id it leaves a file behind
      exactly when one of the saves that had the last word tore, or the unlink failed: so with
      saves and unlinks succeeding it leaves no trace, wherever start fails. */
  lemma RunRmTrace(w: World, id: string, bundle: string, mode: Mode, attach: bool, io: RunIO)
    requires Coherent(w.store)
    ensures var (w2, code) := RunCommand(w, id, bundle, mode, attach, true, io);
            && (id in w.store ==> w2 == w && code == -1)
            && (id !in w.store && !TraceLeft(mode, attach, io) ==> w2.store == w.store)
            && (id !in w.store && TraceLeft(mode, attach, io) ==> id in w2.store)
  {
    RunKeeps(w, id, bundle, mode, attach, true, io);
    if id !in w.store {
      RunRmOnFreeId(w, id, bundle, mode, attach, io);
    }
  }

  lemma RunRmOnFreeId(w: World, id: string, bundle: string, mode: Mode, attach: bool, io: RunIO)
    requires Coherent(w.store) && id !in w.store
    ensures var w2 := RunCommand(w, id, bundle, mode, attach, true, io).0;
            if TraceLeft(mode, attach, io) then id in w2.store else w2.store == w.store
  {
    var (w1, created) := Create(w, id, bundle, mode, io.create);
    if created && io.create.save == SaveOk {
      StartThenDelete(w1, id, attach, io);
      assert w1.store - {id} == w.store;
    }
  }

  lemma StartThenDelete(w: World, id: string, attach: bool, io: RunIO)
    requires Coherent(w.store) && Loaded(w.store, id).Some? && w.store[id].c.state == Created
    ensures var store := Delete(Start(w, id, attach, io.start).0, id, io.delete).0.store;
            if TornAfterStart(w.store[id].c.mode, attach, io.start) || io.delete.unlink == UnlinkFails then id in store
            else store == w.store - {id}
  {
    StartTearing(w, id, attach, io.start);
    StartKeeps(w, id, attach, io.start);
    DeleteFile(Start(w, id, attach, io.start).0, id, io.delete);
  }

  lemma StartTearing(w: World, id: string, attach: bool, io: StartIO)
    requires Coherent(w.store) && Loaded(w.store, id).Some? && w.store[id].c.state == Created
    ensures var store := Start(w, id, attach, io).0.store;
            id in store && (store[id] == Torn <==> TornAfterStart(w.store[id].c.mode, attach, io))
  {
  }

  /** Delete succeeds exactly on a record that parses, and then removes it, if the unlink goes
      through, and nothing else; on a missing or torn one it changes nothing at all. */
  lemma DeleteFile(w: World, id: string, io: DeleteIO)
    ensures var (w2, ok) := Delete(w, id, io);
            && (ok <==> id in w.store && w.store[id] != Torn)
            && (!ok ==> w2 == w)
            && w2.store == if ok && io.unlink == UnlinkOk then w.store - {id} else w.store
  {
    if id in w.store && w.store[id].Parsed? {
      StopKeeps(w, id, w.store[id].c.pid, io);
    }
  }

  /** On its success path run --rm finds the record STOPPED: no signal is ever sent, and the
      exit code of the container is the exit code of the command. */
  lemma RunRmSendsNoSignal(w: World, id: string, bundle: string, mode: Mode, io: RunIO)
    requires Coherent(w.store) && id !in w.store && io.create == CreateIO(true, true, SaveOk)
    requires Launches(mode, io.start) && io.start.wait != WaitFails && io.start.saveStopped == SaveOk
    ensures var (w2, code) := RunCommand(w, id, bundle, mode, true, true, io);
            && w2.log == w.log + [Spawned(id, io.start.exec.pid)]
            && (io.start.wait.ExitedWith? ==> code == io.start.wait.code)
            && (io.start.wait.KilledBy? ==> code == 128 + io.start.wait.sig)
            && io.start.exec.pid in w2.procs && w2.procs[io.start.exec.pid].life == Gone
  {
  }

  // ---- the killed mark ----

  predicate IsKill(x: Effect, pid: int) {
    x.Signalled? && x.pid == pid && x.sig == Kill
  }

  /** A process marked killed has a SIGKILL in the log. */
  ghost predicate KillsLogged(w: World) {
    forall pid | pid in w.procs && w.procs[pid].killed :: exists i | 0 <= i < |w.log| :: IsKill(w.log[i], pid)
  }

  lemma StopLogsKills(w: World, id: string, pid: int, io: DeleteIO)
    requires KillsLogged(w)
    ensures KillsLogged(Stop(w, id, pid, io))
  {
    var w2 := Stop(w, id, pid, io);
    assert w.log <= w2.log;
    forall p | p in w2.procs && w2.procs[p].killed ensures exists i | 0 <= i < |w2.log| :: IsKill(w2.log[i], p) {
      if w.procs[p].killed {
        var i :| 0 <= i < |w.log| && IsKill(w.log[i], p);
        assert IsKill(w2.log[i], p);
      } else {
        assert IsKill(w2.log[|w2.log| - 1], p);
      }
    }
  }

  lemma LogGrows(w: World, w2: World)
    requires KillsLogged(w) && w.log <= w2.log
    requires forall p | p in w2.procs && w2.procs[p].killed :: p in w.procs && w.procs[p].killed
    ensures KillsLogged(w2)
  {
    forall p | p in w2.procs && w2.procs[p].killed ensures exists i | 0 <= i < |w2.log| :: IsKill(w2.log[i], p) {
      var i :| 0 <= i < |w.log| && IsKill(w.log[i], p);
      assert IsKill(w2.log[i], p);
    }
  }

  lemma StartLogsKills(w: World, id: string, attach: bool, io: StartIO)
    requires KillsLogged(w)
    ensures KillsLogged(Start(w, id, attach, io).0)
  {
    LogGrows(w, Start(w, id, attach, io).0);
  }

  lemma DeleteLogsKills(w: World, id: string, io: DeleteIO)
    requires KillsLogged(w)
    ensures KillsLogged(Delete(w, id, io).0)
  {
    var loaded := Loaded(w.store, id);
    if loaded.Some? {
      StopLogsKills(w, id, loaded.value.pid, io);
    }
  }

  lemma StepLogsKills(w: World, e: Event)
    requires KillsLogged(w)
    ensures KillsLogged(Step(w, e))
  {
    match e
    case CreateEvent(id, bundle, mode, io) => LogGrows(w, Step(w, e));
    case StartEvent(id, attach, io) => StartLogsKills(w, id, attach, io);
    case RunEvent(id, bundle, mode, attach, rm, io) =>
      var w1 := Create(w, id, bundle, mode, io.create).0;
      LogGrows(w, w1);
      StartLogsKills(w1, id, attach, io.start);
      DeleteLogsKills(Start(w1, id, attach, io.start).0, id, io.delete);
    case ExecEvent(id, io) => LogGrows(w, Step(w, e));
    case DeleteEvent(id, io) => DeleteLogsKills(w, id, io);
    case StateEvent(_) =>
    case HostEvent(moves) => LogGrows(w, Step(w, e));
  }

  lemma {:induction false} RunsLogKills(w: World, es: seq<Event>)
    requires KillsLogged(w)
    ensures KillsLogged(RunAll(w, es))
    decreases |es|
  {
    if es != [] {
      StepLogsKills(w, es[0]);
      RunsLogKills(Step(w, es[0]), es[1..]);
    }
  }
}
