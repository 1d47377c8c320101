/**
 Conservation of container processes over whole runs: an init is never forgotten, and
 never claimed twice.

 Two assumptions: the kernel does not reissue a pid that is in use or that a RUNNING record
 names (`Admissible`); each command is `Benign`, which is exactly what it takes that it
 conserves. A start saves its RUNNING record or sees its init end; a delete that drops a RUNNING
 record may signal the init or sees it end; a run does both as far as it gets. Every other
 save, every unlink and every probe of exec may fail.
 */
module Conservation {
  import opened Records
  import opened Lifecycle
  import opened Coherence
  import opened Commands

  // ---- the invariant ----

  ghost predicate Dead(w: World, pid: int)
    requires pid in w.procs
  {
    w.procs[pid].life != Live
  }

  ghost predicate Claims(store: Store, id: string, pid: int) {
    id in store && IsRunning(store[id], pid)
  }

  ghost predicate ClaimedOnce(store: Store, pid: int) {
    exists id :: Claims(store, id, pid) && forall other :: Claims(store, other, pid) ==> other == id
  }

  /** The init is dead, or was sent SIGKILL, or is the pid of exactly one RUNNING record. */
  ghost predicate Accounted(w: World, pid: int)
    requires pid in w.procs
  {
    Dead(w, pid) || w.procs[pid].killed || ClaimedOnce(w.store, pid)
  }

  ghost predicate NoSharedPid(store: Store) {
    forall a, b, pid :: Claims(store, a, pid) && Claims(store, b, pid) ==> a == b
  }

  ghost predicate Conserved(w: World) {
    forall pid | pid in w.procs :: Accounted(w, pid)
  }

  ghost predicate Inv(w: World) {
    Coherent(w.store) && NoSharedPid(w.store) && Conserved(w)
  }

  // ---- the assumptions ----

  /** The pid may be handed out: no process has it and no RUNNING record names it. */
  ghost predicate CanIssue(w: World, pid: int) {
    && (pid in w.procs ==> w.procs[pid].life == Gone)
    && forall id :: !Claims(w.store, id, pid)
  }

  ghost predicate IssueOk(w: World, exec: ExecOutcome) {
    exec.Returns? ==> CanIssue(w, exec.pid)
  }

  ghost predicate Admissible(w: World, e: Event) {
    match e
    case StartEvent(_, _, io) => IssueOk(w, io.exec)
    case RunEvent(_, _, _, _, _, io) => IssueOk(w, io.start.exec)
    case _ => true
  }

  /** The host lets the process end among these moves. */
  predicate Ends(moves: Moves, pid: int) {
    pid in moves && moves[pid] != Live
  }

  /** The init that start launched ends before start returns. */
  predicate EndsInStart(attach: bool, io: StartIO) {
    io.exec.Returns? && ((attach && io.wait != WaitFails) || Ends(io.running, io.exec.pid))
  }

  predicate StartSpares(w: World, id: string, attach: bool, io: StartIO) {
    Startable(w, id, io) && io.exec.Returns? ==> io.saveRunning == SaveOk || EndsInStart(attach, io)
  }

  predicate SignalsPermitted(io: DeleteIO) {
    io.termPermitted && io.probePermitted && io.killPermitted
  }

  /** A live process ends during the stop sequence, which goes on as long as the host permits. */
  predicate EndsInStop(io: DeleteIO, pid: int) {
    || Ends(io.before, pid)
    || (io.termPermitted && (Ends(io.grace, pid) || (io.probePermitted && Ends(io.escalation, pid))))
  }

  predicate DeleteSpares(w: World, id: string, io: DeleteIO) {
    HasRunningRecord(w, id) && io.unlink == UnlinkOk ==>
      var pid := w.store[id].c.pid;
      || pid !in w.procs || w.procs[pid].life != Live || w.procs[pid].killed
      || SignalsPermitted(io) || EndsInStop(io, pid)
  }

  predicate RunSpares(w: World, id: string, bundle: string, mode: Mode, attach: bool, rm: bool, io: RunIO) {
    var (w1, created) := Create(w, id, bundle, mode, io.create);
    created ==>
      && StartSpares(w1, id, attach, io.start)
      && (rm ==> DeleteSpares(Start(w1, id, attach, io.start).0, id, io.delete))
  }

  /** Exactly the commands that leave every init accounted for. */
  predicate Benign(w: World, e: Event) {
    match e
    case StartEvent(id, attach, io) => StartSpares(w, id, attach, io)
    case RunEvent(id, bundle, mode, attach, rm, io) => RunSpares(w, id, bundle, mode, attach, rm, io)
    case DeleteEvent(id, io) => DeleteSpares(w, id, io)
    case _ => true
  }

  ghost predicate GoodRun(w: World, es: seq<Event>)
    decreases |es|
  {
    es == [] || (Admissible(w, es[0]) && Benign(w, es[0]) && GoodRun(Step(w, es[0]), es[1..]))
  }

  // ---- steps ----

  /** Moves of the host alone never endanger the invariant. */
  lemma AdvanceInv(w: World, moves: Moves)
    requires Inv(w)
    ensures Inv(w.(procs := Advance(w.procs, moves)))
  {
    var w2 := w.(procs := Advance(w.procs, moves));
    forall pid | pid in w2.procs ensures Accounted(w2, pid) {
      assert Accounted(w, pid);
    }
  }

  /** Replacing a record by one that is not RUNNING is safe if the pid it named is dead or condemned. */
  lemma UnclaimInv(w: World, id: string, store: Store)
    requires Inv(w) && Coherent(store) && SameElsewhere(w.store, store, id)
    requires id in store ==> !(store[id].Parsed? && store[id].c.state == Running)
    requires forall pid | pid in w.procs && Claims(w.store, id, pid) :: Dead(w, pid) || w.procs[pid].killed
    ensures Inv(w.(store := store))
  {
    var w2 := w.(store := store);
    forall pid | pid in w2.procs ensures Accounted(w2, pid) {
      assert Accounted(w, pid);
      if ClaimedOnce(w.store, pid) && !Claims(w.store, id, pid) {
        var k :| Claims(w.store, k, pid);
        assert Claims(store, k, pid);
        assert forall other :: Claims(store, other, pid) ==> Claims(w.store, other, pid);
      }
    }
    assert forall a, pid :: Claims(store, a, pid) ==> Claims(w.store, a, pid);
  }

  lemma CreateInv(w: World, id: string, bundle: string, mode: Mode, io: CreateIO)
    requires Inv(w)
    ensures Inv(Create(w, id, bundle, mode, io).0)
  {
    CreateKeeps(w, id, bundle, mode, io);
    var w2 := Create(w, id, bundle, mode, io).0;
    if id !in w.store {
      UnclaimInv(w, id, w2.store);
    }
  }

  lemma LaunchedInv(w: World, id: string, running: Container, save: SaveOutcome)
    requires Inv(w) && save == SaveOk
    requires running.id == Some(id) && running.state == Running && running.pid > 0
    requires id in w.store && !(w.store[id].Parsed? && w.store[id].c.state == Running)
    requires CanIssue(w, running.pid)
    ensures Inv(Launched(w, id, running, save))
  {
    var w2 := Launched(w, id, running, save);
    SavedKeeps(w.store, id, running, save);
    assert forall a, pid :: a != id ==> (Claims(w2.store, a, pid) <==> Claims(w.store, a, pid));
    assert forall pid :: Claims(w2.store, id, pid) <==> pid == running.pid;
    forall pid | pid in w2.procs ensures Accounted(w2, pid) {
      if pid == running.pid {
        assert Claims(w2.store, id, pid);
      } else {
        assert Accounted(w, pid);
        if ClaimedOnce(w.store, pid) {
          var k :| Claims(w.store, k, pid);
          assert Claims(w2.store, k, pid);
        }
      }
    }
  }

  lemma AttendedInv(w: World, id: string, running: Container, io: StartIO)
    requires Inv(w)
    requires running.id == Some(id) && running.state == Running && running.pid > 0
    requires Claims(w.store, id, running.pid)
    ensures Inv(Attended(w, running, io).0)
  {
    AdvanceInv(w, io.running);
    var w1 := w.(procs := Advance(w.procs, io.running));
    if io.wait != WaitFails {
      var reap := map[running.pid as int := Gone];
      AdvanceInv(w1, reap);
      var w2 := w1.(procs := Advance(w1.procs, reap));
      var stopped := running.(state := Stopped, pid := 0);
      SavedKeeps(w2.store, id, stopped, io.saveStopped);
      if io.saveStopped != OpenFails {
        UnclaimInv(w2, id, Saved(w2.store, stopped, io.saveStopped).0);
      }
    }
  }

  lemma SavedStartInv(w: World, id: string, attach: bool, io: StartIO)
    requires Inv(w) && IssueOk(w, io.exec)
    requires io.saveRunning == SaveOk || !Startable(w, id, io) || !io.exec.Returns?
    ensures Inv(Start(w, id, attach, io).0)
  {
    if Startable(w, id, io) && io.exec.Returns? {
      var running := w.store[id].c.(state := Running, pid := io.exec.pid);
      LaunchedInv(w, id, running, io.saveRunning);
      AdvanceInv(Launched(w, id, running, io.saveRunning), io.running);
      AttendedInv(Launched(w, id, running, io.saveRunning), id, running, io);
    } else {
      forall pid | pid in w.procs ensures Accounted(Start(w, id, attach, io).0, pid) {
        assert Accounted(w, pid);
      }
    }
  }

  /** A start conserves every init exactly if it launches none, or its RUNNING save goes through,
      or it is attached and its wait succeeds, or the host lets the init end. */
  lemma StartConservesIff(w: World, id: string, attach: bool, io: StartIO)
    requires Inv(w) && IssueOk(w, io.exec)
    ensures Conserved(Start(w, id, attach, io).0) <==> StartSpares(w, id, attach, io)
  {
    var w2 := Start(w, id, attach, io).0;
    if io.saveRunning == SaveOk || !Startable(w, id, io) || !io.exec.Returns? {
      SavedStartInv(w, id, attach, io);
    } else {
      UnsavedClaims(w, id, attach, io);
      StartProcs(w, id, attach, io);
      var pid := io.exec.pid;
      forall p | p in w2.procs && p != pid ensures Accounted(w2, p) {
        SameClaims(w, w2, p);
      }
      assert Accounted(w2, pid) <==> Dead(w2, pid);
      EndsInStartIff(w, id, attach, io);
    }
  }

  lemma EndsInStartIff(w: World, id: string, attach: bool, io: StartIO)
    requires Startable(w, id, io) && io.exec.Returns?
    ensures var w2 := Start(w, id, attach, io).0;
            io.exec.pid in w2.procs && (Dead(w2, io.exec.pid) <==> EndsInStart(attach, io))
  {
  }

  /** Whatever the other save did, without the RUNNING save start has made no record claim anything. */
  lemma UnsavedClaims(w: World, id: string, attach: bool, io: StartIO)
    requires Coherent(w.store) && Startable(w, id, io) && io.exec.Returns? && io.saveRunning != SaveOk
    ensures var w2 := Start(w, id, attach, io).0;
            forall k, p :: Claims(w2.store, k, p) <==> Claims(w.store, k, p)
  {
    StartKeeps(w, id, attach, io);
    var w2 := Start(w, id, attach, io).0;
    forall k, p ensures Claims(w2.store, k, p) <==> Claims(w.store, k, p) {
      if k == id {
        assert !Claims(w.store, id, p);
      }
    }
  }

  /** A start that launches adds its init, condemns nobody and brings nobody back to life. */
  lemma StartProcs(w: World, id: string, attach: bool, io: StartIO)
    requires Startable(w, id, io) && io.exec.Returns?
    ensures var w2 := Start(w, id, attach, io).0;
            && w2.procs.Keys == w.procs.Keys + {io.exec.pid as int} && !w2.procs[io.exec.pid].killed
            && forall p | p in w.procs && p != io.exec.pid ::
                 w2.procs[p].killed == w.procs[p].killed && (Dead(w, p) ==> Dead(w2, p))
  {
  }

  lemma SameClaims(w: World, w2: World, p: int)
    requires p in w.procs && p in w2.procs && Accounted(w, p)
    requires forall k :: Claims(w2.store, k, p) <==> Claims(w.store, k, p)
    requires w2.procs[p].killed == w.procs[p].killed && (Dead(w, p) ==> Dead(w2, p))
    ensures Accounted(w2, p)
  {
  }

  lemma StartInv(w: World, id: string, attach: bool, io: StartIO)
    requires Inv(w) && IssueOk(w, io.exec) && StartSpares(w, id, attach, io)
    ensures Inv(Start(w, id, attach, io).0)
  {
    if io.saveRunning == SaveOk || !Startable(w, id, io) || !io.exec.Returns? {
      SavedStartInv(w, id, attach, io);
    } else {
      StartConservesIff(w, id, attach, io);
      StartKeeps(w, id, attach, io);
      UnsavedClaims(w, id, attach, io);
    }
  }

  lemma ResumeInv(w: World, id: string, io: ResumeIO)
    requires Inv(w)
    ensures Inv(Resume(w, id, io).0)
  {
    var loaded := Loaded(w.store, id);
    if loaded.Some? && loaded.value.state == Running {
      ResumeShape(w, id, io);
      ResumeKeeps(w, id, io);
      var w2 := Resume(w, id, io).0;
      var before := w.(procs := w2.procs);
      AdvanceInv(w, io.before);
      AdvanceInv(w.(procs := Advance(w.procs, io.before)), io.session);
      assert Inv(before);
      if w2.store != w.store {
        UnclaimInv(before, id, w2.store);
      }
    }
  }

  lemma StopInv(w: World, id: string, pid: int, io: DeleteIO)
    requires Inv(w)
    ensures Inv(Stop(w, id, pid, io))
  {
    AdvanceInv(w, io.before);
    var w1 := w.(procs := Advance(w.procs, io.before));
    AdvanceInv(w1, io.grace);
    var w2 := w1.(procs := Advance(w1.procs, io.grace));
    AdvanceInv(w2, io.escalation);
    var w3 := w2.(procs := Advance(w2.procs, io.escalation));
    if pid in w3.procs {
      CondemnInv(w3, pid);
    }
  }

  lemma CondemnInv(w: World, pid: int)
    requires Inv(w) && pid in w.procs
    ensures Inv(w.(procs := w.procs[pid := w.procs[pid].(killed := true)]))
  {
    var w2 := w.(procs := w.procs[pid := w.procs[pid].(killed := true)]);
    forall p | p in w2.procs ensures Accounted(w2, p) {
      assert Accounted(w, p);
    }
  }

  /** After the stop sequence with permitted signals the init is dead or condemned. */
  lemma StopStops(w: World, id: string, pid: int, io: DeleteIO)
    requires SignalsPermitted(io)
    ensures var w2 := Stop(w, id, pid, io);
            pid in w2.procs ==> Dead(w2, pid) || w2.procs[pid].killed
  {
  }

  ghost predicate StillLive(w: World, pid: int) {
    pid in w.procs && w.procs[pid].life == Live
  }

  /** A stop sequence in which some signal is refused never kills a process that is live in the
      end, and leaves it live exactly if the host did not let it end meanwhile. */
  lemma StopRefused(w: World, id: string, pid: int, io: DeleteIO)
    requires StillLive(w, pid) && !w.procs[pid].killed && !SignalsPermitted(io)
    ensures var w2 := Stop(w, id, pid, io);
            && (StillLive(w2, pid) ==> !w2.procs[pid].killed)
            && (StillLive(w2, pid) <==> !EndsInStop(io, pid))
  {
  }

  /** A delete conserves every init exactly if it drops no RUNNING record, or the init named
      there was not live or was condemned before, or all three calls of the stop sequence are
      permitted, or the host lets the init end while it lasts. In particular a refused SIGTERM
      drops the record of a live init. */
  lemma DeleteConservesIff(w: World, id: string, io: DeleteIO)
    requires Inv(w)
    ensures Conserved(Delete(w, id, io).0) <==> DeleteSpares(w, id, io)
  {
    if HasRunningRecord(w, id) && io.unlink == UnlinkOk {
      var pid := w.store[id].c.pid;
      var w1 := Stop(w, id, pid, io);
      StopInv(w, id, pid, io);
      StopKeeps(w, id, pid, io);
      StopFrame(w, id, pid, io);
      if SignalsPermitted(io) {
        StopStops(w, id, pid, io);
      } else if StillLive(w, pid) && !w.procs[pid].killed {
        StopRefused(w, id, pid, io);
      }
      UnclaimIff(w1, id);
    } else {
      QuietDeleteInv(w, id, io);
    }
  }

  /** The stop sequence takes nothing back: who was dead stays dead, and who was condemned stays so. */
  lemma StopFrame(w: World, id: string, pid: int, io: DeleteIO)
    ensures var w2 := Stop(w, id, pid, io);
            && w2.procs.Keys == w.procs.Keys
            && forall p | p in w.procs :: (Dead(w, p) ==> Dead(w2, p)) && (w.procs[p].killed ==> w2.procs[p].killed)
  {
  }

  /** Dropping a RUNNING record forgets its init exactly if that is live and not condemned. */
  lemma UnclaimIff(w: World, id: string)
    requires Inv(w) && HasRunningRecord(w, id)
    ensures var pid := w.store[id].c.pid;
            Conserved(w.(store := w.store - {id})) <==> (StillLive(w, pid) ==> w.procs[pid].killed)
  {
    var pid := w.store[id].c.pid;
    var w2 := w.(store := w.store - {id});
    assert Claims(w.store, id, pid);
    if StillLive(w, pid) && !w.procs[pid].killed {
      assert forall k :: Claims(w2.store, k, pid) ==> Claims(w.store, k, pid);
      assert !Accounted(w2, pid);
    } else {
      UnclaimInv(w, id, w2.store);
    }
  }

  lemma QuietDeleteInv(w: World, id: string, io: DeleteIO)
    requires Inv(w) && !(HasRunningRecord(w, id) && io.unlink == UnlinkOk)
    ensures Inv(Delete(w, id, io).0)
  {
    var loaded := Loaded(w.store, id);
    if loaded.Some? {
      StopInv(w, id, loaded.value.pid, io);
      StopKeeps(w, id, loaded.value.pid, io);
      if io.unlink == UnlinkOk {
        UnclaimInv(w, id, w.store - {id});
      }
    }
  }

  lemma DeleteInv(w: World, id: string, io: DeleteIO)
    requires Inv(w) && DeleteSpares(w, id, io)
    ensures Inv(Delete(w, id, io).0)
  {
    DeleteConservesIff(w, id, io);
    DeleteKeeps(w, id, io);
    var store := Delete(w, id, io).0.store;
    assert forall k, pid :: Claims(store, k, pid) ==> Claims(w.store, k, pid) by {
      if Loaded(w.store, id).Some? { StopKeeps(w, id, w.store[id].c.pid, io); }
    }
  }

  /** A created record names no process, so a pid that could be issued before still can. */
  lemma CreateIssues(w: World, id: string, bundle: string, mode: Mode, io: CreateIO, exec: ExecOutcome)
    requires IssueOk(w, exec)
    ensures IssueOk(Create(w, id, bundle, mode, io).0, exec)
  {
    var w1 := Create(w, id, bundle, mode, io).0;
    assert forall k, pid :: Claims(w1.store, k, pid) ==> Claims(w.store, k, pid);
  }

  lemma UnsavedNamesNobody(w: World, id: string, attach: bool, io: StartIO)
    requires Startable(w, id, io) && io.exec.Returns? && io.saveRunning != SaveOk
    ensures !HasRunningRecord(Start(w, id, attach, io).0, id)
  {
  }

  /** What start forgot no delete of that id brings back: the record names no process. */
  lemma ForgottenForGood(w: World, id: string, attach: bool, io: StartIO, dio: DeleteIO)
    requires Inv(w) && IssueOk(w, io.exec) && !StartSpares(w, id, attach, io)
    ensures !Conserved(Delete(Start(w, id, attach, io).0, id, dio).0)
  {
    var w2 := Start(w, id, attach, io).0;
    var w3 := Delete(w2, id, dio).0;
    var pid := io.exec.pid;
    UnsavedClaims(w, id, attach, io);
    StartProcs(w, id, attach, io);
    EndsInStartIff(w, id, attach, io);
    UnsavedNamesNobody(w, id, attach, io);
    assert w3.procs == w2.procs;
    assert forall k :: Claims(w3.store, k, pid) ==> Claims(w2.store, k, pid);
    assert !Accounted(w3, pid);
  }

  /** A run conserves every init exactly if it creates nothing, or its start conserves, and with
      --rm its delete does. */
  lemma RunConservesIff(w: World, id: string, bundle: string, mode: Mode, attach: bool, rm: bool, io: RunIO)
    requires Inv(w) && IssueOk(w, io.start.exec)
    ensures Conserved(RunCommand(w, id, bundle, mode, attach, rm, io).0) <==>
            RunSpares(w, id, bundle, mode, attach, rm, io)
  {
    CreateInv(w, id, bundle, mode, io.create);
    CreateIssues(w, id, bundle, mode, io.create, io.start.exec);
    var (w1, created) := Create(w, id, bundle, mode, io.create);
    if created {
      RunAfterCreateIff(w1, id, attach, rm, io);
    }
  }

  lemma RunAfterCreateIff(w1: World, id: string, attach: bool, rm: bool, io: RunIO)
    requires Inv(w1) && IssueOk(w1, io.start.exec)
    ensures var w2 := Start(w1, id, attach, io.start).0;
            Conserved(if rm then Delete(w2, id, io.delete).0 else w2) <==>
              StartSpares(w1, id, attach, io.start) && (rm ==> DeleteSpares(w2, id, io.delete))
  {
    StartConservesIff(w1, id, attach, io.start);
    if StartSpares(w1, id, attach, io.start) {
      StartInv(w1, id, attach, io.start);
      DeleteConservesIff(Start(w1, id, attach, io.start).0, id, io.delete);
    } else {
      ForgottenForGood(w1, id, attach, io.start, io.delete);
    }
  }

  lemma RunCommandInv(w: World, id: string, bundle: string, mode: Mode, attach: bool, rm: bool, io: RunIO)
    requires Inv(w) && IssueOk(w, io.start.exec) && RunSpares(w, id, bundle, mode, attach, rm, io)
    ensures Inv(RunCommand(w, id, bundle, mode, attach, rm, io).0)
  {
    CreateInv(w, id, bundle, mode, io.create);
    CreateIssues(w, id, bundle, mode, io.create, io.start.exec);
    var (w1, created) := Create(w, id, bundle, mode, io.create);
    if created {
      StartInv(w1, id, attach, io.start);
      if rm { DeleteInv(Start(w1, id, attach, io.start).0, id, io.delete); }
    }
  }

  /** One command or host move conserves exactly if it is benign. */
  lemma StepConservesIff(w: World, e: Event)
    requires Inv(w) && Admissible(w, e)
    ensures Conserved(Step(w, e)) <==> Benign(w, e)
  {
    match e
    case StartEvent(id, attach, io) => StartConservesIff(w, id, attach, io);
    case RunEvent(id, bundle, mode, attach, rm, io) => RunConservesIff(w, id, bundle, mode, attach, rm, io);
    case DeleteEvent(id, io) => DeleteConservesIff(w, id, io);
    case CreateEvent(_, _, _, _) => StepInv(w, e);
    case ExecEvent(_, _) => StepInv(w, e);
    case StateEvent(_) => StepInv(w, e);
    case HostEvent(_) => StepInv(w, e);
  }

  lemma StepInv(w: World, e: Event)
    requires Inv(w) && Admissible(w, e) && Benign(w, e)
    ensures Inv(Step(w, e))
  {
    match e
    case CreateEvent(id, bundle, mode, io) => CreateInv(w, id, bundle, mode, io);
    case StartEvent(id, attach, io) => StartInv(w, id, attach, io);
    case RunEvent(id, bundle, mode, attach, rm, io) => RunCommandInv(w, id, bundle, mode, attach, rm, io);
    case ExecEvent(id, io) => ResumeInv(w, id, io);
    case DeleteEvent(id, io) => DeleteInv(w, id, io);
    case StateEvent(_) =>
    case HostEvent(moves) => AdvanceInv(w, moves);
  }

  /** Over every run of serialised commands with processes exiting at any point, each init
      that was started is dead, or was sent SIGKILL by delete, or is the pid of exactly one
      RUNNING record, and no two RUNNING records share a pid. */
  lemma {:induction false} ProcessConservation(w: World, es: seq<Event>)
    requires Inv(w) && GoodRun(w, es)
    ensures Inv(RunAll(w, es))
    decreases |es|
  {
    if es != [] {
      StepInv(w, es[0]);
      ProcessConservation(Step(w, es[0]), es[1..]);
    }
  }

  /** The same from nothing, with SIGKILL spelled out: who was condemned has it in the log. */
  lemma NoInitIsForgotten(es: seq<Event>)
    requires GoodRun(EMPTY, es)
    ensures var w := RunAll(EMPTY, es);
            && NoSharedPid(w.store)
            && forall pid | pid in w.procs ::
                 || Dead(w, pid) || ClaimedOnce(w.store, pid)
                 || (w.procs[pid].killed && exists i | 0 <= i < |w.log| :: IsKill(w.log[i], pid))
  {
    ProcessConservation(EMPTY, es);
    RunsLogKills(EMPTY, es);
    var w := RunAll(EMPTY, es);
    assert forall pid | pid in w.procs :: Accounted(w, pid);
  }

  // ---- the assumptions are needed: runs from nothing that forget a live init ----

  ghost predicate Forgotten(w: World, pid: int) {
    pid in w.procs && !Accounted(w, pid)
  }

  function StartIOWith(save: SaveOutcome): StartIO {
    StartIO(SpecUsable, Returns(7), save, map[], ExitedWith(0), SaveOk)
  }

  function CreatedWorld(): World {
    World(map["c" := Parsed(Container(Some("c"), Some("b"), Created, ContainerMode, 0))], map[], [])
  }

  function CreateC(): Event {
    CreateEvent("c", "b", ContainerMode, CreateIO(true, true, SaveOk))
  }

  /** create, then a detached start that cannot save its RUNNING record. */
  lemma UnsavedStartForgets()
    ensures Forgotten(RunAll(EMPTY, [CreateC(), StartEvent("c", false, StartIOWith(OpenFails))]), 7)
  {
    var start := StartEvent("c", false, StartIOWith(OpenFails));
    var w2 := World(CreatedWorld().store, map[7 := Proc(Live, false)], [Spawned("c", 7)]);
    assert Step(EMPTY, CreateC()) == CreatedWorld();
    assert Step(CreatedWorld(), start) == w2;
    assert [CreateC(), start][1..] == [start] && [start][1..] == [];
    assert RunAll(w2, []) == w2;
    assert RunAll(CreatedWorld(), [start]) == w2;
  }

  /** create, detached start, then a delete whose SIGTERM is refused. */
  lemma RefusedTermForgets()
    ensures var io := DeleteIO(map[], false, map[], true, map[], true, UnlinkOk);
            Forgotten(RunAll(EMPTY, [CreateC(), StartEvent("c", false, StartIOWith(SaveOk)), DeleteEvent("c", io)]), 7)
  {
    var start := StartEvent("c", false, StartIOWith(SaveOk));
    var delete := DeleteEvent("c", DeleteIO(map[], false, map[], true, map[], true, UnlinkOk));
    var procs := map[7 := Proc(Live, false)];
    var running := Container(Some("c"), Some("b"), Running, ContainerMode, 7);
    var w2 := World(map["c" := Parsed(running)], procs, [Spawned("c", 7)]);
    assert Step(EMPTY, CreateC()) == CreatedWorld();
    assert Step(CreatedWorld(), start) == w2;
    assert Advance(procs, map[]) == procs;
    assert Step(w2, delete) == w2.(store := map[]);
    assert [CreateC(), start, delete][1..] == [start, delete];
    assert [start, delete][1..] == [delete] && [delete][1..] == [];
    assert RunAll(w2, [delete]) == w2.(store := map[]);
    assert RunAll(CreatedWorld(), [start, delete]) == w2.(store := map[]);
  }
}
