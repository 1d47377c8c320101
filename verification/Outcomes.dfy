/**
 What each command reports and does to processes, told by what the host answers and by nothing
 else: exit statuses in numbers, signals in order, the records that are written.
 */
module Outcomes {
  import opened Records
  import opened Lifecycle
  import opened Coherence
  import opened Commands

  // ---- processes moving on their own ----

  predicate GoesAway(moves: Moves, pid: int) {
    pid in moves && moves[pid] == Gone
  }

  predicate Dies(moves: Moves, pid: int) {
    pid in moves && moves[pid] != Live
  }

  /** Nobody comes back, and nobody is condemned or lost by it. */
  lemma MovesAreForward(procs: Procs, moves: Moves)
    ensures Advance(procs, moves).Keys == procs.Keys
    ensures forall p | p in procs ::
              var q := Advance(procs, moves)[p];
              && q.killed == procs[p].killed
              && (q.life == Live <==> procs[p].life == Live && !Dies(moves, p))
              && (q.life == Gone <==> procs[p].life == Gone || GoesAway(moves, p))
  {
  }

  // ---- create ----

  predicate Creates(w: World, id: string, io: CreateIO) {
    io.stateDirOk && io.specOk && id !in w.store
  }

  /** Create reports success if the id is free, the state directory and the bundle's spec are good,
      and the save says so; then the record holds this id, bundle and mode, CREATED without a pid.
      It has no other effect. */
  lemma CreateOutcome(w: World, id: string, bundle: string, mode: Mode, io: CreateIO)
    ensures var (w2, ok) := Create(w, id, bundle, mode, io);
            var record := Container(Some(id), if bundle == "" then None else Some(bundle), Created, mode, 0);
            && w2.procs == w.procs && w2.log == w.log
            && (ok <==> Creates(w, id, io) && (io.save == SaveOk || io.save == TornSilent))
            && w2.store == if !Creates(w, id, io) || io.save == OpenFails then w.store
                           else w.store[id := if io.save == SaveOk then Parsed(record) else Torn]
  {
  }

  // ---- start ----

  /** An attached start reports the exit status of the init, or 128 and the signal that killed it;
      a detached one reports 0. */
  lemma StartStatus(w: World, id: string, attach: bool, io: StartIO)
    requires Startable(w, id, io) && io.exec.Returns?
    ensures var r := Start(w, id, attach, io).1;
            && (!attach ==> r == Started(0))
            && (attach && io.wait == WaitFails ==> r == StartFailed)
            && (attach && io.wait.ExitedWith? ==> r == Started(io.wait.code))
            && (attach && io.wait.KilledBy? ==> r == Started(128 + io.wait.sig))
  {
  }

  // ---- run ----

  predicate RunSucceeds(w: World, id: string, mode: Mode, attach: bool, rm: bool, io: RunIO) {
    && Creates(w, id, io.create) && io.create.save == SaveOk
    && mode != VmMode && io.start.spec == SpecUsable && io.start.exec.Returns?
    && !(attach && io.start.wait == WaitFails)
    && !(rm && TornAfterStart(mode, attach, io.start))
  }

  /** Run fails exactly if it cannot create, launch or wait, or with --rm finds a torn record in the
      end; else it reports like start, with and without --rm. */
  lemma RunStatus(w: World, id: string, bundle: string, mode: Mode, attach: bool, rm: bool, io: RunIO)
    requires Coherent(w.store)
    ensures var code := RunCommand(w, id, bundle, mode, attach, rm, io).1;
            && (code == -1 <==> !RunSucceeds(w, id, mode, attach, rm, io))
            && (code != -1 && !attach ==> code == 0)
            && (code != -1 && attach && io.start.wait.ExitedWith? ==> code == io.start.wait.code)
            && (code != -1 && attach && io.start.wait.KilledBy? ==> code == 128 + io.start.wait.sig)
  {
    CreateOutcome(w, id, bundle, mode, io.create);
    var (w1, created) := Create(w, id, bundle, mode, io.create);
    if created && io.create.save == SaveOk {
      RunStatusOnceCreated(w1, id, attach, io);
    }
  }

  lemma RunStatusOnceCreated(w: World, id: string, attach: bool, io: RunIO)
    requires Coherent(w.store) && Loaded(w.store, id).Some? && w.store[id].c.state == Created
    ensures var (w2, r) := Start(w, id, attach, io.start);
            var launched := w.store[id].c.mode != VmMode && io.start.spec == SpecUsable && io.start.exec.Returns?;
            && (r == StartFailed <==> !launched || (attach && io.start.wait == WaitFails))
            && (r.Started? && !attach ==> r.code == 0)
            && (r.Started? && attach && io.start.wait.ExitedWith? ==> r.code == io.start.wait.code)
            && (r.Started? && attach && io.start.wait.KilledBy? ==> r.code == 128 + io.start.wait.sig)
            && (Delete(w2, id, io.delete).1 <==> !TornAfterStart(w.store[id].c.mode, attach, io.start))
  {
    StartOutcome(w, id, attach, io.start);
    if Startable(w, id, io.start) && io.start.exec.Returns? { StartStatus(w, id, attach, io.start); }
    StartTearing(w, id, attach, io.start);
    DeleteFile(Start(w, id, attach, io.start).0, id, io.delete);
  }

  // ---- exec ----

  /** A session that ran reports the helper's exit status, or 128 and the signal that killed it, or 1. */
  lemma ExecStatus(w: World, id: string, io: ResumeIO)
    ensures var code := Resume(w, id, io).1;
            && (code != -1 && io.helper.HelperExited? ==> code == io.helper.code)
            && (code != -1 && io.helper.HelperKilledBy? ==> code == 128 + io.helper.sig)
            && (code != -1 && io.helper.HelperOther? ==> code == 1)
  {
  }

  /** Whatever happens, exec starts no init, sends no signal and condemns nobody. */
  lemma ExecSendsNothing(w: World, id: string, io: ResumeIO)
    ensures var w2 := Resume(w, id, io).0;
            && w2.log == w.log && w2.procs.Keys == w.procs.Keys
            && forall p | p in w.procs :: w2.procs[p].killed == w.procs[p].killed
  {
    forall p
      ensures p in Resume(w, id, io).0.procs <==> p in w.procs
      ensures p in w.procs ==> Resume(w, id, io).0.procs[p].killed == w.procs[p].killed
    {
      ExecCondemnsNobody(w, id, io, p);
    }
    ResumeShape(w, id, io);
  }

  lemma ExecCondemnsNobody(w: World, id: string, io: ResumeIO, p: int)
    ensures var w2 := Resume(w, id, io).0;
            (p in w2.procs <==> p in w.procs) && (p in w.procs ==> w2.procs[p].killed == w.procs[p].killed)
  {
  }

  // ---- delete ----

  predicate IsThere(w: World, pid: int) {
    pid in w.procs && w.procs[pid].life != Gone
  }

  /** The record is RUNNING, its init is there when it is asked to end, and may be asked. */
  predicate TermIsSent(w: World, id: string, io: DeleteIO) {
    && HasRunningRecord(w, id)
    && IsThere(w, w.store[id].c.pid) && !GoesAway(io.before, w.store[id].c.pid)
    && io.termPermitted
  }

  /** It was asked, and is still there after the grace period and when it is to be killed. */
  predicate KillIsSent(w: World, id: string, io: DeleteIO) {
    && TermIsSent(w, id, io)
    && !GoesAway(io.grace, w.store[id].c.pid) && io.probePermitted
    && !GoesAway(io.escalation, w.store[id].c.pid) && io.killPermitted
  }

  /** Delete sends SIGTERM and then SIGKILL, each exactly in its case, to the init of the record,
      and nothing else; who is condemned by it has been sent that SIGKILL. */
  lemma DeleteSignals(w: World, id: string, io: DeleteIO)
    ensures var w2 := Delete(w, id, io).0;
            && w2.log == w.log
                         + (if TermIsSent(w, id, io) then [Signalled(id, w.store[id].c.pid, Term)] else [])
                         + (if KillIsSent(w, id, io) then [Signalled(id, w.store[id].c.pid, Kill)] else [])
            && w2.procs.Keys == w.procs.Keys
            && forall p | p in w.procs ::
                 w2.procs[p].killed <==> w.procs[p].killed || (KillIsSent(w, id, io) && p == w.store[id].c.pid)
  {
    if HasRunningRecord(w, id) {
      StopSignals(w, id, w.store[id].c.pid, io);
      forall p
        ensures p in Delete(w, id, io).0.procs <==> p in w.procs
        ensures p in w.procs ==> (Delete(w, id, io).0.procs[p].killed <==>
                  w.procs[p].killed || (KillIsSent(w, id, io) && p == w.store[id].c.pid))
      {
        StopCondemns(w, id, w.store[id].c.pid, io, p);
      }
    }
  }

  lemma StopSignals(w: World, id: string, pid: int, io: DeleteIO)
    ensures var asked := IsThere(w, pid) && !GoesAway(io.before, pid) && io.termPermitted;
            var killed := && asked && !GoesAway(io.grace, pid) && io.probePermitted
                          && !GoesAway(io.escalation, pid) && io.killPermitted;
            Stop(w, id, pid, io).log ==
              w.log + (if asked then [Signalled(id, pid, Term)] else [])
                    + (if killed then [Signalled(id, pid, Kill)] else [])
  {
  }

  lemma StopCondemns(w: World, id: string, pid: int, io: DeleteIO, p: int)
    ensures var w2 := Stop(w, id, pid, io);
            var killed := && IsThere(w, pid) && !GoesAway(io.before, pid) && io.termPermitted
                          && !GoesAway(io.grace, pid) && io.probePermitted
                          && !GoesAway(io.escalation, pid) && io.killPermitted;
            && (p in w2.procs <==> p in w.procs)
            && (p in w.procs ==> (w2.procs[p].killed <==> w.procs[p].killed || (killed && p == pid)))
  {
  }

  // ---- main ----

  /** What a start or run writes to its pid file once it is launched and detached, and reports. */
  function PidFileOutcome(saved: bool, pid: Pid, pidFile: PidFileIO): (int, Option<PidT>) {
    if pidFile == NoPidFile || (saved && pidFile == EmptyName) then (0, None)
    else if saved && pidFile == Named(true) then (0, Some(pid))
    else (-1, None)
  }

  /** A start that fails is -1, an attached one reports the exit, and a detached one is 0 unless it
      was to write a pid file and the RUNNING record was not saved or the file does not open. */
  lemma MainStart(w: World, id: string, attach: bool, io: StartIO, pidFile: PidFileIO)
    requires Coherent(w.store)
    ensures var status := ExitStatus(w, StartEvent(id, attach, io), pidFile);
            if !Startable(w, id, io) || !io.exec.Returns? then status == (-1, None)
            else if !attach then status == PidFileOutcome(io.saveRunning == SaveOk, io.exec.pid, pidFile)
            else match io.wait
                 case WaitFails => status == (-1, None)
                 case ExitedWith(n) => status == (n, None)
                 case KilledBy(sig) => status == (128 + sig, None)
  {
    if Startable(w, id, io) && io.exec.Returns? {
      StartRecord(w, id, attach, io);
      StartStatus(w, id, attach, io);
    }
  }

  /** The same for run. */
  lemma MainRun(w: World, id: string, bundle: string, mode: Mode, attach: bool, rm: bool, io: RunIO, pidFile: PidFileIO)
    requires Coherent(w.store) && (rm ==> attach)
    ensures var status := ExitStatus(w, RunEvent(id, bundle, mode, attach, rm, io), pidFile);
            if !RunSucceeds(w, id, mode, attach, rm, io) then status == (-1, None)
            else if !attach then status == PidFileOutcome(io.start.saveRunning == SaveOk, io.start.exec.pid, pidFile)
            else match io.start.wait
                 case WaitFails => false
                 case ExitedWith(n) => status == (n, None)
                 case KilledBy(sig) => status == (128 + sig, None)
  {
    RunStatus(w, id, bundle, mode, attach, rm, io);
    if RunSucceeds(w, id, mode, attach, rm, io) && !attach {
      CreateOutcome(w, id, bundle, mode, io.create);
      var w1 := Create(w, id, bundle, mode, io.create).0;
      CreateKeeps(w, id, bundle, mode, io.create);
      MainStart(w1, id, false, io.start, pidFile);
    }
  }

  /** A failed create or delete is -1, a good one 0; state is 0 with a record that parses and else 1;
      exec reports what it returned. None of them writes a pid file. */
  lemma MainOther(w: World, e: Event, pidFile: PidFileIO)
    requires !e.StartEvent? && !e.RunEvent?
    ensures var (status, written) := ExitStatus(w, e, pidFile);
            && written == None
            && match e
               case CreateEvent(id, _, _, io) =>
                 status == if Creates(w, id, io) && (io.save == SaveOk || io.save == TornSilent) then 0 else -1
               case DeleteEvent(id, _) => status == if id in w.store && w.store[id] != Torn then 0 else -1
               case StateEvent(id) => status == if id in w.store && w.store[id] != Torn then 0 else 1
               case ExecEvent(id, io) => status == Resume(w, id, io).1
               case _ => status == 0
  {
  }
}
