/**
 What every run keeps of the records, whatever saves and signals do: coherence, one
 direction of travel, and the fate of a state file that does not parse.
 */
module Coherence {
  import opened Records
  import opened Lifecycle

  // ---- what one command keeps ----

  /** From file `a` to file `b`: a torn file stays torn, and a record keeps its identity and never goes back. */
  predicate Forward(a: Contents, b: Contents) {
    && (a == Torn ==> b == Torn)
    && (a.Parsed? && b.Parsed? ==>
          && Rank(a.c.state) <= Rank(b.c.state)
          && a.c.id == b.c.id && a.c.bundle == b.c.bundle && a.c.mode == b.c.mode)
  }

  ghost predicate ForwardAt(a: Store, b: Store, id: string) {
    id in a ==> id in b && Forward(a[id], b[id])
  }

  /** Everything logged between the two worlds is about `id`. */
  ghost predicate OnlyAbout(before: seq<Effect>, after: seq<Effect>, id: string) {
    before <= after && forall i | |before| <= i < |after| :: after[i].id == id
  }

  /** A command on `id` keeps coherence, leaves other ids alone, acts only on processes of
      `id`, and does nothing at all when the file of `id` does not parse. */
  ghost predicate Keeps(w: World, w2: World, id: string) {
    && Coherent(w2.store)
    && SameElsewhere(w.store, w2.store, id)
    && OnlyAbout(w.log, w2.log, id)
    && (id in w.store && w.store[id] == Torn ==> id in w2.store && w2.store[id] == Torn && w2.log == w.log)
  }

  lemma SavedKeeps(store: Store, id: string, c: Container, o: SaveOutcome)
    requires Coherent(store) && CoherentRecord(c) && c.id == Some(id)
    ensures Coherent(Saved(store, c, o).0) && SameElsewhere(store, Saved(store, c, o).0, id)
  {
  }

  lemma CreateKeeps(w: World, id: string, bundle: string, mode: Mode, io: CreateIO)
    requires Coherent(w.store)
    ensures Keeps(w, Create(w, id, bundle, mode, io).0, id)
    ensures id in w.store ==> Create(w, id, bundle, mode, io) == (w, false)
  {
    SavedKeeps(w.store, id, Container(Some(id), Some(bundle), Created, mode, 0), io.save);
  }

  lemma LaunchedKeeps(w: World, id: string, running: Container, save: SaveOutcome)
    requires Coherent(w.store) && Loaded(w.store, id).Some?
    requires running == w.store[id].c.(state := Running, pid := running.pid) && running.pid > 0
    ensures Keeps(w, Launched(w, id, running, save), id)
  {
    SavedKeeps(w.store, id, running, save);
  }

  lemma AttendedKeeps(w: World, id: string, running: Container, io: StartIO)
    requires Coherent(w.store) && running.state == Running && running.id == Some(id)
    ensures var w2 := Attended(w, running, io).0;
            Coherent(w2.store) && SameElsewhere(w.store, w2.store, id) && w2.log == w.log
  {
    SavedKeeps(w.store, id, running.(state := Stopped, pid := 0), io.saveStopped);
  }

  lemma StartKeeps(w: World, id: string, attach: bool, io: StartIO)
    requires Coherent(w.store)
    ensures Keeps(w, Start(w, id, attach, io).0, id)
  {
    var loaded := Loaded(w.store, id);
    if loaded.Some? && io.exec.Returns? {
      var running := loaded.value.(state := Running, pid := io.exec.pid);
      LaunchedKeeps(w, id, running, io.saveRunning);
      AttendedKeeps(Launched(w, id, running, io.saveRunning), id, running, io);
    }
  }

  lemma StartForward(w: World, id: string, attach: bool, io: StartIO)
    requires Coherent(w.store)
    ensures ForwardAt(w.store, Start(w, id, attach, io).0.store, id)
  {
  }

  lemma UpdateShape(w: World, c: Container, permitted: bool, save: SaveOutcome)
    ensures var w2 := Update(w, c, permitted, save);
            w2.procs == w.procs && w2.log == w.log &&
            (w2.store != w.store ==>
               c.state == Running && c.pid > 0 && KillAnswer(w.procs, c.pid, true) == NoProcess &&
               w2.store == Saved(w.store, c.(state := Stopped, pid := 0), save).0)
  {
  }

  /** The only record exec can write is its own container stopped, and only once the kernel
      says that the init is gone. */
  lemma ResumeShape(w: World, id: string, io: ResumeIO)
    ensures var w2 := Resume(w, id, io).0;
            w2.log == w.log && w2.procs.Keys == w.procs.Keys &&
            (w2.store != w.store ==>
               Loaded(w.store, id).Some? && var c := Loaded(w.store, id).value;
               c.state == Running && c.pid > 0 && KillAnswer(w2.procs, c.pid, true) == NoProcess &&
               w2.store == Saved(w.store, c.(state := Stopped, pid := 0), io.save).0)
  {
    var loaded := Loaded(w.store, id);
    if loaded.Some? {
      var w1 := w.(procs := Advance(w.procs, io.before));
      var w2 := w1.(procs := Advance(w1.procs, io.session));
      UpdateShape(w2, loaded.value, io.secondPermitted, io.save);
    }
  }

  lemma ResumeKeeps(w: World, id: string, io: ResumeIO)
    requires Coherent(w.store)
    ensures Keeps(w, Resume(w, id, io).0, id)
    ensures ForwardAt(w.store, Resume(w, id, io).0.store, id)
  {
    ResumeShape(w, id, io);
    if Resume(w, id, io).0.store != w.store {
      SavedKeeps(w.store, id, w.store[id].c.(state := Stopped, pid := 0), io.save);
    }
  }

  lemma StopKeeps(w: World, id: string, pid: int, io: DeleteIO)
    ensures Stop(w, id, pid, io).store == w.store
    ensures OnlyAbout(w.log, Stop(w, id, pid, io).log, id)
  {
  }

  lemma DeleteKeeps(w: World, id: string, io: DeleteIO)
    requires Coherent(w.store)
    ensures Keeps(w, Delete(w, id, io).0, id)
  {
    var loaded := Loaded(w.store, id);
    if loaded.Some? {
      StopKeeps(w, id, loaded.value.pid, io);
    }
  }

  lemma RunKeeps(w: World, id: string, bundle: string, mode: Mode, attach: bool, rm: bool, io: RunIO)
    requires Coherent(w.store)
    ensures Keeps(w, RunCommand(w, id, bundle, mode, attach, rm, io).0, id)
    ensures id in w.store ==> RunCommand(w, id, bundle, mode, attach, rm, io) == (w, -1)
  {
    CreateKeeps(w, id, bundle, mode, io.create);
    var w1 := Create(w, id, bundle, mode, io.create).0;
    StartKeeps(w1, id, attach, io.start);
    var w2 := Start(w1, id, attach, io.start).0;
    DeleteKeeps(w2, id, io.delete);
  }

  lemma StepKeeps(w: World, e: Event)
    requires Coherent(w.store)
    ensures !e.HostEvent? ==> Keeps(w, Step(w, e), e.id)
    ensures e.HostEvent? ==> Step(w, e).store == w.store && Step(w, e).log == w.log
    ensures !e.HostEvent? && !e.DeleteEvent? ==> ForwardAt(w.store, Step(w, e).store, e.id)
  {
    match e
    case CreateEvent(id, bundle, mode, io) => CreateKeeps(w, id, bundle, mode, io);
    case StartEvent(id, attach, io) => StartKeeps(w, id, attach, io); StartForward(w, id, attach, io);
    case RunEvent(id, bundle, mode, attach, rm, io) => RunKeeps(w, id, bundle, mode, attach, rm, io);
    case ExecEvent(id, io) => ResumeKeeps(w, id, io);
    case DeleteEvent(id, io) => DeleteKeeps(w, id, io);
    case StateEvent(_) =>
    case HostEvent(_) =>
  }

  // ---- coherence of every reachable store ----

  /** In every run, with any saves failing or tearing, each parseable record stays CREATED
      with pid 0, RUNNING with a pid, or STOPPED with pid 0; PAUSED is never reached. */
  lemma {:induction false} RunsStayCoherent(w: World, es: seq<Event>)
    requires Coherent(w.store)
    ensures Coherent(RunAll(w, es).store)
    decreases |es|
  {
    if es != [] {
      StepKeeps(w, es[0]);
      RunsStayCoherent(Step(w, es[0]), es[1..]);
    }
  }

  // ---- one direction of travel ----

  /** Between its create and the next delete of an id, the states its file shows never go
      backwards, and id, bundle and mode never change, even when saves fail or tear. */
  lemma {:induction false} LifecycleIsMonotone(w: World, es: seq<Event>, id: string)
    requires Coherent(w.store) && id in w.store
    requires forall e | e in es :: !(e.DeleteEvent? && e.id == id)
    ensures id in RunAll(w, es).store && Forward(w.store[id], RunAll(w, es).store[id])
    decreases |es|
  {
    if es != [] {
      StepKeeps(w, es[0]);
      assert !(es[0].DeleteEvent? && es[0].id == id);
      LifecycleIsMonotone(Step(w, es[0]), es[1..], id);
    }
  }

  // ---- a torn record is never acted on ----

  ghost predicate NothingAbout(before: seq<Effect>, after: seq<Effect>, id: string) {
    before <= after && forall i | |before| <= i < |after| :: after[i].id != id
  }

  /** Once a state file does not parse, no run of commands on any ids spawns or signals a
      process for that id, rewrites its file or removes it. */
  lemma {:induction false} TornRecordIsNeverActedOn(w: World, es: seq<Event>, id: string)
    requires Coherent(w.store) && id in w.store && w.store[id] == Torn
    ensures id in RunAll(w, es).store && RunAll(w, es).store[id] == Torn
    ensures NothingAbout(w.log, RunAll(w, es).log, id)
    decreases |es|
  {
    if es != [] {
      StepKeeps(w, es[0]);
      TornRecordIsNeverActedOn(Step(w, es[0]), es[1..], id);
    }
  }
}
