/**
 One start of a container overlapped by any number of exec and state commands on the same
 id, step by step. Nothing locks the state file, and a save is two steps: opening truncates
 the file, and only then is the record written; either may fail.

 In this window nobody creates or deletes the id or starts it a second time.
 */
module Overlap {
  import opened Records
  import L = Lifecycle
  import C = Commands

  datatype Starter =
    | Loading
    | Cloning(c: Container)          // holds the CREATED record
    | Opening(c: Container)          // holds a record it is about to save
    | Writing(c: Container)          // has truncated the file
    | Waiting(c: Container)          // attached, in waitpid
    | Finished

  datatype Session =
    | Asking(query: bool)            // a state command if `query`, else an exec
    | Probing(c: Container)
    | Inside(c: Container)           // nsenter is running
    | Reprobing(c: Container)
    | SessionOpening(c: Container)
    | SessionWriting(c: Container)
    | Over

  /** `seen` is every record the file has held, in order; `init` is the process once it exists. */
  datatype State = State(
    attach: bool, file: Contents, starter: Starter, init: Option<L.Life>,
    sessions: seq<Session>, seen: seq<Container>)

  datatype Action =
    | StarterActs(pid: Pid, ok: bool, tear: bool)   // one step of start; what the host decides
    | Arrive(query: bool)
    | SessionActs(i: nat, ok: bool, tear: bool)
    | InitExits
    | HostReaps

  function Initially(c0: Container, attach: bool): State {
    State(attach, Parsed(c0), Loading, None, [], [c0])
  }

  // ---- saving in two steps ----

  /** The write half. When it fails the file is left as it is, or torn. */
  function Write(s: State, c: Container, ok: bool, tear: bool): State {
    if ok then s.(file := Parsed(c), seen := s.seen + [c])
    else if tear then s.(file := Torn)
    else s
  }

  // ---- start ----

  /** What start does after a save, well or badly ended. */
  function AfterSave(s: State, c: Container): Starter {
    if c.state == Running && s.attach then Waiting(c) else Finished
  }

  function StarterStep(s: State, pid: Pid, ok: bool, tear: bool): State {
    match s.starter
    case Loading =>
      if s.file.Parsed? && s.file.c.state == Created then s.(starter := Cloning(s.file.c)) else s.(starter := Finished)
    case Cloning(c) =>
      if ok then s.(starter := Opening(c.(state := Running, pid := pid)), init := Some(L.Live))
      else s.(starter := Finished)
    case Opening(c) =>
      if ok then s.(file := Torn, starter := Writing(c)) else s.(starter := AfterSave(s, c))
    case Writing(c) =>
      Write(s, c, ok, tear).(starter := AfterSave(s, c))
    case Waiting(c) =>
      if !ok then s.(starter := Finished)
      else if s.init == Some(L.Live) then s   // waitpid blocks
      else s.(starter := Opening(c.(state := Stopped, pid := 0)), init := Some(L.Gone))
    case Finished => s
  }

  // ---- exec and state ----

  function InitAnswers(s: State): bool {
    s.init.Some? && s.init != Some(L.Gone)
  }

  function SessionStep(s: State, i: nat, ok: bool, tear: bool): State
    requires i < |s.sessions|
  {
    match s.sessions[i]
    case Asking(query) =>
      if !query && s.file.Parsed? && s.file.c.state == Running && s.file.c.pid > 0
      then Goes(s, i, Probing(s.file.c)) else Goes(s, i, Over)
    case Probing(c) =>
      if InitAnswers(s) then Goes(s, i, Inside(c)) else Goes(s, i, Reprobing(c))
    case Inside(c) =>
      if ok then Goes(s, i, Reprobing(c)) else Goes(s, i, Over)   // no /proc, no fork, no wait
    case Reprobing(c) =>
      if InitAnswers(s) then Goes(s, i, Over) else Goes(s, i, SessionOpening(c.(state := Stopped, pid := 0)))
    case SessionOpening(c) =>
      if ok then Goes(s.(file := Torn), i, SessionWriting(c)) else Goes(s, i, Over)
    case SessionWriting(c) => Goes(Write(s, c, ok, tear), i, Over)
    case Over => s
  }

  function Goes(s: State, i: nat, to: Session): State
    requires i < |s.sessions|
  {
    s.(sessions := s.sessions[i := to])
  }

  // ---- runs ----

  /** An init whose parent still lives becomes a zombie; once start is over the host reaps it. */
  function Next(s: State, a: Action): State {
    match a
    case StarterActs(pid, ok, tear) => StarterStep(s, pid, ok, tear)
    case Arrive(query) => s.(sessions := s.sessions + [Asking(query)])
    case SessionActs(i, ok, tear) => if i < |s.sessions| then SessionStep(s, i, ok, tear) else s
    case InitExits => if s.init == Some(L.Live) then s.(init := Some(L.Zombie)) else s
    case HostReaps => if s.init == Some(L.Zombie) && s.starter == Finished then s.(init := Some(L.Gone)) else s
  }

  function Run(s: State, actions: seq<Action>): State
    decreases |actions|
  {
    if actions == [] then s else Run(Next(s, actions[0]), actions[1..])
  }

  // ---- what is always true ----

  predicate SameContainer(a: Container, b: Container) {
    a.id == b.id && a.bundle == b.bundle && a.mode == b.mode
  }

  /** Every record seen belongs to the same container, and states never go backwards. */
  ghost predicate OneDirection(seen: seq<Container>, c0: Container) {
    && (forall c | c in seen :: SameContainer(c, c0))
    && (forall i, j | 0 <= i <= j < |seen| :: Rank(seen[i].state) <= Rank(seen[j].state))
  }

  predicate IsStopOf(c: Container, c0: Container) {
    c == c0.(state := Stopped, pid := 0)
  }

  predicate IsRunOf(c: Container, c0: Container) {
    SameContainer(c, c0) && c.state == Running && c.pid > 0
  }

  ghost predicate StarterOk(s: State, c0: Container) {
    match s.starter
    case Loading => s.init.None? && s.seen == [c0]
    case Cloning(c) => s.init.None? && s.seen == [c0] && c == c0
    case Opening(c) => MayWrite(s, c, c0)
    case Writing(c) => MayWrite(s, c, c0)
    case Waiting(c) => IsRunOf(c, c0) && s.init.Some? && s.init != Some(L.Gone)
    case Finished => true
  }

  /** RUNNING may be written as the first word after CREATED, while the init exists; STOPPED
      once the init is reaped. */
  predicate MayWrite(s: State, c: Container, c0: Container) {
    || (IsRunOf(c, c0) && s.seen == [c0] && InitAnswers(s))
    || (IsStopOf(c, c0) && s.init == Some(L.Gone))
  }

  ghost predicate SessionOk(s: State, t: Session, c0: Container) {
    match t
    case Asking(_) => true
    case Over => true
    case Probing(c) => IsRunOf(c, c0) && |s.seen| > 1
    case Inside(c) => IsRunOf(c, c0) && |s.seen| > 1
    case Reprobing(c) => IsRunOf(c, c0) && |s.seen| > 1
    case SessionOpening(c) => IsStopOf(c, c0) && |s.seen| > 1 && s.init == Some(L.Gone)
    case SessionWriting(c) => IsStopOf(c, c0) && |s.seen| > 1 && s.init == Some(L.Gone)
  }

  ghost predicate HistoryOk(s: State, c0: Container) {
    && |s.seen| > 0 && s.seen[0] == c0
    && OneDirection(s.seen, c0)
    && (s.file.Parsed? ==> s.file.c == s.seen[|s.seen| - 1])
    && (forall c | c in s.seen :: c.state == Created || c.state == Running || c.state == Stopped)
    && (forall c | c in s.seen :: c.state == Stopped ==> s.init == Some(L.Gone))
    && (|s.seen| > 1 ==> s.init.Some?)
  }

  ghost predicate Inv(s: State, c0: Container) {
    && HistoryOk(s, c0)
    && StarterOk(s, c0)
    && forall t | t in s.sessions :: SessionOk(s, t, c0)
  }

  ghost predicate Fresh(c0: Container) {
    c0.state == Created
  }

  // ---- preservation ----

  lemma WriteKeeps(s: State, c: Container, c0: Container, ok: bool, tear: bool)
    requires HistoryOk(s, c0) && SameContainer(c, c0)
    requires (c.state == Running && s.seen == [c0] && c0.state == Created && s.init.Some?)
             || (c.state == Stopped && s.init == Some(L.Gone))
    ensures HistoryOk(Write(s, c, ok, tear), c0)
  {
  }

  /** What a session relies on can only become truer. */
  lemma SessionsRely(s: State, s2: State, c0: Container)
    requires forall t | t in s.sessions :: SessionOk(s, t, c0)
    requires |s.seen| <= |s2.seen| && (s.init == Some(L.Gone) ==> s2.init == Some(L.Gone))
    ensures forall t | t in s.sessions :: SessionOk(s2, t, c0)
  {
    forall t | t in s.sessions ensures SessionOk(s2, t, c0) {
      assert SessionOk(s, t, c0);
    }
  }

  lemma StarterKeepsHistory(s: State, c0: Container, pid: Pid, ok: bool, tear: bool)
    requires Fresh(c0) && HistoryOk(s, c0) && StarterOk(s, c0)
    ensures HistoryOk(StarterStep(s, pid, ok, tear), c0)
  {
    if s.starter.Writing? {
      WriteKeeps(s, s.starter.c, c0, ok, tear);
    }
  }

  lemma StarterMovesOk(s: State, c0: Container, pid: Pid, ok: bool, tear: bool)
    requires Fresh(c0) && HistoryOk(s, c0) && StarterOk(s, c0)
    ensures var s2 := StarterStep(s, pid, ok, tear);
            && StarterOk(s2, c0)
            && s2.sessions == s.sessions && |s.seen| <= |s2.seen|
            && (s.init == Some(L.Gone) ==> s2.init == Some(L.Gone))
  {
  }

  lemma StarterKeepsInv(s: State, c0: Container, pid: Pid, ok: bool, tear: bool)
    requires Fresh(c0) && Inv(s, c0)
    ensures Inv(StarterStep(s, pid, ok, tear), c0)
  {
    StarterKeepsHistory(s, c0, pid, ok, tear);
    StarterMovesOk(s, c0, pid, ok, tear);
    SessionsRely(s, StarterStep(s, pid, ok, tear), c0);
  }

  /** Where a session goes next is justified by what has been seen. */
  lemma SessionMovesOk(s: State, c0: Container, i: nat, ok: bool, tear: bool)
    requires Fresh(c0) && Inv(s, c0) && i < |s.sessions|
    ensures var s2 := SessionStep(s, i, ok, tear);
            |s2.sessions| == |s.sessions| && SessionOk(s2, s2.sessions[i], c0)
  {
    assert SessionOk(s, s.sessions[i], c0);
  }

  lemma SessionKeepsHistory(s: State, c0: Container, i: nat, ok: bool, tear: bool)
    requires Fresh(c0) && Inv(s, c0) && i < |s.sessions|
    ensures HistoryOk(SessionStep(s, i, ok, tear), c0)
  {
    assert SessionOk(s, s.sessions[i], c0);
    if s.sessions[i].SessionWriting? {
      WriteKeeps(s, s.sessions[i].c, c0, ok, tear);
    }
  }

  /** A session leaves start and the init where they are, and writes only when start is past its RUNNING save. */
  lemma SessionKeepsStarter(s: State, c0: Container, i: nat, ok: bool, tear: bool)
    requires Fresh(c0) && Inv(s, c0) && i < |s.sessions|
    ensures StarterOk(SessionStep(s, i, ok, tear), c0)
  {
    var s2 := SessionStep(s, i, ok, tear);
    assert SessionOk(s, s.sessions[i], c0);
    assert s2.starter == s.starter && s2.init == s.init;
  }

  lemma SessionFrame(s: State, i: nat, ok: bool, tear: bool)
    requires i < |s.sessions|
    ensures var s2 := SessionStep(s, i, ok, tear);
            && |s2.sessions| == |s.sessions|
            && s2.sessions == s.sessions[i := s2.sessions[i]]
            && |s.seen| <= |s2.seen| && s2.init == s.init && s2.starter == s.starter
  {
  }

  lemma Assemble(s: State, s2: State, c0: Container, i: nat)
    requires Inv(s, c0) && HistoryOk(s2, c0) && StarterOk(s2, c0)
    requires i < |s.sessions| == |s2.sessions| && s2.sessions == s.sessions[i := s2.sessions[i]]
    requires SessionOk(s2, s2.sessions[i], c0)
    requires |s.seen| <= |s2.seen| && s2.init == s.init
    ensures Inv(s2, c0)
  {
    SessionsRely(s, s2, c0);
  }

  lemma SessionKeepsInv(s: State, c0: Container, i: nat, ok: bool, tear: bool)
    requires Fresh(c0) && Inv(s, c0) && i < |s.sessions|
    ensures Inv(SessionStep(s, i, ok, tear), c0)
  {
    SessionKeepsHistory(s, c0, i, ok, tear);
    SessionKeepsStarter(s, c0, i, ok, tear);
    SessionMovesOk(s, c0, i, ok, tear);
    SessionFrame(s, i, ok, tear);
    Assemble(s, SessionStep(s, i, ok, tear), c0, i);
  }

  lemma NextKeepsInv(s: State, c0: Container, a: Action)
    requires Fresh(c0) && Inv(s, c0)
    ensures Inv(Next(s, a), c0)
  {
    match a
    case StarterActs(pid, ok, tear) => StarterKeepsInv(s, c0, pid, ok, tear);
    case SessionActs(i, ok, tear) => if i < |s.sessions| { SessionKeepsInv(s, c0, i, ok, tear); }
    case Arrive(query) =>
    case InitExits => SessionsRely(s, Next(s, a), c0);
    case HostReaps => SessionsRely(s, Next(s, a), c0);
  }

  lemma {:induction false} RunKeepsInv(s: State, c0: Container, actions: seq<Action>)
    requires Fresh(c0) && Inv(s, c0)
    ensures Inv(Run(s, actions), c0)
    decreases |actions|
  {
    if actions != [] {
      NextKeepsInv(s, c0, actions[0]);
      RunKeepsInv(Next(s, actions[0]), c0, actions[1..]);
    }
  }

  // ---- the theorems ----

  /** In every interleaving the parseable records seen follow CREATED, RUNNING, STOPPED
      without going back, are all of one id, bundle and mode, and STOPPED has been seen only
      if the init has been reaped. */
  lemma LifecycleIsMonotoneUnderOverlap(c0: Container, attach: bool, actions: seq<Action>)
    requires Fresh(c0)
    ensures var s := Run(Initially(c0, attach), actions);
            && OneDirection(s.seen, c0)
            && (s.file.Parsed? ==> |s.seen| > 0 && s.file.c == s.seen[|s.seen| - 1])
            && (forall c | c in s.seen && c.state == Stopped :: s.init == Some(L.Gone))
  {
    RunKeepsInv(Initially(c0, attach), c0, actions);
  }

  /** A record is written only forward of everything seen so far, and STOPPED only after the
      init of this very start has been reaped. */
  lemma EachWriteMovesForward(c0: Container, attach: bool, actions: seq<Action>, a: Action)
    requires Fresh(c0)
    ensures var s := Run(Initially(c0, attach), actions);
            Next(s, a).seen == s.seen || exists c :: Next(s, a).seen == s.seen + [c] && MayWrite(s, c, c0)
  {
    RunKeepsInv(Initially(c0, attach), c0, actions);
    WritesMovesForward(Run(Initially(c0, attach), actions), c0, a);
  }

  lemma WritesMovesForward(s: State, c0: Container, a: Action)
    requires Inv(s, c0)
    ensures Next(s, a).seen == s.seen || exists c :: Next(s, a).seen == s.seen + [c] && MayWrite(s, c, c0)
  {
    if a.SessionActs? && a.i < |s.sessions| {
      assert SessionOk(s, s.sessions[a.i], c0);
      if s.sessions[a.i].SessionWriting? {
        assert MayWrite(s, s.sessions[a.i].c, c0);
      }
    } else if a.StarterActs? && s.starter.Writing? {
      assert MayWrite(s, s.starter.c, c0);
    }
  }

  /** No exec touches the state file before start has reaped the init or is over. */
  lemma ExecWritesOnlyAfterReap(c0: Container, attach: bool, actions: seq<Action>, i: nat, ok: bool, tear: bool)
    requires Fresh(c0)
    ensures var s := Run(Initially(c0, attach), actions);
            var s2 := Next(s, SessionActs(i, ok, tear));
            (s2.file != s.file || s2.seen != s.seen) ==>
              s.init == Some(L.Gone) && (s.starter == Finished || IsStopOf(Held(s.starter), c0))
  {
    RunKeepsInv(Initially(c0, attach), c0, actions);
    var s := Run(Initially(c0, attach), actions);
    if i < |s.sessions| {
      assert SessionOk(s, s.sessions[i], c0);
    }
  }

  function Held(t: Starter): Container {
    if t.Loading? || t.Finished? then Container(None, None, Created, ContainerMode, 0) else t.c
  }

  /** A command that loads in the truncation window fails there and then, and whatever
      happens afterwards it never acts again. */
  lemma {:induction false} LoadInTheWindowWritesNothing(s: State, i: nat, ok: bool, tear: bool, actions: seq<Action>)
    requires i < |s.sessions| && s.sessions[i].Asking? && s.file == Torn
    ensures var s2 := Next(s, SessionActs(i, ok, tear));
            && s2 == s.(sessions := s.sessions[i := Over])
            && i < |Run(s2, actions).sessions| && Run(s2, actions).sessions[i] == Over
            && forall ok2, tear2 :: Next(Run(s2, actions), SessionActs(i, ok2, tear2)) == Run(s2, actions)
  {
    OverStaysOver(s.(sessions := s.sessions[i := Over]), i, actions);
  }

  lemma {:induction false} OverStaysOver(s: State, i: nat, actions: seq<Action>)
    requires i < |s.sessions| && s.sessions[i] == Over
    ensures i < |Run(s, actions).sessions| && Run(s, actions).sessions[i] == Over
    decreases |actions|
  {
    if actions != [] {
      OverStaysOver(Next(s, actions[0]), i, actions[1..]);
    }
  }

  // ---- when everybody is done ----

  /** A write half that is taken now goes through. */
  predicate WriteGoesThrough(s: State, a: Action) {
    match a
    case StarterActs(_, ok, _) => s.starter.Writing? ==> ok
    case SessionActs(i, ok, _) => i < |s.sessions| && s.sessions[i].SessionWriting? ==> ok
    case _ => true
  }

  predicate WritesGoThrough(s: State, actions: seq<Action>)
    decreases |actions|
  {
    actions == [] || (WriteGoesThrough(s, actions[0]) && WritesGoThrough(Next(s, actions[0]), actions[1..]))
  }

  /** Whoever truncated the file is about to write it. */
  ghost predicate TornIsPending(s: State) {
    s.file == Torn ==> s.starter.Writing? || exists i :: 0 <= i < |s.sessions| && s.sessions[i].SessionWriting?
  }

  lemma SessionKeepsPending(s: State, i: nat, ok: bool, tear: bool)
    requires TornIsPending(s) && i < |s.sessions| && (s.sessions[i].SessionWriting? ==> ok)
    ensures TornIsPending(SessionStep(s, i, ok, tear))
  {
    var s2 := SessionStep(s, i, ok, tear);
    if s2.file == Torn && !s2.starter.Writing? {
      if s.file == Torn {
        var k :| 0 <= k < |s.sessions| && s.sessions[k].SessionWriting?;
        assert k != i && s2.sessions[k].SessionWriting?;
      } else {
        assert s2.sessions[i].SessionWriting?;
      }
    }
  }

  lemma NextKeepsPending(s: State, a: Action)
    requires TornIsPending(s) && WriteGoesThrough(s, a)
    ensures TornIsPending(Next(s, a))
  {
    match a
    case SessionActs(i, ok, tear) => if i < |s.sessions| { SessionKeepsPending(s, i, ok, tear); }
    case Arrive(query) =>
      if s.file == Torn && !s.starter.Writing? {
        var k :| 0 <= k < |s.sessions| && s.sessions[k].SessionWriting?;
        assert Next(s, a).sessions[k].SessionWriting?;
      }
    case StarterActs(_, _, _) =>
    case InitExits =>
    case HostReaps =>
  }

  lemma {:induction false} RunKeepsPending(s: State, actions: seq<Action>)
    requires TornIsPending(s) && WritesGoThrough(s, actions)
    ensures TornIsPending(Run(s, actions))
    decreases |actions|
  {
    if actions != [] {
      NextKeepsPending(s, actions[0]);
      RunKeepsPending(Next(s, actions[0]), actions[1..]);
    }
  }

  /** If no write is lost, then once start and all sessions are over, in whatever order they
      truncated and wrote, the file parses and holds the last record seen, the furthest of all. */
  lemma QuietFileParses(c0: Container, attach: bool, actions: seq<Action>)
    requires Fresh(c0) && WritesGoThrough(Initially(c0, attach), actions)
    ensures var s := Run(Initially(c0, attach), actions);
            s.starter == Finished && (forall t | t in s.sessions :: t == Over) ==>
              && |s.seen| > 0 && s.file == Parsed(s.seen[|s.seen| - 1])
              && forall c | c in s.seen :: Rank(c.state) <= Rank(s.file.c.state)
  {
    RunKeepsInv(Initially(c0, attach), c0, actions);
    RunKeepsPending(Initially(c0, attach), actions);
    var s := Run(Initially(c0, attach), actions);
    if s.starter == Finished && forall t | t in s.sessions :: t == Over {
      assert forall i | 0 <= i < |s.sessions| :: s.sessions[i] in s.sessions;
    }
  }

  // ---- what does get written ----

  /** Every step of start is a success. */
  predicate StartGoesWell(actions: seq<Action>) {
    forall a | a in actions && a.StarterActs? :: a.ok
  }

  /** An attached start, all going well, that is over has left STOPPED as the last word. */
  ghost predicate StopsAtEnd(s: State, c0: Container) {
    && s.attach && |s.seen| > 0
    && (s.starter == Loading ==> s.file == Parsed(c0))
    && (s.starter == Finished ==> s.seen[|s.seen| - 1] == c0.(state := Stopped, pid := 0))
  }

  lemma StarterStopsAtEnd(s: State, c0: Container, pid: Pid, tear: bool)
    requires Fresh(c0) && Inv(s, c0) && StopsAtEnd(s, c0)
    ensures StopsAtEnd(StarterStep(s, pid, true, tear), c0)
  {
  }

  lemma SessionStopsAtEnd(s: State, c0: Container, i: nat, ok: bool, tear: bool)
    requires Fresh(c0) && Inv(s, c0) && StopsAtEnd(s, c0) && i < |s.sessions|
    ensures StopsAtEnd(SessionStep(s, i, ok, tear), c0)
  {
    assert SessionOk(s, s.sessions[i], c0);
  }

  lemma {:induction false} RunStopsAtEnd(s: State, c0: Container, actions: seq<Action>)
    requires Fresh(c0) && Inv(s, c0) && StopsAtEnd(s, c0) && StartGoesWell(actions)
    ensures StopsAtEnd(Run(s, actions), c0)
    decreases |actions|
  {
    if actions != [] {
      var a := actions[0];
      assert a in actions && forall x | x in actions[1..] :: x in actions;
      NextKeepsInv(s, c0, a);
      if a.StarterActs? {
        StarterStopsAtEnd(s, c0, a.pid, a.tear);
      } else if a.SessionActs? && a.i < |s.sessions| {
        SessionStopsAtEnd(s, c0, a.i, a.ok, a.tear);
      }
      RunStopsAtEnd(Next(s, a), c0, actions[1..]);
    }
  }

  /** Whatever exec and state commands do meanwhile, an attached start all of whose steps succeed
      has put STOPPED with no pid last when it is over; and if no write of theirs was lost either,
      that is what the quiet file says. */
  lemma AttachedStartRecordsTheEnd(c0: Container, actions: seq<Action>)
    requires Fresh(c0) && StartGoesWell(actions) && Run(Initially(c0, true), actions).starter == Finished
    ensures var s := Run(Initially(c0, true), actions);
            && |s.seen| > 0 && s.seen[|s.seen| - 1] == c0.(state := Stopped, pid := 0)
            && (WritesGoThrough(Initially(c0, true), actions) && (forall t | t in s.sessions :: t == Over) ==>
                  s.file == Parsed(c0.(state := Stopped, pid := 0)))
  {
    RunStopsAtEnd(Initially(c0, true), c0, actions);
    if WritesGoThrough(Initially(c0, true), actions) {
      QuietFileParses(c0, true, actions);
    }
  }

  /** Session i goes on to record the end of an init that is gone, or has done so. */
  ghost predicate WillRecord(s: State, i: nat, c0: Container) {
    && i < |s.sessions| && s.init == Some(L.Gone)
    && !s.sessions[i].Asking?
    && (s.sessions[i] == Over ==> c0.(state := Stopped, pid := 0) in s.seen)
  }

  lemma StepWillRecord(s: State, i: nat, c0: Container, a: Action)
    requires Inv(s, c0) && WillRecord(s, i, c0) && (a.SessionActs? && a.i == i ==> a.ok)
    ensures WillRecord(Next(s, a), i, c0)
  {
    if a.SessionActs? && a.i < |s.sessions| {
      assert SessionOk(s, s.sessions[a.i], c0);
    }
  }

  /** An exec inside whose window the init is gone, and whose own steps all succeed, has put STOPPED
      with no pid among the records when it is over. */
  lemma {:induction false} ExecRecordsTheEnd(s: State, c0: Container, i: nat, actions: seq<Action>)
    requires Fresh(c0) && Inv(s, c0) && WillRecord(s, i, c0)
    requires forall a | a in actions && a.SessionActs? && a.i == i :: a.ok
    ensures i < |Run(s, actions).sessions|
    ensures Run(s, actions).sessions[i] == Over ==> c0.(state := Stopped, pid := 0) in Run(s, actions).seen
    decreases |actions|
  {
    if actions != [] {
      var a := actions[0];
      assert a in actions && forall x | x in actions[1..] :: x in actions;
      NextKeepsInv(s, c0, a);
      StepWillRecord(s, i, c0, a);
      ExecRecordsTheEnd(Next(s, a), c0, i, actions[1..]);
    }
  }

  // ---- the two steps of a save are one save when nobody is in between ----

  /** What a whole save makes of the file of its own id. */
  ghost predicate IsSave(before: Contents, c: Container, o: SaveOutcome, after: Contents) {
    c.id.Some? && Saved(map[c.id.value := before], c, o).0 == map[c.id.value := after]
  }

  /** Uninterrupted, opening and writing have exactly the effect of one save of the whole-command model. */
  lemma TwoStepsAreOneSave(s: State, c: Container, o: SaveOutcome, pid: Pid)
    requires s.starter == Opening(c) && c.id.Some? && Normal(c) == c
    ensures var cut := StarterStep(s, pid, o != OpenFails, false);
            var saved := if o == OpenFails then cut else StarterStep(cut, pid, o == SaveOk, true);
            && IsSave(s.file, c, o, saved.file) && saved.starter == AfterSave(s, c)
            && (o != OpenFails ==> cut.file == Torn)   // in between there is nothing to read
  {
  }

  /** The same for the save of an exec, and then that exec is over. */
  lemma SessionStepsAreOneSave(s: State, i: nat, c: Container, o: SaveOutcome)
    requires i < |s.sessions| && s.sessions[i] == SessionOpening(c) && c.id.Some? && Normal(c) == c
    ensures var cut := SessionStep(s, i, o != OpenFails, false);
            var saved := if o == OpenFails then cut else SessionStep(cut, i, o == SaveOk, true);
            && IsSave(s.file, c, o, saved.file) && saved.sessions == s.sessions[i := Over]
            && (o != OpenFails ==> cut.file == Torn)
  {
  }

  // ---- alone, the steps are the commands of the whole-command model ----

  function WholeSave(s: State, pid: Pid, o: SaveOutcome): State {
    var cut := StarterStep(s, pid, o != OpenFails, false);
    if o == OpenFails then cut else StarterStep(cut, pid, o == SaveOk, true)
  }

  /** The steps of one start with nobody in between, up to its end. */
  function WholeStart(s: State, io: L.StartIO): State {
    var pid := if io.exec.Returns? then io.exec.pid else 1;
    var loaded := StarterStep(s, pid, true, false);
    var launched := StarterStep(loaded, pid, io.exec.Returns?, false);
    if !io.exec.Returns? then launched
    else
      var saved := WholeSave(launched, pid, io.saveRunning);
      if !s.attach then saved
      else
        var waited := StarterStep(Next(saved, InitExits), pid, io.wait != L.WaitFails, false);
        if io.wait == L.WaitFails then waited else WholeSave(waited, pid, io.saveStopped)
  }

  lemma WholeSaveLeaves(s: State, pid: Pid, c: Container, o: SaveOutcome)
    requires s.starter == Opening(c)
    ensures var s2 := WholeSave(s, pid, o);
            && s2.starter == AfterSave(s, c) && s2.init == s.init && s2.attach == s.attach
            && s2.file == if o == OpenFails then s.file else if o == SaveOk then Parsed(c) else Torn
  {
  }

  /** They leave in the file what the start of the whole-command model leaves in the store. */
  lemma StartAloneIsStart(c0: Container, id: string, attach: bool, io: L.StartIO)
    requires c0.id == Some(id) && c0.bundle != Some("") && c0.state == Created && c0.pid == 0
    requires c0.mode != VmMode && io.spec == L.SpecUsable
    ensures var s := WholeStart(Initially(c0, attach), io);
            && s.starter == Finished
            && map[id := s.file] == L.Start(L.World(map[id := Parsed(c0)], map[], []), id, attach, io).0.store
  {
    var w := L.World(map[id := Parsed(c0)], map[], []);
    if io.exec.Returns? {
      C.StartRecord(w, id, attach, io);
      LaunchedAlone(Initially(c0, attach), c0, io.exec.pid, attach, io);
    } else {
      C.StartOutcome(w, id, attach, io);
    }
  }

  /** On a record that is not CREATED, or none that parses, both do nothing. */
  lemma StartAloneIsRefused(s: State, id: string, io: L.StartIO)
    requires s.starter == Loading && s.init.None? && !(s.file.Parsed? && s.file.c.state == Created)
    ensures WholeStart(s, io) == s.(starter := Finished)
    ensures L.Start(L.World(map[id := s.file], map[], []), id, s.attach, io) ==
              (L.World(map[id := s.file], map[], []), L.StartFailed)
  {
  }

  lemma LaunchedAlone(s: State, c0: Container, pid: Pid, attach: bool, io: L.StartIO)
    requires c0.state == Created && s == Initially(c0, attach) && io.exec == L.Returns(pid)
    ensures var s2 := WholeStart(s, io);
            && s2.starter == Finished
            && s2.file ==
                 if attach && io.wait != L.WaitFails && io.saveStopped != OpenFails then
                   C.Written(c0.(state := Stopped, pid := 0), io.saveStopped)
                 else if io.saveRunning != OpenFails then
                   C.Written(c0.(state := Running, pid := pid), io.saveRunning)
                 else s.file
  {
    var running := c0.(state := Running, pid := pid);
    var launched := s.(starter := Opening(running), init := Some(L.Live));
    assert StarterStep(StarterStep(s, pid, true, false), pid, true, false) == launched;
    WholeSaveLeaves(launched, pid, running, io.saveRunning);
    if attach && io.wait != L.WaitFails {
      var saved := WholeSave(launched, pid, io.saveRunning);
      var stopped := running.(state := Stopped, pid := 0);
      var waited := StarterStep(Next(saved, InitExits), pid, true, false);
      assert waited.starter == Opening(stopped) && waited.file == saved.file;
      WholeSaveLeaves(waited, pid, stopped, io.saveStopped);
      assert stopped == c0.(state := Stopped, pid := 0);
    }
  }

  function WholeSessionSave(s: State, i: nat, o: SaveOutcome): (s2: State)
    requires i < |s.sessions|
    ensures |s2.sessions| == |s.sessions|
  {
    var cut := SessionStep(s, i, o != OpenFails, false);
    if o == OpenFails then cut else SessionStep(cut, i, o == SaveOk, true)
  }

  predicate HelperRuns(io: L.ResumeIO) {
    io.procfs && io.forkOk && io.waitOk
  }

  /** The load and the first probe of session i. */
  function Probed(s: State, i: nat): (s2: State)
    requires i < |s.sessions|
    ensures |s2.sessions| == |s.sessions|
  {
    SessionStep(SessionStep(s, i, true, false), i, true, false)
  }

  /** The helper comes back, if it was called; the init may be gone by then. */
  function HelperBack(s: State, i: nat, io: L.ResumeIO, goes: bool): (s2: State)
    requires i < |s.sessions|
    ensures |s2.sessions| == |s.sessions|
  {
    var moved := if goes then s.(init := Some(L.Gone)) else s;
    if s.sessions[i].Inside? then SessionStep(moved, i, HelperRuns(io), false) else moved
  }

  /** The second probe, and the save. */
  function Recorded(s: State, i: nat, save: SaveOutcome): (s2: State)
    requires i < |s.sessions|
    ensures |s2.sessions| == |s.sessions|
  {
    var reprobed := if s.sessions[i].Reprobing? then SessionStep(s, i, true, false) else s;
    if reprobed.sessions[i].SessionOpening? then WholeSessionSave(reprobed, i, save) else reprobed
  }

  /** The steps of one exec with nobody in between. */
  function WholeExec(s: State, i: nat, io: L.ResumeIO, goes: bool): (s2: State)
    requires i < |s.sessions|
    ensures |s2.sessions| == |s.sessions|
  {
    Recorded(HelperBack(Probed(s, i), i, io, goes), i, io.save)
  }

  /** They leave in the file what the exec of the whole-command model leaves in the store. */
  lemma ExecAloneIsResume(s: State, i: nat, id: string, pid: Pid, io: L.ResumeIO, goes: bool)
    requires i < |s.sessions| && s.sessions[i] == Asking(false)
    requires io.before == map[] && io.session == if goes then map[pid as int := L.Gone] else map[]
    requires s.init.Some? && (s.file.Parsed? ==> s.file.c.id == Some(id) && Normal(s.file.c) == s.file.c)
    requires s.file.Parsed? && s.file.c.state == Running ==> s.file.c.pid == pid
    ensures var w := L.World(map[id := s.file], map[pid as int := L.Proc(s.init.value, false)], []);
            && WholeExec(s, i, io, goes).sessions[i] == Over
            && map[id := WholeExec(s, i, io, goes).file] == L.Resume(w, id, io).0.store
  {
    var w := L.World(map[id := s.file], map[pid as int := L.Proc(s.init.value, false)], []);
    ExecAloneLeaves(s, i, io, goes);
    ResumeAloneLeaves(w, id, pid, io, goes);
  }

  /** The file after one exec on its own: STOPPED is saved exactly if there was a RUNNING record and
      the init was gone at first, or after a helper that ran. */
  lemma ExecAloneLeaves(s: State, i: nat, io: L.ResumeIO, goes: bool)
    requires i < |s.sessions| && s.sessions[i] == Asking(false) && s.init.Some?
    ensures var s2 := WholeExec(s, i, io, goes);
            && s2.sessions[i] == Over
            && s2.file ==
                 if && s.file.Parsed? && s.file.c.state == Running && s.file.c.pid > 0
                    && (s.init == Some(L.Gone) || (goes && HelperRuns(io))) && io.save != OpenFails
                 then C.Written(s.file.c.(state := Stopped, pid := 0), io.save) else s.file
  {
    ProbedIs(s, i);
    HelperBackIs(Probed(s, i), i, io, goes);
    RecordedIs(HelperBack(Probed(s, i), i, io, goes), i, io.save);
  }

  lemma ProbedIs(s: State, i: nat)
    requires i < |s.sessions| && s.sessions[i] == Asking(false)
    ensures var s2 := Probed(s, i);
            && s2.file == s.file && s2.init == s.init
            && s2.sessions[i] ==
                 if s.file.Parsed? && s.file.c.state == Running && s.file.c.pid > 0
                 then if InitAnswers(s) then Inside(s.file.c) else Reprobing(s.file.c)
                 else Over
  {
  }

  lemma HelperBackIs(s: State, i: nat, io: L.ResumeIO, goes: bool)
    requires i < |s.sessions|
    ensures var s2 := HelperBack(s, i, io, goes);
            && s2.file == s.file && s2.init == (if goes then Some(L.Gone) else s.init)
            && s2.sessions[i] ==
                 if s.sessions[i].Inside? then if HelperRuns(io) then Reprobing(s.sessions[i].c) else Over
                 else s.sessions[i]
  {
  }

  lemma RecordedIs(s: State, i: nat, save: SaveOutcome)
    requires i < |s.sessions| && (s.sessions[i].Reprobing? || s.sessions[i] == Over)
    ensures var s2 := Recorded(s, i, save);
            && s2.sessions[i] == Over
            && s2.file == if s.sessions[i].Reprobing? && !InitAnswers(s) && save != OpenFails
                          then C.Written(s.sessions[i].c.(state := Stopped, pid := 0), save) else s.file
  {
  }

  lemma ResumeAloneLeaves(w: L.World, id: string, pid: Pid, io: L.ResumeIO, goes: bool)
    requires w.store.Keys == {id} && w.procs.Keys == {pid as int}
    requires io.before == map[] && io.session == if goes then map[pid as int := L.Gone] else map[]
    requires var f := w.store[id];
             f.Parsed? ==> f.c.id == Some(id) && Normal(f.c) == f.c && (f.c.state == Running ==> f.c.pid == pid)
    ensures var f := w.store[id];
            L.Resume(w, id, io).0.store ==
              if && f.Parsed? && f.c.state == Running
                 && (w.procs[pid].life == L.Gone || (goes && HelperRuns(io))) && io.save != OpenFails
              then map[id := C.Written(f.c.(state := Stopped, pid := 0), io.save)] else w.store
  {
    var f := w.store[id];
    if f.Parsed? {
      C.ExecIsNotALifecycleTransition(w, id, io);
      var stopped := f.c.(state := Stopped, pid := 0);
      assert Normal(stopped) == stopped;
      assert Saved(w.store, stopped, io.save).0 ==
               if io.save == OpenFails then w.store else map[id := C.Written(stopped, io.save)];
    }
  }

  /** A state command is over with its load, and changes nothing. */
  lemma StateAloneIsALoad(s: State, i: nat, ok: bool, tear: bool)
    requires i < |s.sessions| && s.sessions[i] == Asking(true)
    ensures SessionStep(s, i, ok, tear) == s.(sessions := s.sessions[i := Over])
  {
  }
}
