/**
 The start-up handshake of nk_container_exec with container_child_fn (src/container/process.c):
 two processes, one pipe with four descriptor copies, one status byte, end-of-file, reaping.

 Every step either side can take is one action; any write may be lost and the child may be
 killed at any point. Only the parent is not interrupted.
 */
module Handshake {

  datatype Byte = Ready | Error

  datatype Fd = Unopened | Open | Closed

  datatype Parent =
    | Allocating
    | MakingPipe
    | Cloning
    | ClosingWriteEnd
    | Reading
    | Judging(got: Got)
    | FailClosing | FailReaping | FailFreeing    // the child did not report ready
    | NoChildClosing(n: nat) | NoChildFreeing    // clone or pipe failed
    | OkClosing | OkFreeing
    | Returned(pid: bool)                        // a pid, or -1

  datatype Got = Nothing | A(b: Byte)            // read returned 0, or one byte

  datatype Child =
    | NotYet
    | ClosingReadEnd
    | SettingUpRootfs
    | WritingError | ClosingAfterError
    | Preparing                                  // chdir, capabilities, limits, session
    | WritingReady | ClosingAfterReady
    | Executing
    | Workload                                   // execve succeeded
    | Exited                                     // a zombie
    | Reaped

  /** `told` is the byte that reached the pipe, if any ever did. */
  datatype State = State(
    parent: Parent, child: Child,
    parentRead: Fd, parentWrite: Fd, childRead: Fd, childWrite: Fd,
    pipe: seq<Byte>, told: Got, rootfsDone: bool, mallocs: nat, frees: nat)

  datatype Action = ParentActs(ok: bool) | ChildActs(ok: bool) | ChildKilled

  const START := State(Allocating, NotYet, Unopened, Unopened, Unopened, Unopened, [], Nothing, false, 0, 0)

  // ---- when a step can be taken ----

  /** read returns when there is a byte, or when no write end is open any more. */
  predicate ReadReturns(s: State) {
    s.pipe != [] || (s.parentWrite != Open && s.childWrite != Open)
  }

  predicate ChildAlive(s: State) {
    s.child != NotYet && s.child != Exited && s.child != Reaped
  }

  predicate Enabled(s: State, a: Action) {
    match a
    case ParentActs(_) =>
      !s.parent.Returned? && (s.parent == Reading ==> ReadReturns(s)) && (s.parent == FailReaping ==> s.child == Exited)
    case ChildActs(_) => ChildAlive(s)
    case ChildKilled => ChildAlive(s)
  }

  // ---- the parent ----

  function ParentStep(s: State, ok: bool): State {
    match s.parent
    case Allocating => if ok then s.(parent := MakingPipe, mallocs := s.mallocs + 1) else s.(parent := Returned(false))
    case MakingPipe =>
      if ok then s.(parent := Cloning, parentRead := Open, parentWrite := Open) else s.(parent := NoChildFreeing)
    case Cloning =>
      if ok then s.(parent := ClosingWriteEnd, child := ClosingReadEnd, childRead := Open, childWrite := Open)
      else s.(parent := NoChildClosing(2))
    case ClosingWriteEnd => s.(parent := Reading, parentWrite := Closed)
    case Reading =>
      if s.pipe != [] then s.(parent := Judging(A(s.pipe[0])), pipe := s.pipe[1..]) else s.(parent := Judging(Nothing))
    case Judging(got) => if got == A(Ready) then s.(parent := OkClosing) else s.(parent := FailClosing)
    case FailClosing => s.(parent := FailReaping, parentRead := Closed)
    case FailReaping => s.(parent := FailFreeing, child := Reaped)
    case FailFreeing => s.(parent := Returned(false), frees := s.frees + 1)
    case NoChildClosing(n) =>
      if n > 1 then s.(parent := NoChildClosing(1), parentRead := Closed)
      else s.(parent := NoChildFreeing, parentWrite := Closed)
    case NoChildFreeing => s.(parent := Returned(false), frees := s.frees + 1)
    case OkClosing => s.(parent := OkFreeing, parentRead := Closed)
    case OkFreeing => s.(parent := Returned(true), frees := s.frees + 1)
    case Returned(_) => s
  }

  // ---- the child ----

  function Tell(s: State, b: Byte, ok: bool): State {
    if ok then s.(pipe := s.pipe + [b], told := A(b)) else s
  }

  /** However a process ends, the kernel closes its descriptors. */
  function Exit(s: State): State {
    s.(child := Exited,
       childRead := if s.childRead == Open then Closed else s.childRead,
       childWrite := if s.childWrite == Open then Closed else s.childWrite)
  }

  function ChildStep(s: State, ok: bool): State {
    match s.child
    case ClosingReadEnd => s.(child := SettingUpRootfs, childRead := Closed)
    case SettingUpRootfs => if ok then s.(child := Preparing, rootfsDone := true) else s.(child := WritingError)
    case WritingError => Tell(s, Error, ok).(child := ClosingAfterError)
    case ClosingAfterError => Exit(s)
    case Preparing => s.(child := WritingReady)
    case WritingReady => Tell(s, Ready, ok).(child := ClosingAfterReady)
    case ClosingAfterReady => s.(child := Executing, childWrite := Closed)
    case Executing => if ok then s.(child := Workload) else Exit(s)
    case Workload => Exit(s)
    case NotYet => s
    case Exited => s
    case Reaped => s
  }

  function Next(s: State, a: Action): State {
    match a
    case ParentActs(ok) => ParentStep(s, ok)
    case ChildActs(ok) => ChildStep(s, ok)
    case ChildKilled => Exit(s)
  }

  // ---- interleavings ----

  predicate Interleaving(s: State, actions: seq<Action>)
    decreases |actions|
  {
    actions == [] || (Enabled(s, actions[0]) && Interleaving(Next(s, actions[0]), actions[1..]))
  }

  function Run(s: State, actions: seq<Action>): State
    decreases |actions|
  {
    if actions == [] then s else Run(Next(s, actions[0]), actions[1..])
  }

  // ---- the step invariant ----

  predicate BeforeTelling(c: Child) {
    c == ClosingReadEnd || c == SettingUpRootfs || c == WritingError || c == Preparing || c == WritingReady
  }

  predicate PastRootfs(c: Child) {
    c == Preparing || c == WritingReady || c == ClosingAfterReady || c == Executing || c == Workload
  }

  /** The child's side: it tells at most once, it tells Ready only after the root filesystem
      is set up, and its write end is open exactly until it has had its say. */
  predicate ChildOk(s: State) {
    && (s.child == NotYet ==> s.childWrite == Unopened && s.told == Nothing && s.pipe == [])
    && (BeforeTelling(s.child) ==> s.childWrite == Open && s.told == Nothing)
    && (s.child == ClosingAfterError || s.child == ClosingAfterReady ==> s.childWrite == Open)
    && (s.child == ClosingAfterError ==> s.told != A(Ready))
    && (s.child == Executing || s.child == Workload ==> s.childWrite == Closed)
    && (s.child == Exited || s.child == Reaped ==> s.childWrite == Closed)
    && (PastRootfs(s.child) ==> s.rootfsDone && s.told != A(Error))
    && (s.told == A(Ready) ==> s.rootfsDone)
  }

  /** What the parent has not read yet, and what it has. */
  predicate PipeOk(s: State) {
    match s.parent
    case Allocating => s.pipe == [] && s.told == Nothing
    case MakingPipe => s.pipe == [] && s.told == Nothing
    case Cloning => s.pipe == [] && s.told == Nothing
    case ClosingWriteEnd => Unread(s)
    case Reading => Unread(s)
    case Judging(got) => got == s.told && (got == Nothing ==> s.childWrite == Closed)
    case FailClosing => Refused(s)
    case FailReaping => Refused(s)
    case FailFreeing => Refused(s)
    case NoChildClosing(_) => s.told == Nothing
    case NoChildFreeing => s.told == Nothing
    case OkClosing => s.told == A(Ready)
    case OkFreeing => s.told == A(Ready)
    case Returned(pid) => if pid then s.told == A(Ready) else s.told == Nothing || s.told == A(Error)
  }

  predicate Unread(s: State) {
    s.pipe == match s.told case Nothing => [] case A(b) => [b]
  }

  predicate Refused(s: State) {
    s.told == A(Error) || (s.told == Nothing && s.childWrite == Closed)
  }

  /** Who holds what in the parent, at each point of the code. */
  predicate ParentOk(s: State) {
    match s.parent
    case Allocating => Holds(s, Unopened, Unopened, 0, 0) && s.child == NotYet
    case MakingPipe => Holds(s, Unopened, Unopened, 1, 0) && s.child == NotYet
    case Cloning => Holds(s, Open, Open, 1, 0) && s.child == NotYet
    case ClosingWriteEnd => Holds(s, Open, Open, 1, 0) && HasChild(s)
    case Reading => Holds(s, Open, Closed, 1, 0) && HasChild(s)
    case Judging(_) => Holds(s, Open, Closed, 1, 0) && HasChild(s)
    case FailClosing => Holds(s, Open, Closed, 1, 0) && HasChild(s)
    case FailReaping => Holds(s, Closed, Closed, 1, 0) && HasChild(s)
    case FailFreeing => Holds(s, Closed, Closed, 1, 0) && s.child == Reaped
    case NoChildClosing(n) => Holds(s, if n > 1 then Open else Closed, Open, 1, 0) && s.child == NotYet && 1 <= n <= 2
    case NoChildFreeing =>
      s.parentRead == s.parentWrite && s.parentRead != Open && s.mallocs == 1 && s.frees == 0 && s.child == NotYet
    case OkClosing => Holds(s, Open, Closed, 1, 0) && HasChild(s)
    case OkFreeing => Holds(s, Closed, Closed, 1, 0) && HasChild(s)
    case Returned(pid) =>
      if pid then Holds(s, Closed, Closed, 1, 1) && HasChild(s)
      else AllReleased(s) && (s.child == NotYet || s.child == Reaped)
  }

  predicate Holds(s: State, r: Fd, w: Fd, mallocs: nat, frees: nat) {
    s.parentRead == r && s.parentWrite == w && s.mallocs == mallocs && s.frees == frees
  }

  predicate HasChild(s: State) {
    s.child != NotYet && s.child != Reaped
  }

  /** No descriptor of the parent is open and the stack was freed as often as it was allocated, at most once. */
  predicate AllReleased(s: State) {
    s.parentRead != Open && s.parentWrite != Open && s.frees == s.mallocs <= 1
  }

  predicate Inv(s: State) {
    ChildOk(s) && PipeOk(s) && ParentOk(s)
  }

  lemma ParentKeepsPipe(s: State, ok: bool)
    requires Inv(s) && Enabled(s, ParentActs(ok))
    ensures PipeOk(ParentStep(s, ok))
  {
    match s.told
    case Nothing =>
    case A(Ready) =>
    case A(Error) =>
  }

  lemma ParentKeepsHoldings(s: State, ok: bool)
    requires ParentOk(s) && Enabled(s, ParentActs(ok))
    ensures ParentOk(ParentStep(s, ok))
  {
  }

  /** From one state to the next only what is open is closed, and only a held stack is freed. */
  predicate ReleasesOnce(s: State, s2: State) {
    && (s2.parentRead == Closed != s.parentRead ==> s.parentRead == Open)
    && (s2.parentWrite == Closed != s.parentWrite ==> s.parentWrite == Open)
    && (s2.frees != s.frees ==> s.frees == 0 && s.mallocs == 1)
  }

  lemma ParentReleasesOnce(s: State, ok: bool)
    requires ParentOk(s)
    ensures ReleasesOnce(s, ParentStep(s, ok))
  {
  }

  lemma ParentKeepsChild(s: State, ok: bool)
    requires Inv(s) && Enabled(s, ParentActs(ok))
    ensures ChildOk(ParentStep(s, ok))
  {
  }

  lemma ParentKeepsInv(s: State, ok: bool)
    requires Inv(s) && Enabled(s, ParentActs(ok))
    ensures Inv(ParentStep(s, ok))
  {
    ParentKeepsPipe(s, ok);
    ParentKeepsHoldings(s, ok);
    ParentKeepsChild(s, ok);
  }

  lemma ChildKeepsItself(s: State, ok: bool)
    requires ChildOk(s) && ChildAlive(s)
    ensures ChildOk(ChildStep(s, ok)) && ChildOk(Exit(s))
  {
  }

  /** Nothing the child does changes what the parent holds. */
  lemma ChildFrame(s: State, ok: bool)
    requires ChildAlive(s)
    ensures var s2 := ChildStep(s, ok);
            s2.parent == s.parent && s2.parentRead == s.parentRead && s2.parentWrite == s.parentWrite &&
            s2.mallocs == s.mallocs && s2.frees == s.frees && HasChild(s2)
  {
  }

  /** The child tells only while its write end is open, and at most once. */
  lemma ChildTells(s: State, ok: bool)
    requires ChildOk(s) && ChildAlive(s)
    ensures var s2 := ChildStep(s, ok);
            || (s2.told == s.told && s2.pipe == s.pipe && (s.childWrite == Closed ==> s2.childWrite == Closed))
            || (s.childWrite == Open && s.told == Nothing && s2.told != Nothing && s2.pipe == s.pipe + [s2.told.b])
  {
  }

  lemma ChildKeepsPipe(s: State, s2: State)
    requires PipeOk(s) && ParentOk(s) && HasChild(s) && s2.parent == s.parent
    requires || (s2.told == s.told && s2.pipe == s.pipe && (s.childWrite == Closed ==> s2.childWrite == Closed))
             || (s.childWrite == Open && s.told == Nothing && s2.told != Nothing && s2.pipe == s.pipe + [s2.told.b])
    requires s.parent == Returned(false) ==> s2.told == s.told
    ensures PipeOk(s2)
  {
  }

  lemma ChildKeepsHoldings(s: State, s2: State)
    requires ParentOk(s) && HasChild(s) && HasChild(s2) && s2.parent == s.parent
    requires s2.parentRead == s.parentRead && s2.parentWrite == s.parentWrite
    requires s2.mallocs == s.mallocs && s2.frees == s.frees
    ensures ParentOk(s2)
  {
  }

  lemma ChildKeepsInv(s: State, ok: bool)
    requires Inv(s) && ChildAlive(s)
    ensures Inv(ChildStep(s, ok)) && Inv(Exit(s))
  {
    ChildKeepsItself(s, ok);
    ChildFrame(s, ok);
    ChildTells(s, ok);
    ChildKeepsPipe(s, ChildStep(s, ok));
    ChildKeepsPipe(s, Exit(s));
    ChildKeepsHoldings(s, ChildStep(s, ok));
    ChildKeepsHoldings(s, Exit(s));
  }

  lemma {:induction false} RunKeepsInv(s: State, actions: seq<Action>)
    requires Inv(s) && Interleaving(s, actions)
    ensures Inv(Run(s, actions))
    decreases |actions|
  {
    if actions != [] {
      match actions[0] {
        case ParentActs(ok) => ParentKeepsInv(s, ok);
        case ChildActs(ok) => ChildKeepsInv(s, ok);
        case ChildKilled => ChildKeepsInv(s, true);
      }
      RunKeepsInv(Next(s, actions[0]), actions[1..]);
    }
  }

  // ---- safety ----

  /** When nk_container_exec returns, in any interleaving: it returns a pid exactly when the
      byte that reached the pipe was '1', and that byte was written only after the root
      filesystem was set up; otherwise the child, if there was one, has been reaped. On every
      path the parent's descriptors are closed and the stack is freed exactly once. */
  lemma HandshakeIsSafe(actions: seq<Action>)
    requires Interleaving(START, actions) && Run(START, actions).parent.Returned?
    ensures var s := Run(START, actions);
            && (s.parent.pid <==> s.told == A(Ready))
            && (s.parent.pid ==> s.rootfsDone && s.child != NotYet && s.child != Reaped)
            && (s.parent.pid ==> s.parentRead == Closed && s.parentWrite == Closed && s.mallocs == s.frees == 1)
            && (!s.parent.pid ==> s.child == NotYet || s.child == Reaped)
            && AllReleased(s)
  {
    RunKeepsInv(START, actions);
  }

  /** No step of the parent closes a descriptor that is not open or frees a stack it does not hold. */
  lemma NothingReleasedTwice(actions: seq<Action>, ok: bool)
    requires Interleaving(START, actions) && Enabled(Run(START, actions), ParentActs(ok))
    ensures ReleasesOnce(Run(START, actions), ParentStep(Run(START, actions), ok))
  {
    RunKeepsInv(START, actions);
    ParentReleasesOnce(Run(START, actions), ok);
  }

  // ---- what decides ----

  /** A step after which there can be no pid: the parent gets no stack, pipe or child; the child
      cannot set up its root file system or loses its ready byte; or it is killed before its word. */
  predicate Fatal(s: State, a: Action) {
    match a
    case ParentActs(ok) => !ok && (s.parent == Allocating || s.parent == MakingPipe || s.parent == Cloning)
    case ChildActs(ok) => !ok && (s.child == SettingUpRootfs || s.child == WritingReady)
    case ChildKilled => BeforeTelling(s.child)
  }

  predicate NothingFatal(s: State, actions: seq<Action>)
    decreases |actions|
  {
    actions == [] || (!Fatal(s, actions[0]) && NothingFatal(Next(s, actions[0]), actions[1..]))
  }

  /** All has gone well so far. */
  predicate Well(s: State) {
    && s.told != A(Error)
    && s.child != WritingError && s.child != ClosingAfterError && s.child != Reaped
    && (s.child == NotYet ==> s.parent == Allocating || s.parent == MakingPipe || s.parent == Cloning)
    && (s.child == ClosingAfterReady || Working(s.child) || s.child == Exited ==> s.told == A(Ready))
    && match s.parent
       case Judging(got) => got == A(Ready)
       case Returned(pid) => pid
       case FailClosing => false
       case FailReaping => false
       case FailFreeing => false
       case NoChildClosing(_) => false
       case NoChildFreeing => false
       case _ => true
  }

  /** The ready byte was not told and will not be. */
  predicate Doomed(s: State) {
    && s.told != A(Ready)
    && match s.child
       case NotYet => s.parent.NoChildClosing? || s.parent == NoChildFreeing || s.parent == Returned(false)
       case ClosingReadEnd => false
       case SettingUpRootfs => false
       case Preparing => false
       case WritingReady => false
       case _ => true
  }

  lemma StaysWell(s: State, a: Action)
    requires Inv(s) && Well(s) && Enabled(s, a) && !Fatal(s, a)
    ensures Well(Next(s, a))
  {
  }

  lemma FatalDooms(s: State, a: Action)
    requires Inv(s) && Well(s) && Enabled(s, a) && Fatal(s, a)
    ensures Doomed(Next(s, a))
  {
  }

  lemma StaysDoomed(s: State, a: Action)
    requires Inv(s) && Doomed(s) && Enabled(s, a)
    ensures Doomed(Next(s, a))
  {
  }

  lemma NextKeepsInv(s: State, a: Action)
    requires Inv(s) && Enabled(s, a)
    ensures Inv(Next(s, a))
  {
    match a
    case ParentActs(ok) => ParentKeepsInv(s, ok);
    case ChildActs(ok) => ChildKeepsInv(s, ok);
    case ChildKilled => ChildKeepsInv(s, true);
  }

  lemma {:induction false} RunStaysDoomed(s: State, actions: seq<Action>)
    requires Inv(s) && Doomed(s) && Interleaving(s, actions)
    ensures Inv(Run(s, actions)) && Doomed(Run(s, actions))
    decreases |actions|
  {
    if actions != [] {
      NextKeepsInv(s, actions[0]);
      StaysDoomed(s, actions[0]);
      RunStaysDoomed(Next(s, actions[0]), actions[1..]);
    }
  }

  lemma {:induction false} RunDecides(s: State, actions: seq<Action>)
    requires Inv(s) && Well(s) && Interleaving(s, actions)
    ensures Inv(Run(s, actions))
    ensures if NothingFatal(s, actions) then Well(Run(s, actions)) else Doomed(Run(s, actions))
    decreases |actions|
  {
    if actions != [] {
      NextKeepsInv(s, actions[0]);
      if Fatal(s, actions[0]) {
        FatalDooms(s, actions[0]);
        RunStaysDoomed(Next(s, actions[0]), actions[1..]);
      } else {
        StaysWell(s, actions[0]);
        RunDecides(Next(s, actions[0]), actions[1..]);
      }
    }
  }

  /** nk_container_exec returns a pid if and only if no step of the run was fatal: so a failed setup,
      a lost ready byte or an early death of the child always makes it fail, and nothing else does. */
  lemma ReturnsPidIff(actions: seq<Action>)
    requires Interleaving(START, actions) && Run(START, actions).parent.Returned?
    ensures Run(START, actions).parent.pid <==> NothingFatal(START, actions)
  {
    RunDecides(START, actions);
  }

  /** Somewhere in the run the child's setup of its root file system succeeded. */
  predicate SetupSucceeds(s: State, actions: seq<Action>)
    decreases |actions|
  {
    actions != [] &&
    ((s.child == SettingUpRootfs && actions[0] == ChildActs(true)) || SetupSucceeds(Next(s, actions[0]), actions[1..]))
  }

  /** The child has not got past its setup, or has failed in it. */
  predicate NotPastSetup(s: State) {
    && s.told != A(Ready)
    && s.child != Preparing && s.child != WritingReady && s.child != ClosingAfterReady && !Working(s.child)
  }

  lemma StaysBeforeSetup(s: State, a: Action)
    requires NotPastSetup(s) && Enabled(s, a) && !(s.child == SettingUpRootfs && a == ChildActs(true))
    ensures NotPastSetup(Next(s, a))
  {
  }

  lemma {:induction false} RunNeedsSetup(s: State, actions: seq<Action>)
    requires NotPastSetup(s) && Interleaving(s, actions) && !NotPastSetup(Run(s, actions))
    ensures SetupSucceeds(s, actions)
    decreases |actions|
  {
    if actions != [] && !(s.child == SettingUpRootfs && actions[0] == ChildActs(true)) {
      StaysBeforeSetup(s, actions[0]);
      RunNeedsSetup(Next(s, actions[0]), actions[1..]);
    }
  }

  /** A pid is returned, and the container's program started, only if the setup of the root file
      system was tried in the child and succeeded. */
  lemma PidNeedsSetup(actions: seq<Action>)
    requires Interleaving(START, actions)
    requires var s := Run(START, actions); s.parent == Returned(true) || Working(s.child)
    ensures SetupSucceeds(START, actions)
  {
    RunKeepsInv(START, actions);
    RunNeedsSetup(START, actions);
  }

  /** The child went off to report the failure of its setup, or is dead. */
  predicate GivesUp(c: Child) {
    c == WritingError || c == ClosingAfterError || c == Exited || c == Reaped
  }

  lemma StaysGivenUp(s: State, a: Action)
    requires Inv(s) && Enabled(s, a) && GivesUp(s.child) && s.told != A(Ready)
    ensures GivesUp(Next(s, a).child) && Next(s, a).told != A(Ready)
  {
  }

  lemma {:induction false} RunStaysGivenUp(s: State, actions: seq<Action>)
    requires Inv(s) && Interleaving(s, actions) && GivesUp(s.child) && s.told != A(Ready)
    ensures Inv(Run(s, actions)) && GivesUp(Run(s, actions).child) && Run(s, actions).told != A(Ready)
    decreases |actions|
  {
    if actions != [] {
      NextKeepsInv(s, actions[0]);
      StaysGivenUp(s, actions[0]);
      RunStaysGivenUp(Next(s, actions[0]), actions[1..]);
    }
  }

  /** Once the setup of the root file system has failed in the child, then in every continuation no
      ready byte is told, the child never gets to the container's program, and no pid is returned. */
  lemma FailedSetupIsFinal(before: seq<Action>, after: seq<Action>)
    requires Interleaving(START, before) && Run(START, before).child == SettingUpRootfs
    requires Interleaving(Next(Run(START, before), ChildActs(false)), after)
    ensures var s := Run(Next(Run(START, before), ChildActs(false)), after);
            s.told != A(Ready) && !Working(s.child) && s.parent != Returned(true)
  {
    RunKeepsInv(START, before);
    var s := Run(START, before);
    NextKeepsInv(s, ChildActs(false));
    RunStaysGivenUp(Next(s, ChildActs(false)), after);
  }

  lemma StaysRefused(s: State, a: Action)
    requires Inv(s) && Enabled(s, a) && GivesUp(s.child) && s.told == A(Error) && s.child != WritingError
    ensures GivesUp(Next(s, a).child) && Next(s, a).told == A(Error) && Next(s, a).child != WritingError
  {
  }

  lemma {:induction false} RunStaysRefused(s: State, actions: seq<Action>)
    requires Inv(s) && Interleaving(s, actions) && GivesUp(s.child) && s.told == A(Error) && s.child != WritingError
    ensures Inv(Run(s, actions)) && Run(s, actions).told == A(Error)
    decreases |actions|
  {
    if actions != [] {
      NextKeepsInv(s, actions[0]);
      StaysRefused(s, actions[0]);
      RunStaysRefused(Next(s, actions[0]), actions[1..]);
    }
  }

  /** The failure is told: when the write of the error byte goes through, that byte is what the parent
      comes to judge by. */
  lemma ErrorIsTold(before: seq<Action>, after: seq<Action>)
    requires Interleaving(START, before) && Run(START, before).child == WritingError
    requires Interleaving(Next(Run(START, before), ChildActs(true)), after)
    ensures var s := Run(Next(Run(START, before), ChildActs(true)), after);
            s.told == A(Error) && (s.parent.Judging? ==> s.parent.got == A(Error))
  {
    RunKeepsInv(START, before);
    NextKeepsInv(Run(START, before), ChildActs(true));
    RunStaysRefused(Next(Run(START, before), ChildActs(true)), after);
  }

  /** When execve fails in the child, which has told that it is ready, its program never runs: the
      child is only to be reaped, and whether a pid is returned does not depend on it. */
  lemma FailedExecIsFinal(before: seq<Action>, after: seq<Action>)
    requires Interleaving(START, before) && Run(START, before).child == Executing
    requires Interleaving(Next(Run(START, before), ChildActs(false)), after)
    ensures var s := Run(Next(Run(START, before), ChildActs(false)), after);
            (s.child == Exited || s.child == Reaped) && s.told == Run(START, before).told
  {
    RunKeepsInv(START, before);
    RunStaysDead(Next(Run(START, before), ChildActs(false)), after);
  }

  lemma {:induction false} RunStaysDead(s: State, actions: seq<Action>)
    requires Interleaving(s, actions) && (s.child == Exited || s.child == Reaped)
    requires s.parent != Cloning && s.parent != Allocating && s.parent != MakingPipe
    ensures var s2 := Run(s, actions);
            (s2.child == Exited || s2.child == Reaped) && s2.told == s.told
    decreases |actions|
  {
    if actions != [] {
      DeadStaysDead(s, actions[0]);
      RunStaysDead(Next(s, actions[0]), actions[1..]);
    }
  }

  lemma DeadStaysDead(s: State, a: Action)
    requires Enabled(s, a) && (s.child == Exited || s.child == Reaped)
    requires s.parent != Cloning && s.parent != Allocating && s.parent != MakingPipe
    ensures var s2 := Next(s, a);
            && (s2.child == Exited || s2.child == Reaped) && s2.told == s.told
            && s2.parent != Cloning && s2.parent != Allocating && s2.parent != MakingPipe
  {
  }

  /** The container's program inherits no end of the pipe. */
  lemma {:induction false} WorkloadHoldsNoEnd(actions: seq<Action>)
    requires Interleaving(START, actions) && Working(Run(START, actions).child)
    ensures Run(START, actions).childRead == Run(START, actions).childWrite == Closed
  {
    RunKeepsInv(START, actions);
    RunKeepsReadEnd(START, actions);
  }

  predicate ReadEndOk(s: State) {
    s.childRead == if s.child == NotYet then Unopened else if s.child == ClosingReadEnd then Open else Closed
  }

  lemma {:induction false} RunKeepsReadEnd(s: State, actions: seq<Action>)
    requires Inv(s) && ReadEndOk(s) && Interleaving(s, actions)
    ensures ReadEndOk(Run(s, actions))
    decreases |actions|
  {
    if actions != [] {
      NextKeepsInv(s, actions[0]);
      NextKeepsReadEnd(s, actions[0]);
      RunKeepsReadEnd(Next(s, actions[0]), actions[1..]);
    }
  }

  lemma NextKeepsReadEnd(s: State, a: Action)
    requires Inv(s) && ReadEndOk(s) && Enabled(s, a)
    ensures ReadEndOk(Next(s, a))
  {
  }

  // ---- progress ----

  /** The parent is never stuck in read behind a dead child, and as long as it has not
      returned somebody can move. */
  lemma HandshakeNeverHangs(actions: seq<Action>)
    requires Interleaving(START, actions)
    ensures var s := Run(START, actions);
            && (s.parent == Reading && !ChildAlive(s) ==> Enabled(s, ParentActs(true)))
            && (!s.parent.Returned? ==> Enabled(s, ParentActs(true)) || Enabled(s, ChildActs(true)))
  {
    RunKeepsInv(START, actions);
    SomebodyMoves(Run(START, actions));
  }

  lemma SomebodyMoves(s: State)
    requires Inv(s)
    ensures s.parent == Reading && !ChildAlive(s) ==> Enabled(s, ParentActs(true))
    ensures !s.parent.Returned? ==> Enabled(s, ParentActs(true)) || Enabled(s, ChildActs(true))
  {
  }

  /** Were the parent's own write end still open, a dead child that said nothing would hang it. */
  lemma OwnWriteEndWouldHang(s: State)
    requires s.parent == Reading && s.parentWrite == Open && s.child == Exited && s.pipe == []
    ensures forall a :: !Enabled(s, a)
  {
  }

  function ParentLeft(p: Parent): nat {
    match p
    case Allocating => 9
    case MakingPipe => 8
    case Cloning => 7
    case ClosingWriteEnd => 6
    case Reading => 5
    case Judging(_) => 4
    case FailClosing => 3
    case FailReaping => 2
    case FailFreeing => 1
    case NoChildClosing(n) => n + 1
    case NoChildFreeing => 1
    case OkClosing => 2
    case OkFreeing => 1
    case Returned(_) => 0
  }

  function ChildLeft(c: Child): nat {
    match c
    case NotYet => 9
    case ClosingReadEnd => 8
    case SettingUpRootfs => 7
    case Preparing => 6
    case WritingReady => 5
    case ClosingAfterReady => 4
    case WritingError => 4
    case ClosingAfterError => 3
    case Executing => 3
    case Workload => 2
    case Exited => 1
    case Reaped => 0
  }

  lemma ParentCounts(s: State, ok: bool)
    requires ParentOk(s) && Enabled(s, ParentActs(ok))
    ensures ParentLeft(ParentStep(s, ok).parent) < ParentLeft(s.parent)
    ensures ChildLeft(ParentStep(s, ok).child) <= ChildLeft(s.child)
  {
  }

  lemma ChildCounts(s: State, ok: bool)
    requires ChildAlive(s)
    ensures ChildLeft(ChildStep(s, ok).child) < ChildLeft(s.child) && ChildLeft(Exit(s).child) < ChildLeft(s.child)
    ensures ChildStep(s, ok).parent == s.parent
  {
  }

  lemma StepCounts(s: State, a: Action)
    requires ParentOk(s) && Enabled(s, a)
    ensures ParentLeft(Next(s, a).parent) + ChildLeft(Next(s, a).child) < ParentLeft(s.parent) + ChildLeft(s.child)
  {
    match a
    case ParentActs(ok) => ParentCounts(s, ok);
    case ChildActs(ok) => ChildCounts(s, ok);
    case ChildKilled => ChildCounts(s, true);
  }

  lemma {:induction false} RunCounts(s: State, actions: seq<Action>)
    requires Inv(s) && Interleaving(s, actions)
    ensures |actions| + ParentLeft(Run(s, actions).parent) + ChildLeft(Run(s, actions).child)
            <= ParentLeft(s.parent) + ChildLeft(s.child)
    decreases |actions|
  {
    if actions != [] {
      StepCounts(s, actions[0]);
      RunKeepsInv(s, actions[..1]);
      assert Run(s, actions[..1]) == Next(s, actions[0]) by { assert actions[..1][1..] == []; }
      RunCounts(Next(s, actions[0]), actions[1..]);
    }
  }

  /** Every interleaving is over after at most eighteen steps, the end of the workload counted as
      one, and when nobody can move any more the parent has returned. */
  lemma HandshakeEnds(actions: seq<Action>)
    requires Interleaving(START, actions)
    ensures |actions| <= 18
    ensures (forall a :: !Enabled(Run(START, actions), a)) ==> Run(START, actions).parent.Returned?
  {
    RunCounts(START, actions);
    HandshakeNeverHangs(actions);
  }

  // ---- whom the parent waits for ----

  /** The child is past its last word and about to run, or running, the container's program. */
  predicate Working(c: Child) {
    c == Executing || c == Workload
  }

  /** Giving up, the parent waits in waitpid for a child that still lives. If the child is past
      its report this is a whole workload, and it is one exactly if the report was lost. */
  lemma WaitIsForWorkloadIff(actions: seq<Action>)
    requires Interleaving(START, actions)
    requires var s := Run(START, actions); s.parent == FailReaping && ChildAlive(s)
    ensures var s := Run(START, actions); Working(s.child) <==> s.told == Nothing
    ensures var s := Run(START, actions); Working(s.child) ==> s.rootfsDone
  {
    RunKeepsInv(START, actions);
  }

  /** And then only the end of the workload lets the parent go on. */
  lemma OnlyItsEndReleases(s: State, a: Action)
    requires s.parent == FailReaping && s.child == Workload && Enabled(s, a)
    ensures Next(s, a).child == Exited && Next(s, a).parent == FailReaping
  {
  }

  lemma {:induction false} Then(s: State, actions: seq<Action>, a: Action)
    requires Interleaving(s, actions) && Enabled(Run(s, actions), a)
    ensures Interleaving(s, actions + [a]) && Run(s, actions + [a]) == Next(Run(s, actions), a)
    decreases |actions|
  {
    var all := actions + [a];
    if actions == [] {
      assert all[0] == a && all[1..] == [];
      var s2 := Next(s, a);
      assert Run(s2, []) == s2;
    } else {
      assert all[0] == actions[0] && all[1..] == actions[1..] + [a];
      var s2 := Next(s, actions[0]);
      Then(s2, actions[1..], a);
    }
  }

  const P := ParentActs(true)
  const C := ChildActs(true)

  const LAUNCHED := START.(parent := ClosingWriteEnd, child := ClosingReadEnd, parentRead := Open, parentWrite := Open,
                           childRead := Open, childWrite := Open, mallocs := 1)
  const PREPARED := LAUNCHED.(child := WritingReady, childRead := Closed, rootfsDone := true)
  const UNHEARD := PREPARED.(child := Workload, childWrite := Closed)

  lemma Launches() returns (actions: seq<Action>)
    ensures Interleaving(START, actions) && Run(START, actions) == LAUNCHED
  {
    assert Run(START, []) == START;
    Then(START, [], P);
    Then(START, [] + [P], P);
    Then(START, [] + [P] + [P], P);
    actions := [] + [P] + [P] + [P];
  }

  lemma Prepares() returns (actions: seq<Action>)
    ensures Interleaving(START, actions) && Run(START, actions) == PREPARED
  {
    var before := Launches();
    Then(START, before, C);
    Then(START, before + [C], C);
    Then(START, before + [C] + [C], C);
    actions := before + [C] + [C] + [C];
  }

  lemma LosesItsByte() returns (actions: seq<Action>)
    ensures Interleaving(START, actions) && Run(START, actions) == UNHEARD
  {
    var before := Prepares();
    var lost := ChildActs(false);
    Then(START, before, lost);
    Then(START, before + [lost], C);
    Then(START, before + [lost] + [C], C);
    actions := before + [lost] + [C] + [C];
  }

  /** It does come to that: with everything going well but the write of the ready byte. */
  lemma LostByteStrandsParent() returns (actions: seq<Action>)
    ensures Interleaving(START, actions)
    ensures var s := Run(START, actions); s.parent == FailReaping && s.child == Workload && s.rootfsDone
  {
    var before := LosesItsByte();
    Then(START, before, P);
    Then(START, before + [P], P);
    Then(START, before + [P] + [P], P);
    Then(START, before + [P] + [P] + [P], P);
    actions := before + [P] + [P] + [P] + [P];
  }
}
