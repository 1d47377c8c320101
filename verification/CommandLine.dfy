/**
 nk_parse_args (src/main.c). What getopt_long makes of the command line is taken as it comes:
 a sequence of options and the first argument that is not one.
 */
module CommandLine {
  import opened Records

  datatype Token =
    | Bundle(s: string) | RuntimeMode(s: string) | PidFile(s: string) | Attach | Detach | Exec(s: string) | Rm
    | Verbose | Quiet | LogLevel(s: string, known: bool) | Educational | Help | Version | Unknown

  datatype Options = Options(
    command: string, id: Option<string>, bundle: string, pidFile: Option<string>, exec: Option<string>,
    mode: Mode, attach: bool, detach: bool, rm: bool)

  datatype Outcome = Failed | Exits | Success(opts: Options)

  // ---- what the options say, order apart ----

  predicate HasExec(tokens: seq<Token>) {
    exists t | t in tokens :: t.Exec?
  }

  /** Options that end the parse on the spot: with an error, or after printing help or version. */
  predicate IsError(t: Token) {
    t == Unknown || (t.RuntimeMode? && t.s != "container" && t.s != "vm") || (t.LogLevel? && !t.known)
  }

  predicate IsExit(t: Token) {
    t == Help || t == Version
  }

  /** The first such option decides. */
  function Stop(tokens: seq<Token>): (s: Option<Outcome>)
    ensures s.Some? ==> s.value == Failed || s.value == Exits
  {
    if tokens == [] then None
    else if Stop(tokens[..|tokens| - 1]).Some? then Stop(tokens[..|tokens| - 1])
    else
      var t := tokens[|tokens| - 1];
      if IsError(t) then Some(Failed) else if IsExit(t) then Some(Exits) else None
  }

  /** Options with a value: the last one counts. */
  function Values(tokens: seq<Token>): (string, Option<string>, Option<string>, Mode) {
    if tokens == [] then (".", None, None, ContainerMode)
    else
      var (bundle, pidFile, exec, mode) := Values(tokens[..|tokens| - 1]);
      match tokens[|tokens| - 1]
      case Bundle(s) => (s, pidFile, exec, mode)
      case PidFile(s) => (bundle, Some(s), exec, mode)
      case Exec(s) => (bundle, pidFile, Some(s), mode)
      case RuntimeMode(s) =>
        (bundle, pidFile, exec, if s == "vm" then VmMode else if s == "container" then ContainerMode else mode)
      case _ => (bundle, pidFile, exec, mode)
  }

  predicate IsCommand(c: string) {
    c == "create" || c == "start" || c == "run" || c == "exec" || c == "resume" || c == "delete" || c == "state"
  }

  /** Which combinations a command takes. */
  predicate Accepts(command: string, hasId: bool, a: bool, d: bool, r: bool, x: bool) {
    && IsCommand(command) && hasId && !(a && d)
    && (command == "start" ==> !r)
    && (command == "run" ==> !(r && d))
    && (command != "start" && command != "run" && command != "exec" ==> !a && !d && !r)
    && (x ==> command == "exec" || command == "resume" || command == "create")
  }

  function Normalised(command: string, tokens: seq<Token>, id: Option<string>): Options {
    var (bundle, pidFile, exec, mode) := Values(tokens);
    var a, d, r := Attach in tokens, Detach in tokens, Rm in tokens;
    Options(command, id, bundle, pidFile, exec, mode,
            (command == "start" && a) || (command == "run" && !d),
            (command == "start" && !a) || (command == "run" && d),
            command == "run" && r)
  }

  /** The options as the loop leaves them, before they are checked. */
  function Scanned(command: string, tokens: seq<Token>): Options {
    var (bundle, pidFile, exec, mode) := Values(tokens);
    Options(command, None, bundle, pidFile, exec, mode, Attach in tokens, Detach in tokens, Rm in tokens)
  }

  function Defaults(command: string): Options {
    Options(command, None, ".", None, None, ContainerMode, false, false, false)
  }

  function Expected(command: string, tokens: seq<Token>, id: Option<string>): Outcome {
    if command == "-h" || command == "--help" then Success(Defaults("help"))
    else if command == "-v" || command == "--version" then Success(Defaults("version"))
    else if Stop(tokens).Some? then Stop(tokens).value
    else if Accepts(command, id.Some?, Attach in tokens, Detach in tokens, Rm in tokens, HasExec(tokens))
    then Success(Normalised(command, tokens, id))
    else Failed
  }

  // ---- the parser ----

  method ParseArgs(command: string, tokens: seq<Token>, id: Option<string>) returns (r: Outcome)
    ensures r == Expected(command, tokens, id)
  {
    var opts := Options(command, None, ".", None, None, ContainerMode, false, false, false);
    if command == "-h" || command == "--help" {
      return Success(opts.(command := "help"));
    }
    if command == "-v" || command == "--version" {
      return Success(opts.(command := "version"));
    }

    for i := 0 to |tokens|
      invariant Stop(tokens[..i]).None? && opts == Scanned(command, tokens[..i])
    {
      assert tokens[..i + 1] == tokens[..i] + [tokens[i]];
      var stop;
      opts, stop := TakeOption(opts, tokens[i], command, tokens[..i]);
      if stop.Some? {
        StopEarly(tokens, i + 1);
        return stop.value;
      }
    }
    assert tokens[..|tokens|] == tokens;
    ExecValue(tokens);
    var attachSet, detachSet, execSet := opts.attach, opts.detach, opts.exec.Some?;

    opts := opts.(id := id);
    if attachSet && detachSet { return Failed; }
    r := Validate(opts, attachSet, detachSet, execSet);
  }

  /** One turn of the option loop. */
  method TakeOption(opts: Options, t: Token, ghost command: string, ghost before: seq<Token>)
    returns (next: Options, stop: Option<Outcome>)
    requires opts == Scanned(command, before) && Stop(before).None?
    ensures stop == Stop(before + [t])
    ensures stop.None? ==> next == Scanned(command, before + [t])
  {
    assert (before + [t])[..|before|] == before;
    next, stop := opts, None;
    match t
    case Bundle(s) => next := opts.(bundle := s);
    case RuntimeMode(s) =>
      if s == "container" {
        next := opts.(mode := ContainerMode);
      } else if s == "vm" {
        next := opts.(mode := VmMode);
      } else {
        stop := Some(Failed);
      }
    case PidFile(s) => next := opts.(pidFile := Some(s));
    case Attach => next := opts.(attach := true);
    case Detach => next := opts.(detach := true);
    case Exec(s) => next := opts.(exec := Some(s));
    case Rm => next := opts.(rm := true);
    case Verbose =>
    case Quiet =>
    case LogLevel(_, known) => if !known { stop := Some(Failed); }
    case Educational =>
    case Help => stop := Some(Exits);
    case Version => stop := Some(Exits);
    case Unknown => stop := Some(Failed);
  }

  /** The checks after the loop, and the defaults of start and run. */
  method Validate(opts: Options, attachSet: bool, detachSet: bool, execSet: bool) returns (r: Outcome)
    requires opts.attach == attachSet && opts.detach == detachSet && !(attachSet && detachSet)
    ensures r == if Accepts(opts.command, opts.id.Some?, attachSet, detachSet, opts.rm, execSet)
                 then Success(opts.(
                   attach := (opts.command == "start" && attachSet) || (opts.command == "run" && !detachSet),
                   detach := (opts.command == "start" && !attachSet) || (opts.command == "run" && detachSet),
                   rm := opts.command == "run" && opts.rm))
                 else Failed
  {
    var command := opts.command;
    if command == "create" {
      if attachSet || detachSet || opts.rm { return Failed; }
      if opts.id.None? { return Failed; }
    } else if command == "start" || command == "run" || command == "exec" || command == "resume"
              || command == "delete" || command == "state" {
      if opts.id.None? { return Failed; }
      if (command == "delete" || command == "state" || command == "resume") && (attachSet || detachSet || opts.rm) {
        return Failed;
      }
      if execSet && command != "exec" && command != "resume" { return Failed; }
    } else {
      return Failed;
    }

    if command == "start" {
      if opts.rm { return Failed; }
      r := Success(if !attachSet && !detachSet then opts.(detach := true) else opts);
    } else if command == "run" {
      if opts.rm && opts.detach { return Failed; }
      r := Success(if !attachSet && !detachSet then opts.(attach := true) else opts);
    } else {
      r := Success(opts.(attach := false, detach := false, rm := false));
    }
  }

  lemma {:induction false} StopEarly(tokens: seq<Token>, n: nat)
    requires n <= |tokens| && Stop(tokens[..n]).Some?
    ensures Stop(tokens) == Stop(tokens[..n])
  {
    if n == |tokens| {
      assert tokens[..n] == tokens;
    } else {
      assert tokens[..|tokens| - 1][..n] == tokens[..n];
      StopEarly(tokens[..|tokens| - 1], n);
    }
  }

  // ---- what the rest of the runtime relies on ----

  lemma {:induction false} ExecValue(tokens: seq<Token>)
    ensures Values(tokens).2.Some? <==> HasExec(tokens)
  {
    if tokens != [] {
      ExecValue(tokens[..|tokens| - 1]);
      assert tokens[|tokens| - 1] in tokens;
      assert forall t | t in tokens :: t in tokens[..|tokens| - 1] || t == tokens[|tokens| - 1];
    }
  }

  /** A successful parse of start or run is attached or detached, never both; --rm survives only
      in an attached run; every other command has none of the three; an exec command line
      comes only with exec, resume or create. */
  lemma ParsedIsNormal(command: string, tokens: seq<Token>, id: Option<string>)
    ensures Expected(command, tokens, id).Success? ==>
              var o := Expected(command, tokens, id).opts;
              && (o.command == "start" || o.command == "run" <==> o.attach != o.detach)
              && (o.rm ==> o.command == "run" && o.attach && !o.detach)
              && (o.command != "start" && o.command != "run" ==> !o.attach && !o.detach && !o.rm)
              && (o.exec.Some? ==> o.command == "exec" || o.command == "resume" || o.command == "create")
              && (o.id.None? <==> o.command == "help" || o.command == "version")
  {
    ExecValue(tokens);
    assert |"help"| == 4 && "help"[0] == 'h' && "version"[0] == 'v' && "start"[0] == 's' && "run"[0] == 'r';
    assert "create"[0] == 'c' && "exec"[0] == 'e' && "resume"[0] == 'r' && "delete"[0] == 'd' && "state"[0] == 's';
  }

  /** Which command lines are accepted, command by command, and what becomes of the three flags. */
  lemma AcceptedIff(command: string, tokens: seq<Token>, id: Option<string>)
    requires Stop(tokens).None?
    requires command != "-h" && command != "--help" && command != "-v" && command != "--version"
    ensures var r := Expected(command, tokens, id);
            var a, d, rm, x := Attach in tokens, Detach in tokens, Rm in tokens, HasExec(tokens);
            && (r.Success? <==>
                  && id.Some? && !(a && d)
                  && (|| (command == "create" && !a && !d && !rm)
                      || (command == "start" && !rm && !x)
                      || (command == "run" && !(rm && d) && !x)
                      || command == "exec"
                      || (command == "resume" && !a && !d && !rm)
                      || ((command == "delete" || command == "state") && !a && !d && !rm && !x)))
            && (!r.Success? ==> r == Failed)
            && (r.Success? ==>
                  && r.opts.command == command && r.opts.id == id
                  && (r.opts.attach <==> (command == "start" && a) || (command == "run" && !d))
                  && (r.opts.detach <==> (command == "start" && !a) || (command == "run" && d))
                  && (r.opts.rm <==> command == "run" && rm))
  {
    assert "create"[0] == 'c' && "start"[0] == 's' && "run"[0] == 'r' && "exec"[0] == 'e' && "resume"[0] == 'r';
    assert "delete"[0] == 'd' && "state"[0] == 's' && |"start"| == |"state"| && "start"[3] == 'r' && "state"[3] == 't';
  }

  /** -h and -v stand for the commands help and version, whatever follows them. */
  lemma HelpAndVersion(tokens: seq<Token>, id: Option<string>)
    ensures var help := Options("help", None, ".", None, None, ContainerMode, false, false, false);
            && Expected("-h", tokens, id) == Expected("--help", tokens, id) == Success(help)
            && Expected("-v", tokens, id) == Expected("--version", tokens, id) == Success(help.(command := "version"))
  {
    assert "-h"[1] == 'h' && "-v"[1] == 'v' && "--help"[2] == 'h' && "--version"[2] == 'v';
  }

  /** Two options that set the same value. */
  predicate SameOption(t: Token, u: Token) {
    (t.Bundle? && u.Bundle?) || (t.PidFile? && u.PidFile?) || (t.Exec? && u.Exec?) || (t.RuntimeMode? && u.RuntimeMode?)
  }

  lemma {:induction false} LastOption(tokens: seq<Token>, i: nat)
    requires i < |tokens| && forall j | i < j < |tokens| :: !SameOption(tokens[i], tokens[j])
    requires forall t | t in tokens :: !IsError(t)
    ensures var (bundle, pidFile, exec, mode) := Values(tokens);
            match tokens[i]
            case Bundle(s) => bundle == s
            case PidFile(s) => pidFile == Some(s)
            case Exec(s) => exec == Some(s)
            case RuntimeMode(s) => (s == "vm" && mode == VmMode) || (s == "container" && mode == ContainerMode)
            case _ => true
  {
    var n := |tokens| - 1;
    assert tokens[i] in tokens;
    if i < n {
      var init := tokens[..n];
      assert forall t | t in init :: t in tokens;
      assert tokens[n] in tokens && !SameOption(tokens[i], tokens[n]);
      LastOption(init, i);
    } else {
      assert |"vm"| != |"container"|;
    }
  }

  lemma {:induction false} UnsetOptions(tokens: seq<Token>)
    ensures var (bundle, pidFile, exec, mode) := Values(tokens);
            && ((forall t | t in tokens :: !t.Bundle?) ==> bundle == ".")
            && ((forall t | t in tokens :: !t.PidFile?) ==> pidFile == None)
            && ((forall t | t in tokens :: !t.Exec?) ==> exec == None)
            && ((forall t | t in tokens :: !t.RuntimeMode?) ==> mode == ContainerMode)
  {
    if tokens != [] {
      var init := tokens[..|tokens| - 1];
      UnsetOptions(init);
      assert tokens[|tokens| - 1] in tokens && forall t | t in init :: t in tokens;
    }
  }

  /** Of the options --bundle, --pid-file, --exec and --runtime the last one given counts, and one
      not given is ".", nothing, nothing and container. */
  lemma LastOptionCounts(command: string, tokens: seq<Token>, id: Option<string>, i: nat)
    requires Expected(command, tokens, id).Success? && Expected(command, tokens, id).opts.id.Some?
    requires i < |tokens| && forall j | i < j < |tokens| :: !SameOption(tokens[i], tokens[j])
    ensures var o := Expected(command, tokens, id).opts;
            match tokens[i]
            case Bundle(s) => o.bundle == s
            case PidFile(s) => o.pidFile == Some(s)
            case Exec(s) => o.exec == Some(s)
            case RuntimeMode(s) => (s == "vm" && o.mode == VmMode) || (s == "container" && o.mode == ContainerMode)
            case _ => true
    ensures var o := Expected(command, tokens, id).opts;
            && ((forall t | t in tokens :: !t.Bundle?) ==> o.bundle == ".")
            && ((forall t | t in tokens :: !t.PidFile?) ==> o.pidFile == None)
            && ((forall t | t in tokens :: !t.Exec?) ==> o.exec == None)
            && ((forall t | t in tokens :: !t.RuntimeMode?) ==> o.mode == ContainerMode)
  {
    StopsSomewhere(tokens);
    LastOption(tokens, i);
    UnsetOptions(tokens);
  }

  /** An option that ends the parse counts if none came before it: an unknown one or a bad value
      fails, help and version exit. */
  lemma {:induction false} FirstStopCounts(tokens: seq<Token>, i: nat)
    requires i < |tokens| && forall j | 0 <= j < i :: !IsError(tokens[j]) && !IsExit(tokens[j])
    ensures tokens[i] == Unknown ==> Stop(tokens) == Some(Failed)
    ensures tokens[i].RuntimeMode? && tokens[i].s != "container" && tokens[i].s != "vm" ==> Stop(tokens) == Some(Failed)
    ensures tokens[i].LogLevel? && !tokens[i].known ==> Stop(tokens) == Some(Failed)
    ensures tokens[i] == Help || tokens[i] == Version ==> Stop(tokens) == Some(Exits)
  {
    if IsError(tokens[i]) || IsExit(tokens[i]) {
      var upTo := tokens[..i + 1];
      assert upTo[..i] == tokens[..i] && upTo[i] == tokens[i];
      StopsSomewhere(tokens[..i]);
      StopEarly(tokens, i + 1);
    }
  }

  /** Nothing else ends it. */
  lemma {:induction false} StopsSomewhere(tokens: seq<Token>)
    ensures Stop(tokens).None? <==> forall t | t in tokens :: !IsError(t) && !IsExit(t)
  {
    if tokens != [] {
      StopsSomewhere(tokens[..|tokens| - 1]);
      assert tokens[|tokens| - 1] in tokens;
      assert forall t | t in tokens[..|tokens| - 1] :: t in tokens;
      assert forall t | t in tokens :: t in tokens[..|tokens| - 1] || t == tokens[|tokens| - 1];
    }
  }

  /** Whether a line that does not exit early is accepted, and the three flags it gets, do not
      depend on the order or the repetition of its options. */
  lemma OrderDoesNotMatter(command: string, a: seq<Token>, b: seq<Token>, id: Option<string>)
    requires forall t :: t in a <==> t in b
    requires Expected(command, a, id).Success?
    ensures Expected(command, b, id).Success?
    ensures var o, p := Expected(command, a, id).opts, Expected(command, b, id).opts;
            o.attach == p.attach && o.detach == p.detach && o.rm == p.rm && (o.exec.Some? <==> p.exec.Some?)
  {
    StopsSomewhere(a);
    StopsSomewhere(b);
    ExecValue(a);
    ExecValue(b);
  }

  /** create takes --exec, which the other commands than exec and resume refuse. */
  lemma CreateTakesExec()
    ensures Expected("create", [Exec("sh")], Some("c")).Success?
    ensures Expected("create", [Exec("sh")], Some("c")).opts.exec == Some("sh")
  {
    var tokens := [Exec("sh")];
    assert tokens[..0] == [];
    assert Stop(tokens).None? && Values(tokens).2 == Some("sh");
    assert "create"[0] == 'c' && "start"[0] == 's' && "run"[0] == 'r' && "exec"[0] == 'e';
    assert "-h"[0] == '-' && "--help"[0] == '-' && "-v"[0] == '-' && "--version"[0] == '-';
  }
}
