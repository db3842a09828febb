/** The decision procedure at the end of `Main` in Program.cs: help first, then the version
    banner, then the error count, then the command list, with the first leftover token taken
    as `user@host` when no user is set yet. */
module Dispatch {
  import opened Wrappers
  import opened Text
  import opened Args
  import opened UserHost
  import opened Options
  import opened Runner

  /** What the option library hands back: an `OptionException`, or the callbacks it ran
      (in order) and the leftover tokens. */
  datatype ParseResult = OptionError | Parsed(events: seq<OptionEvent>, rest: seq<string>)

  datatype Exit =
    | UsageReported            // the OptionException message and the --help hint
    | HelpShown
    | VersionShown
    | Suppressed(errors: nat)  // an option was rejected: nothing is run
    | NoCommands               // "No commands were passed. Connection aborted."
    | Ran(trace: RunTrace)

  /** `banner`: whether the version banner was printed. */
  datatype MainOutcome = MainOutcome(banner: bool, exit: Exit)

  /** `arguments` and `errors` after every callback, starting from a fresh `Arguments`. */
  function ParseOptions(events: seq<OptionEvent>, env: Env): OptionsState {
    ApplyAll(OptionsState(Defaults(), 0), events, env)
  }

  /** With no user yet, a first token holding exactly one `@` becomes the user and host and
      leaves the command list; any other first token stays a command token. */
  function TakeTarget(s: ArgsState): (r: ArgsState)
    requires |s.commands| > 0
    ensures s.user != "" || Occurrences(s.commands[0], '@') != 1 ==> r == s
    ensures s.user == "" && Occurrences(s.commands[0], '@') == 1 ==>
      r == s.(user := r.user, host := r.host, commands := s.commands[1..])
      && r.user + "@" + r.host == s.commands[0] && '@' !in r.user && '@' !in r.host
  {
    if s.user != "" then s
    else
      match GetUserHost(Some(s.commands[0]))
      case None => s
      case Some((u, h)) => s.(user := u, host := h, commands := s.commands[1..])
  }

  /** What `Main` does with a parse result. */
  function MainSpec(p: ParseResult, env: Env, w: World): (r: MainOutcome)
    ensures p.OptionError? ==> r == MainOutcome(false, UsageReported)
    ensures r.exit.Suppressed? ==> p.Parsed? && r.exit.errors == ParseOptions(p.events, env).errors > 0
    ensures r.exit.Ran? ==>
      (p.Parsed? && |p.rest| > 0 && ParseOptions(p.events, env).errors == 0
       && r.exit.trace == RunSpec(TakeTarget(ParseOptions(p.events, env).args.(commands := p.rest)), w))
  {
    match p
    case OptionError => MainOutcome(false, UsageReported)
    case Parsed(events, rest) =>
      var st := ParseOptions(events, env);
      var s := st.args.(commands := rest);
      if s.showHelp then MainOutcome(false, HelpShown)
      else
        var banner := s.showVersion || s.verbose;
        if s.showVersion then MainOutcome(banner, VersionShown)
        else if st.errors != 0 then MainOutcome(banner, Suppressed(st.errors))
        else if |rest| == 0 then MainOutcome(banner, NoCommands)
        else MainOutcome(banner, Ran(RunSpec(TakeTarget(s), w)))
  }

  /** The dispatch order: help wins over everything and prints no banner; the version
      option prints the banner and stops; verbose prints it and goes on; a rejected option
      stops silently; an empty command list is refused; otherwise the program runs. */
  lemma DispatchOrder(p: ParseResult, env: Env, w: World)
    ensures p.OptionError? ==> MainSpec(p, env, w) == MainOutcome(false, UsageReported)
    ensures p.Parsed? && ParseOptions(p.events, env).args.showHelp ==>
      MainSpec(p, env, w) == MainOutcome(false, HelpShown)
    ensures p.Parsed? && !ParseOptions(p.events, env).args.showHelp && ParseOptions(p.events, env).args.showVersion ==>
      MainSpec(p, env, w) == MainOutcome(true, VersionShown)
    ensures MainSpec(p, env, w).banner <==>
      (p.Parsed? && !ParseOptions(p.events, env).args.showHelp
       && (ParseOptions(p.events, env).args.showVersion || ParseOptions(p.events, env).args.verbose))
    ensures MainSpec(p, env, w).exit.Ran? <==>
      (p.Parsed? && !ParseOptions(p.events, env).args.showHelp && !ParseOptions(p.events, env).args.showVersion
       && ParseOptions(p.events, env).errors == 0 && |p.rest| > 0)
    ensures MainSpec(p, env, w).exit.NoCommands? <==>
      (p.Parsed? && !ParseOptions(p.events, env).args.showHelp && !ParseOptions(p.events, env).args.showVersion
       && ParseOptions(p.events, env).errors == 0 && |p.rest| == 0)
  {
  }

  /** Takes the first command token as `user@host` when no user is set and it parses. */
  method ConsumeTarget(a: Arguments)
    requires |a.commands| > 0
    modifies a
    ensures a.State() == TakeTarget(old(a.State()))
  {
    if a.user == "" {
      var userHost := GetUserHost(Some(a.commands[0]));
      if userHost.Some? {
        a.user := userHost.value.0;
        a.host := userHost.value.1;
        a.commands := a.commands[1..];
      }
    }
  }

  /** `Main` after the option set is built: run the callbacks on a fresh `Arguments`, then
      dispatch. */
  method RunMain(p: ParseResult, env: Env, w: World) returns (r: MainOutcome)
    ensures r == MainSpec(p, env, w)
  {
    if p.OptionError? {
      return MainOutcome(false, UsageReported);
    }
    var a := new Arguments();
    var errors := ApplyOptions(a, p.events, env);
    assert OptionsState(a.State(), errors) == ParseOptions(p.events, env);
    a.commands := p.rest;
    ghost var parsed := a.State();
    if a.showHelp {
      return MainOutcome(false, HelpShown);
    }
    var banner := false;
    if a.showVersion || a.verbose {
      banner := true;
      if a.showVersion {
        return MainOutcome(banner, VersionShown);
      }
    }
    if errors == 0 {
      if |a.commands| > 0 {
        ConsumeTarget(a);
        var t := RunProgram(a, w);
        assert t == RunSpec(TakeTarget(parsed), w);
        r := MainOutcome(banner, Ran(t));
      } else {
        r := MainOutcome(banner, NoCommands);
      }
    } else {
      r := MainOutcome(banner, Suppressed(errors));
    }
  }

  /** Any rejected option (a malformed `-h`, an `-e` naming an unset or empty variable)
      keeps the program from running anything. */
  lemma RejectedOptionPreventsRun(p: ParseResult, env: Env, w: World, k: nat)
    requires p.Parsed? && k < |p.events| && Fails(p.events[k], env)
    ensures ParseOptions(p.events, env).errors > 0
    ensures !MainSpec(p, env, w).exit.Ran?
  {
    ErrorsCountRejections(OptionsState(Defaults(), 0), p.events, env);
    DispatchOrder(p, env, w);
  }

  /** `-e` with an unset or empty variable: the password source is still `Password` with an
      empty password, but nothing is run and no connection is attempted. */
  lemma UnsetEnvVarNeverConnects(p: ParseResult, env: Env, w: World, k: nat)
    requires p.Parsed? && k < |p.events| && p.events[k].EnvVarOpt?
    requires LookupEnv(env, EnvVarName(p.events[k].name)) == ""
    ensures Step(ParseOptions(p.events[..k], env), p.events[k], env).args.passwordType == Password
    ensures Step(ParseOptions(p.events[..k], env), p.events[k], env).args.password == ""
    ensures !MainSpec(p, env, w).exit.Ran?
  {
    RejectedOptionPreventsRun(p, env, w, k);
  }

  /** The state a run starts from, when it runs. */
  function RunState(p: ParseResult, env: Env): ArgsState
    requires p.Parsed? && |p.rest| > 0
  {
    TakeTarget(ParseOptions(p.events, env).args.(commands := p.rest))
  }

  /** A run starts from the parsed options with only the target and commands adjusted. */
  lemma RanFromRunState(p: ParseResult, env: Env, w: World)
    requires MainSpec(p, env, w).exit.Ran?
    ensures p.Parsed? && |p.rest| > 0
    ensures MainSpec(p, env, w).exit.trace == RunSpec(RunState(p, env), w)
    ensures RunState(p, env).passwordType == ParseOptions(p.events, env).args.passwordType
    ensures RunState(p, env).password == ParseOptions(p.events, env).args.password
    ensures RunState(p, env).fileName == ParseOptions(p.events, env).args.fileName
    ensures RunState(p, env).quiet == ParseOptions(p.events, env).args.quiet
  {
  }

  /** The first leftover token that parses is the target, and the command is built from
      the tokens after it. */
  lemma FirstTokenIsTarget(p: ParseResult, env: Env, w: World, user: string, host: string)
    requires p.Parsed? && |p.rest| > 0 && p.rest[0] == user + "@" + host
    requires '@' !in user && '@' !in host
    requires ParseOptions(p.events, env).args.user == ""
    ensures RunState(p, env).user == user && RunState(p, env).host == host
    ensures RunState(p, env).commands == p.rest[1..]
    ensures MainSpec(p, env, w).exit.Ran? && Attempted(MainSpec(p, env, w).exit.trace.outcome) ==>
      MainSpec(p, env, w).exit.trace.outcome.session.user == user
      && MainSpec(p, env, w).exit.trace.outcome.session.host == host
      && Some(MainSpec(p, env, w).exit.trace.outcome.session.command) == CommandLine(p.rest[1..])
  {
    UserHostRoundTrip(user, host);
  }

  /** A first token that does not parse stays part of the command and the user stays empty. */
  lemma MalformedTargetStaysCommand(p: ParseResult, env: Env, w: World)
    requires p.Parsed? && |p.rest| > 0 && Occurrences(p.rest[0], '@') != 1
    requires ParseOptions(p.events, env).args.user == ""
    ensures RunState(p, env).user == "" && RunState(p, env).commands == p.rest
    ensures MainSpec(p, env, w).exit.Ran? && Attempted(MainSpec(p, env, w).exit.trace.outcome) ==>
      MainSpec(p, env, w).exit.trace.outcome.session.user == ""
      && Some(MainSpec(p, env, w).exit.trace.outcome.session.command) == CommandLine(p.rest)
  {
  }

  /** `user@host` with no command after it passes the "no commands" check, because that
      check runs before the target is taken from the list; the run then resolves the
      credential (prompting on stdin unless quiet) and fails on the empty command line,
      so no connection is attempted. */
  lemma TargetWithoutCommand(p: ParseResult, env: Env, w: World, user: string, host: string)
    requires p.Parsed? && p.rest == [user + "@" + host]
    requires '@' !in user && '@' !in host
    requires ParseOptions(p.events, env).args.user == ""
    ensures MainSpec(p, env, w).exit.Ran? <==>
      !ParseOptions(p.events, env).args.showHelp && !ParseOptions(p.events, env).args.showVersion
      && ParseOptions(p.events, env).errors == 0
    ensures MainSpec(p, env, w).exit.Ran? ==> !Attempted(MainSpec(p, env, w).exit.trace.outcome)
    ensures MainSpec(p, env, w).exit.Ran? && ResolveCredential(RunState(p, env), w).Success? && w.infoAccepted ==>
      MainSpec(p, env, w).exit.trace.outcome == CommandMalformed("")
  {
    DispatchOrder(p, env, w);
    FirstTokenIsTarget(p, env, w, user, host);
    assert RunState(p, env).commands == [];
  }

  /** With no credential option the password is read from stdin (end of input reads as the
      empty password), and the prompt is shown unless quiet. */
  lemma NoCredentialOptionReadsStdin(p: ParseResult, env: Env, w: World)
    requires p.Parsed?
    requires forall j :: 0 <= j < |p.events| ==> !IsCredentialOption(p.events[j])
    ensures MainSpec(p, env, w).exit.Ran? ==>
      (MainSpec(p, env, w).exit.trace.prompted <==> !ParseOptions(p.events, env).args.quiet)
    ensures MainSpec(p, env, w).exit.Ran? && Attempted(MainSpec(p, env, w).exit.trace.outcome) ==>
      MainSpec(p, env, w).exit.trace.outcome.session.methods
        == [PasswordAuth(RunState(p, env).user, w.stdinLine.GetOr(""))]
  {
    if MainSpec(p, env, w).exit.Ran? {
      RanFromRunState(p, env, w);
      NoCredentialKeepsSource(OptionsState(Defaults(), 0), p.events, env);
    }
  }


  /** `-f path` as the last credential option: the first line of the file is the password;
      an empty or unreadable file aborts before any connection. */
  lemma FilePasswordIsFirstLine(p: ParseResult, env: Env, w: World, k: nat)
    requires p.Parsed? && k < |p.events| && p.events[k].FileOpt?
    requires forall j :: k < j < |p.events| ==> !IsCredentialOption(p.events[j])
    ensures MainSpec(p, env, w).exit.Ran? && p.events[k].path !in w.files ==>
      MainSpec(p, env, w).exit.trace.outcome == CredentialFailed(FileUnreadable(Some(p.events[k].path)))
    ensures MainSpec(p, env, w).exit.Ran? && p.events[k].path in w.files && |w.files[p.events[k].path]| == 0 ==>
      MainSpec(p, env, w).exit.trace.outcome == CredentialFailed(FileHasNoData(p.events[k].path))
    ensures MainSpec(p, env, w).exit.Ran? && Attempted(MainSpec(p, env, w).exit.trace.outcome) ==>
      p.events[k].path in w.files && |w.files[p.events[k].path]| > 0
      && MainSpec(p, env, w).exit.trace.outcome.session.methods
        == [PasswordAuth(RunState(p, env).user, w.files[p.events[k].path][0])]
  {
    if MainSpec(p, env, w).exit.Ran? {
      RanFromRunState(p, env, w);
      LastCredentialWins(OptionsState(Defaults(), 0), p.events, env, k);
      assert RunState(p, env).passwordType == File;
      assert RunState(p, env).fileName == Some(p.events[k].path);
    }
  }


  /** `-p secret` as the last credential option: the password is used verbatim. */
  lemma LiteralPasswordVerbatim(p: ParseResult, env: Env, w: World, k: nat)
    requires p.Parsed? && k < |p.events| && p.events[k].PasswordOpt?
    requires forall j :: k < j < |p.events| ==> !IsCredentialOption(p.events[j])
    ensures MainSpec(p, env, w).exit.Ran? && Attempted(MainSpec(p, env, w).exit.trace.outcome) ==>
      MainSpec(p, env, w).exit.trace.outcome.session.methods
        == [PasswordAuth(RunState(p, env).user, p.events[k].secret)]
  {
    if MainSpec(p, env, w).exit.Ran? {
      RanFromRunState(p, env, w);
      LastCredentialWins(OptionsState(Defaults(), 0), p.events, env, k);
      assert RunState(p, env).passwordType == Password;
    }
  }


  /** `-e [NAME]` as the last credential option: the session authenticates with the value
      of the variable read when the option was parsed (a run implies it was non-empty). */
  lemma EnvVarPasswordUsed(p: ParseResult, env: Env, w: World, k: nat)
    requires p.Parsed? && k < |p.events| && p.events[k].EnvVarOpt?
    requires forall j :: k < j < |p.events| ==> !IsCredentialOption(p.events[j])
    ensures MainSpec(p, env, w).exit.Ran? && Attempted(MainSpec(p, env, w).exit.trace.outcome) ==>
      MainSpec(p, env, w).exit.trace.outcome.session.methods
        == [PasswordAuth(RunState(p, env).user, LookupEnv(env, EnvVarName(p.events[k].name)))]
  {
    if MainSpec(p, env, w).exit.Ran? {
      RanFromRunState(p, env, w);
      LastCredentialWins(OptionsState(Defaults(), 0), p.events, env, k);
      assert RunState(p, env).passwordType == Password;
    }
  }


  /** `-k` without a usable path as the last credential option: the key under the home
      folder is used, and a key that does not load aborts before any connection. */
  lemma KeyDefaultsToHome(p: ParseResult, env: Env, w: World, k: nat)
    requires p.Parsed? && k < |p.events| && p.events[k].KeyOpt? && IsNullOrWhiteSpace(p.events[k].keyPath)
    requires forall j :: k < j < |p.events| ==> !IsCredentialOption(p.events[j])
    ensures MainSpec(p, env, w).exit.Ran? && w.home + DEFAULT_KEY_SUFFIX !in w.loadableKeys ==>
      MainSpec(p, env, w).exit.trace.outcome == CredentialFailed(KeyUnreadable(w.home + DEFAULT_KEY_SUFFIX))
    ensures MainSpec(p, env, w).exit.Ran? && Attempted(MainSpec(p, env, w).exit.trace.outcome) ==>
      MainSpec(p, env, w).exit.trace.outcome.session.methods
        == [KeyAuth(RunState(p, env).user, w.home + DEFAULT_KEY_SUFFIX)]
  {
    if MainSpec(p, env, w).exit.Ran? {
      RanFromRunState(p, env, w);
      LastCredentialWins(OptionsState(Defaults(), 0), p.events, env, k);
      assert RunState(p, env).passwordType == Key;
      assert IsNullOrWhiteSpace(RunState(p, env).fileName);
    }
  }


  /** `-p secret user@host command` against an SSH server that accepts everything: the
      literal password, the target split at its `@`, the command as given, and one
      connection and one run. */
  lemma PasswordEndToEnd(secret: string, user: string, host: string, command: string, env: Env, w: World)
    requires '@' !in user && '@' !in host
    requires command != "" && !(command[0] == '\'' && command[|command| - 1] == '\'')
    requires w.infoAccepted && w.connects && w.runs
    ensures MainSpec(Parsed([PasswordOpt(secret)], [user + "@" + host, command]), env, w)
      == MainOutcome(false, Ran(RunTrace(false, Completed(Session(host, user, [PasswordAuth(user, secret)], command)))))
  {
    var events := [PasswordOpt(secret)];
    var rest := [user + "@" + host, command];
    var parsed := Defaults().(password := secret, passwordType := Password);
    assert ParseOptions(events, env) == OptionsState(parsed, 0) by {
      var start := OptionsState(Defaults(), 0);
      assert events[..0] == [];
      assert ApplyAll(start, events[..0], env) == start;
      assert ApplyAll(start, events, env) == Step(start, PasswordOpt(secret), env);
    }
    var s := parsed.(user := user, host := host, commands := [command]);
    assert TakeTarget(parsed.(commands := rest)) == s by {
      UserHostRoundTrip(user, host);
      assert rest[1..] == [command];
    }
    assert CommandLine([command]) == Some(command);
  }
}
