/** `RunProgram` in Program.cs: choose the credential, rebuild the command line from the
    leftover tokens, strip one pair of single quotes, then connect and run the command once.
    Console, file, environment and SSH calls are not modelled: their results are the
    fields of a `World`. */
module Runner {
  import opened Wrappers
  import opened Text
  import opened Args

  /** What the outside world answers. */
  datatype World = World(
    stdinLine: Option<string>,        // Console.ReadLine(); None at end of input
    home: string,                     // the user profile folder
    loadableKeys: set<string>,        // paths from which a private key file loads
    files: map<string, seq<string>>,  // File.ReadAllLines; a path not in the map throws
    infoAccepted: bool,               // the ConnectionInfo constructor does not throw
    connects: bool,                   // SshClient.Connect succeeds
    runs: bool)                       // SshClient.RunCommand succeeds

  /** The one authentication method handed to the SSH client. */
  datatype Auth = PasswordAuth(user: string, password: string) | KeyAuth(user: string, keyPath: string)

  /** The early aborts before any connection is attempted. */
  datatype CredentialError =
    | KeyUnreadable(path: string)          // the private key file did not load
    | FileHasNoData(path: string)          // the password file has no lines
    | FileUnreadable(fileName: Option<string>) // reading the password file threw

  /** What is handed to the SSH client: target, authentication methods and command. */
  datatype Session = Session(host: string, user: string, methods: seq<Auth>, command: string)

  datatype RunOutcome =
    | CredentialFailed(error: CredentialError)
    | ConnectionInfoRejected               // thrown by the ConnectionInfo constructor
    | CommandMalformed(command: string)    // indexing or Substring threw on the joined command
    | ConnectFailed(session: Session)
    | CommandFailed(session: Session)
    | Completed(session: Session)

  /** Whether the password prompt was written, and how the run ended. */
  datatype RunTrace = RunTrace(prompted: bool, outcome: RunOutcome)

  const DEFAULT_KEY_SUFFIX := "/.ssh/id_rsa"

  /** Whether `SshClient.Connect` was called. */
  predicate Attempted(o: RunOutcome) {
    o.ConnectFailed? || o.CommandFailed? || o.Completed?
  }

  /** The key file used by `-k`: the given path, or the default key under `home` when the
      path is null, empty or white space. */
  function KeyPath(fileName: Option<string>, home: string): (path: string)
    ensures !IsNullOrWhiteSpace(Some(path))
    ensures !IsNullOrWhiteSpace(fileName) ==> path == fileName.value
    ensures IsNullOrWhiteSpace(fileName) ==> path == home + DEFAULT_KEY_SUFFIX
  {
    assert IsNullOrWhiteSpace(fileName) ==> (home + DEFAULT_KEY_SUFFIX)[|home|] == '/';
    if IsNullOrWhiteSpace(fileName) then home + DEFAULT_KEY_SUFFIX else fileName.value
  }

  /** The credential chosen by the password source, or why none could be built. */
  function ResolveCredential(s: ArgsState, w: World): (r: Result<Auth, CredentialError>)
    ensures r.Success? ==> r.value.user == s.user
    ensures s.passwordType == Stdin ==> r == Success(PasswordAuth(s.user, w.stdinLine.GetOr("")))
    ensures s.passwordType == Password ==> r == Success(PasswordAuth(s.user, s.password))
    ensures s.passwordType == Key && IsNullOrWhiteSpace(s.fileName) ==>
      r == if w.home + DEFAULT_KEY_SUFFIX in w.loadableKeys
           then Success(KeyAuth(s.user, w.home + DEFAULT_KEY_SUFFIX))
           else Failure(KeyUnreadable(w.home + DEFAULT_KEY_SUFFIX))
    ensures s.passwordType == Key && !IsNullOrWhiteSpace(s.fileName) ==>
      (r.Success? <==> s.fileName.value in w.loadableKeys)
      && (r.Success? ==> r.value == KeyAuth(s.user, s.fileName.value))
    ensures s.passwordType == File ==>
      (r.Success? <==> s.fileName.Some? && s.fileName.value in w.files && |w.files[s.fileName.value]| > 0)
      && (r.Success? ==> r.value == PasswordAuth(s.user, w.files[s.fileName.value][0]))
  {
    match s.passwordType
    case Stdin => Success(PasswordAuth(s.user, w.stdinLine.GetOr("")))
    case Key =>
      var path := KeyPath(s.fileName, w.home);
      if path in w.loadableKeys then Success(KeyAuth(s.user, path)) else Failure(KeyUnreadable(path))
    case Password => Success(PasswordAuth(s.user, s.password))
    case File =>
      if s.fileName.None? || s.fileName.value !in w.files then Failure(FileUnreadable(s.fileName))
      else
        var lines := w.files[s.fileName.value];
        if |lines| > 0 then Success(PasswordAuth(s.user, lines[0]))
        else Failure(FileHasNoData(s.fileName.value))
  }

  /** The single-quote check on the joined command: `None` stands for the exception thrown
      when the command is empty (indexing) or a lone quote (`Substring(1, -1)`). */
  function StripQuotes(command: string): (r: Option<string>)
    ensures r.None? <==> command == "" || command == "'"
    ensures r.Some? && command[0] == '\'' && command[|command| - 1] == '\'' ==>
      "'" + r.value + "'" == command
    ensures r.Some? && !(command[0] == '\'' && command[|command| - 1] == '\'') ==>
      r.value == command
  {
    if |command| == 0 then None
    else if command[0] == '\'' && command[|command| - 1] == '\'' then
      if |command| < 2 then None else Some(command[1..|command| - 1])
    else Some(command)
  }

  /** Wrapping any text in one pair of single quotes is undone by the strip. */
  lemma StripQuotesUnwraps(x: string)
    ensures StripQuotes("'" + x + "'") == Some(x)
  {
    var c := "'" + x + "'";
    assert c[1..|c| - 1] == x;
  }

  /** The command the session runs: the tokens joined, then unquoted. */
  function CommandLine(tokens: seq<string>): Option<string> {
    StripQuotes(Join(tokens, ' '))
  }

  /** The part of the run after a credential was built: the ConnectionInfo constructor, the
      command line, then one `Connect` and one `RunCommand`. */
  function SessionOutcome(host: string, user: string, methods: seq<Auth>, tokens: seq<string>, w: World): (o: RunOutcome)
    ensures Attempted(o) <==> w.infoAccepted && CommandLine(tokens).Some?
    ensures Attempted(o) ==> o.session == Session(host, user, methods, CommandLine(tokens).value)
    ensures o.Completed? <==> Attempted(o) && w.connects && w.runs
    ensures !w.infoAccepted ==> o == ConnectionInfoRejected
  {
    if !w.infoAccepted then ConnectionInfoRejected
    else
      match CommandLine(tokens)
      case None => CommandMalformed(Join(tokens, ' '))
      case Some(command) =>
        var session := Session(host, user, methods, command);
        if !w.connects then ConnectFailed(session)
        else if !w.runs then CommandFailed(session)
        else Completed(session)
  }

  /** The observable run: prompt, credential, target, command and the SSH client's answers. */
  function RunSpec(s: ArgsState, w: World): (t: RunTrace)
    ensures t.prompted <==> s.passwordType == Stdin && !s.quiet
    ensures ResolveCredential(s, w).Failure? ==> t.outcome == CredentialFailed(ResolveCredential(s, w).error)
    ensures Attempted(t.outcome) <==>
      ResolveCredential(s, w).Success? && w.infoAccepted && CommandLine(s.commands).Some?
    ensures Attempted(t.outcome) ==>
      t.outcome.session == Session(s.host, s.user, [ResolveCredential(s, w).value], CommandLine(s.commands).value)
    ensures t.outcome.Completed? <==> Attempted(t.outcome) && w.connects && w.runs
  {
    var prompted := s.passwordType == Stdin && !s.quiet;
    match ResolveCredential(s, w)
    case Failure(err) => RunTrace(prompted, CredentialFailed(err))
    case Success(auth) => RunTrace(prompted, SessionOutcome(s.host, s.user, [auth], s.commands, w))
  }

  /** The `for` loop that puts the option library's leftover tokens back together. */
  method JoinCommand(tokens: seq<string>) returns (command: string)
    ensures command == Join(tokens, ' ')
    ensures |tokens| == 0 ==> command == ""
    ensures |tokens| == 1 ==> command == tokens[0]
  {
    command := "";
    for i := 0 to |tokens|
      invariant i == 0 ==> command == ""
      invariant 0 < i < |tokens| ==> command == Join(tokens[..i], ' ') + " "
      invariant 0 < i == |tokens| ==> command == Join(tokens, ' ')
    {
      if i > 0 {
        assert tokens[..i + 1] == tokens[..i] + [tokens[i]];
        JoinSnoc(tokens[..i], tokens[i], ' ');
      } else {
        assert tokens[..1] == [tokens[0]];
      }
      command := command + tokens[i] + (if i < |tokens| - 1 then " " else "");
      assert i + 1 == |tokens| ==> tokens[..i + 1] == tokens;
    }
  }

  /** The `arguments` object after the credential is resolved: the password read from
      stdin or from the file is stored, and so is the default key path. */
  function CredentialState(s: ArgsState, w: World): (r: ArgsState)
    ensures r.passwordType == s.passwordType && r.user == s.user && r.host == s.host
    ensures r.commands == s.commands && r.quiet == s.quiet && r.verbose == s.verbose
    ensures r.showHelp == s.showHelp && r.showVersion == s.showVersion
    ensures ResolveCredential(s, w).Success? && ResolveCredential(s, w).value.PasswordAuth? ==>
      r.password == ResolveCredential(s, w).value.password
    ensures s.passwordType == Key || ResolveCredential(s, w).Failure? ==> r.password == s.password
    ensures s.passwordType == Key ==> r.fileName == Some(KeyPath(s.fileName, w.home))
    ensures s.passwordType != Key ==> r.fileName == s.fileName
  {
    match s.passwordType
    case Stdin => s.(password := w.stdinLine.GetOr(""))
    case Key => if IsNullOrWhiteSpace(s.fileName) then s.(fileName := Some(w.home + DEFAULT_KEY_SUFFIX)) else s
    case Password => s
    case File =>
      if s.fileName.Some? && s.fileName.value in w.files && |w.files[s.fileName.value]| > 0
      then s.(password := w.files[s.fileName.value][0])
      else s
  }

  /** The `switch` on the password source: builds the authentication method list. */
  method AddCredential(a: Arguments, w: World) returns (methods: seq<Auth>, failure: Option<CredentialError>)
    modifies a
    ensures a.State() == CredentialState(old(a.State()), w)
    ensures ResolveCredential(old(a.State()), w).Success? ==>
      failure == None && methods == [ResolveCredential(old(a.State()), w).value]
    ensures ResolveCredential(old(a.State()), w).Failure? ==>
      failure == Some(ResolveCredential(old(a.State()), w).error)
  {
    ghost var s := a.State();
    methods, failure := [], None;
    match a.passwordType {
      case Stdin =>
        a.password := w.stdinLine.GetOr("");
        methods := methods + [PasswordAuth(a.user, a.password)];
      case Key =>
        if IsNullOrWhiteSpace(a.fileName) {
          a.fileName := Some(w.home + DEFAULT_KEY_SUFFIX);
        }
        var path := a.fileName.value;
        assert path == KeyPath(s.fileName, w.home);
        if path in w.loadableKeys {
          methods := methods + [KeyAuth(a.user, path)];
        } else {
          failure := Some(KeyUnreadable(path));
        }
      case Password =>
        methods := methods + [PasswordAuth(a.user, a.password)];
      case File =>
        if a.fileName.None? || a.fileName.value !in w.files {
          failure := Some(FileUnreadable(a.fileName));
        } else {
          var lines := w.files[a.fileName.value];
          if |lines| > 0 {
            a.password := lines[0];
            methods := methods + [PasswordAuth(a.user, a.password)];
          } else {
            failure := Some(FileHasNoData(a.fileName.value));
          }
        }
    }
  }

  /** The `try` block after the credential: build the connection, rebuild and unquote the
      command, connect and run it. */
  method Execute(host: string, user: string, methods: seq<Auth>, tokens: seq<string>, w: World) returns (o: RunOutcome)
    ensures o == SessionOutcome(host, user, methods, tokens, w)
  {
    if !w.infoAccepted {
      return ConnectionInfoRejected;
    }
    var command := JoinCommand(tokens);
    ghost var joined := command;
    if |command| == 0 {
      assert CommandLine(tokens) == None;
      return CommandMalformed(command);
    }
    if command[0] == '\'' && command[|command| - 1] == '\'' {
      if |command| < 2 {
        assert CommandLine(tokens) == None;
        return CommandMalformed(command);
      }
      command := command[1..|command| - 1];
    }
    assert CommandLine(tokens) == StripQuotes(joined) == Some(command);
    var session := Session(host, user, methods, command);
    if !w.connects {
      o := ConnectFailed(session);
    } else if !w.runs {
      o := CommandFailed(session);
    } else {
      o := Completed(session);
    }
  }

  /** `RunProgram` on the shared `arguments` object. */
  method RunProgram(a: Arguments, w: World) returns (t: RunTrace)
    modifies a
    ensures t == RunSpec(old(a.State()), w)
    ensures a.State() == CredentialState(old(a.State()), w)
  {
    var prompted := a.passwordType == Stdin && !a.quiet;
    var methods, failure := AddCredential(a, w);
    if failure.Some? {
      return RunTrace(prompted, CredentialFailed(failure.value));
    }
    var outcome := Execute(a.host, a.user, methods, a.commands, w);
    t := RunTrace(prompted, outcome);
  }
}
