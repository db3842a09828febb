/** The option callbacks registered in `Main` (Program.cs): each recognised option overwrites
    fields of the shared `Arguments` object, and a rejected value bumps the `errors` counter.
    The option library's tokenising is not modelled: its output is a sequence of events. */
module Options {
  import opened Wrappers
  import opened Text
  import opened Args
  import opened UserHost

  /** The process environment: a variable that is not in the map is unset. */
  type Env = map<string, string>

  /** The variable `-e` reads when given no name. */
  const DEFAULT_ENV_VAR := "SSHPASS"

  datatype Flag = QuietFlag | VerboseFlag | HelpFlag | VersionFlag

  /** One callback invocation. An optional value (`-k`, `-e`) and a boolean flag's value may
      be `None` (`null`): the library passes `null` for a missing optional value and for a
      flag switched off with a trailing `-`. */
  datatype OptionEvent =
    | FileOpt(path: string)                    // -f, --filename=
    | KeyOpt(keyPath: Option<string>)          // -k, --key[:]
    | PasswordOpt(secret: string)              // -p, --password=
    | EnvVarOpt(name: Option<string>)          // -e, --envvar[:]
    | HostOpt(target: string)                  // -h, --host=
    | FlagOpt(flag: Flag, value: Option<string>) // -q, -v, -?, -V

  /** The `arguments` object and the `errors` counter of `Main`. */
  datatype OptionsState = OptionsState(args: ArgsState, errors: nat)

  /** The variable `-e` reads. */
  function EnvVarName(v: Option<string>): (name: string)
    ensures name != ""
    ensures !IsNullOrEmpty(v) ==> name == v.value
    ensures IsNullOrEmpty(v) ==> name == DEFAULT_ENV_VAR
  {
    if IsNullOrEmpty(v) then DEFAULT_ENV_VAR else v.value
  }

  /** `Environment.GetEnvironmentVariable(name) ?? string.Empty`. */
  function LookupEnv(env: Env, name: string): (value: string)
    ensures value == "" <==> name !in env || env[name] == ""
    ensures name in env ==> value == env[name]
  {
    if name in env then env[name] else ""
  }

  predicate IsCredentialOption(e: OptionEvent) {
    e.FileOpt? || e.KeyOpt? || e.PasswordOpt? || e.EnvVarOpt?
  }

  /** The password source a credential option selects. */
  function CredentialType(e: OptionEvent): PasswordType
    requires IsCredentialOption(e)
  {
    match e
    case FileOpt(_) => File
    case KeyOpt(_) => Key
    case PasswordOpt(_) => Password
    case EnvVarOpt(_) => Password
  }

  /** When an option counts as an error: `-e` whose variable is unset or empty, and `-h`
      whose value does not hold exactly one `@`. */
  predicate Fails(e: OptionEvent, env: Env) {
    match e
    case EnvVarOpt(v) => LookupEnv(env, EnvVarName(v)) == ""
    case HostOpt(v) => Occurrences(v, '@') != 1
    case _ => false
  }

  function FlagValue(s: ArgsState, f: Flag): bool {
    match f
    case QuietFlag => s.quiet
    case VerboseFlag => s.verbose
    case HelpFlag => s.showHelp
    case VersionFlag => s.showVersion
  }

  function SetFlag(s: ArgsState, f: Flag, b: bool): ArgsState {
    match f
    case QuietFlag => s.(quiet := b)
    case VerboseFlag => s.(verbose := b)
    case HelpFlag => s.(showHelp := b)
    case VersionFlag => s.(showVersion := b)
  }

  /** The effect of one callback on `arguments` and `errors`. */
  function Step(st: OptionsState, e: OptionEvent, env: Env): (r: OptionsState)
    ensures r.errors == st.errors + (if Fails(e, env) then 1 else 0)
    ensures r.args.commands == st.args.commands
    ensures IsCredentialOption(e) ==> r.args.passwordType == CredentialType(e)
    ensures !IsCredentialOption(e) ==>
      r.args.passwordType == st.args.passwordType && r.args.password == st.args.password
      && r.args.fileName == st.args.fileName
    ensures e.EnvVarOpt? ==> r.args.password == LookupEnv(env, EnvVarName(e.name))
    ensures e.HostOpt? && !Fails(e, env) ==> r.args.user + "@" + r.args.host == e.target
    ensures !e.HostOpt? || Fails(e, env) ==> r.args.user == st.args.user && r.args.host == st.args.host
  {
    var s := st.args;
    match e
    case FileOpt(v) => OptionsState(s.(fileName := Some(v), passwordType := File), st.errors)
    case KeyOpt(v) => OptionsState(s.(fileName := v, passwordType := Key), st.errors)
    case PasswordOpt(v) => OptionsState(s.(password := v, passwordType := Password), st.errors)
    case EnvVarOpt(v) =>
      var secret := LookupEnv(env, EnvVarName(v));
      var s' := s.(password := secret, passwordType := Password);
      if IsNullOrEmpty(Some(secret)) then OptionsState(s', st.errors + 1) else OptionsState(s', st.errors)
    case HostOpt(v) =>
      (match GetUserHost(Some(v))
       case None => OptionsState(s, st.errors + 1)
       case Some((u, h)) => OptionsState(s.(user := u, host := h), st.errors))
    case FlagOpt(f, v) => OptionsState(SetFlag(s, f, !IsNullOrEmpty(v)), st.errors)
  }

  /** The callbacks of `events`, run in order from `st`. */
  function ApplyAll(st: OptionsState, events: seq<OptionEvent>, env: Env): (r: OptionsState)
    ensures r.args.commands == st.args.commands
    ensures st.errors <= r.errors <= st.errors + |events|
    decreases |events|
  {
    if |events| == 0 then st
    else Step(ApplyAll(st, events[..|events| - 1], env), events[|events| - 1], env)
  }

  /** The last credential option given decides the password source; `-f` and `-k` both
      write `fileName`, `-p` writes the literal password. */
  lemma {:induction false} LastCredentialWins(st: OptionsState, events: seq<OptionEvent>, env: Env, k: nat)
    requires k < |events| && IsCredentialOption(events[k])
    requires forall j :: k < j < |events| ==> !IsCredentialOption(events[j])
    ensures ApplyAll(st, events, env).args.passwordType == CredentialType(events[k])
    ensures events[k].FileOpt? ==> ApplyAll(st, events, env).args.fileName == Some(events[k].path)
    ensures events[k].KeyOpt? ==> ApplyAll(st, events, env).args.fileName == events[k].keyPath
    ensures events[k].PasswordOpt? ==> ApplyAll(st, events, env).args.password == events[k].secret
    ensures events[k].EnvVarOpt? ==>
      ApplyAll(st, events, env).args.password == LookupEnv(env, EnvVarName(events[k].name))
    decreases |events|
  {
    var n := |events| - 1;
    var prefix := events[..n];
    if k < n {
      assert forall j :: k < j < |prefix| ==> prefix[j] == events[j];
      LastCredentialWins(st, prefix, env, k);
    }
  }

  /** Without a credential option the password source, password and file name keep their
      values; from a fresh `Arguments` that means reading the password from stdin. */
  lemma {:induction false} NoCredentialKeepsSource(st: OptionsState, events: seq<OptionEvent>, env: Env)
    requires forall j :: 0 <= j < |events| ==> !IsCredentialOption(events[j])
    ensures ApplyAll(st, events, env).args.passwordType == st.args.passwordType
    ensures ApplyAll(st, events, env).args.password == st.args.password
    ensures ApplyAll(st, events, env).args.fileName == st.args.fileName
    decreases |events|
  {
    if |events| > 0 {
      var prefix := events[..|events| - 1];
      assert forall j :: 0 <= j < |prefix| ==> prefix[j] == events[j];
      NoCredentialKeepsSource(st, prefix, env);
    }
  }

  /** A callback changes a flag only when it is that flag's own option. */
  lemma StepFlag(st: OptionsState, e: OptionEvent, env: Env, f: Flag)
    ensures FlagValue(Step(st, e, env).args, f) ==
      if e.FlagOpt? && e.flag == f then !IsNullOrEmpty(e.value) else FlagValue(st.args, f)
  {
    var r := Step(st, e, env);
    if e.FlagOpt? {
      assert r.args == SetFlag(st.args, e.flag, !IsNullOrEmpty(e.value));
    }
    match f
    case QuietFlag =>
    case VerboseFlag =>
    case HelpFlag =>
    case VersionFlag =>
  }

  /** A boolean flag is true exactly when its last occurrence carried a non-empty value. */
  lemma {:induction false} LastFlagWins(st: OptionsState, events: seq<OptionEvent>, env: Env, k: nat, f: Flag)
    requires k < |events| && events[k].FlagOpt? && events[k].flag == f
    requires forall j :: k < j < |events| ==> !(events[j].FlagOpt? && events[j].flag == f)
    ensures FlagValue(ApplyAll(st, events, env).args, f) == !IsNullOrEmpty(events[k].value)
    decreases |events|
  {
    var n := |events| - 1;
    var prefix := events[..n];
    if k < n {
      assert forall j :: k < j < |prefix| ==> prefix[j] == events[j];
      LastFlagWins(st, prefix, env, k, f);
    }
    StepFlag(ApplyAll(st, prefix, env), events[n], env, f);
  }

  /** A flag that is never given keeps its value (false in a fresh `Arguments`). */
  lemma {:induction false} AbsentFlagKeeps(st: OptionsState, events: seq<OptionEvent>, env: Env, f: Flag)
    requires forall j :: 0 <= j < |events| ==> !(events[j].FlagOpt? && events[j].flag == f)
    ensures FlagValue(ApplyAll(st, events, env).args, f) == FlagValue(st.args, f)
    decreases |events|
  {
    if |events| > 0 {
      var prefix := events[..|events| - 1];
      assert forall j :: 0 <= j < |prefix| ==> prefix[j] == events[j];
      AbsentFlagKeeps(st, prefix, env, f);
      StepFlag(ApplyAll(st, prefix, env), events[|events| - 1], env, f);
    }
  }

  /** `errors` grows exactly when some option was rejected, and never shrinks. */
  lemma {:induction false} ErrorsCountRejections(st: OptionsState, events: seq<OptionEvent>, env: Env)
    ensures ApplyAll(st, events, env).errors >= st.errors
    ensures ApplyAll(st, events, env).errors > st.errors <==>
      exists j :: 0 <= j < |events| && Fails(events[j], env)
    decreases |events|
  {
    if |events| > 0 {
      var n := |events| - 1;
      var prefix := events[..n];
      ErrorsCountRejections(st, prefix, env);
      assert forall j :: 0 <= j < |prefix| ==> prefix[j] == events[j];
      if exists j :: 0 <= j < |prefix| && Fails(prefix[j], env) {
        var j :| 0 <= j < |prefix| && Fails(prefix[j], env);
        assert Fails(events[j], env);
      }
    }
  }

  /** The `-f` callback. */
  method OnFileName(a: Arguments, v: string)
    modifies a
    ensures a.State() == Step(OptionsState(old(a.State()), 0), FileOpt(v), map[]).args
  {
    a.fileName := Some(v);
    a.passwordType := File;
  }

  /** The `-k` callback. */
  method OnKey(a: Arguments, v: Option<string>)
    modifies a
    ensures a.State() == Step(OptionsState(old(a.State()), 0), KeyOpt(v), map[]).args
  {
    a.fileName := v;
    a.passwordType := Key;
  }

  /** The `-p` callback. */
  method OnPassword(a: Arguments, v: string)
    modifies a
    ensures a.State() == Step(OptionsState(old(a.State()), 0), PasswordOpt(v), map[]).args
  {
    a.password := v;
    a.passwordType := Password;
  }

  /** The `-e` callback; `failed` is whether it incremented `errors`. */
  method OnEnvVar(a: Arguments, v: Option<string>, env: Env) returns (failed: bool)
    modifies a
    ensures a.State() == Step(OptionsState(old(a.State()), 0), EnvVarOpt(v), env).args
    ensures failed == Fails(EnvVarOpt(v), env)
  {
    var name := if IsNullOrEmpty(v) then DEFAULT_ENV_VAR else v.value;
    a.password := if name in env then env[name] else "";
    a.passwordType := Password;
    failed := IsNullOrEmpty(Some(a.password));
  }

  /** The `-h` callback; `failed` is whether it incremented `errors`. */
  method OnHost(a: Arguments, v: string) returns (failed: bool)
    modifies a
    ensures a.State() == Step(OptionsState(old(a.State()), 0), HostOpt(v), map[]).args
    ensures failed == Fails(HostOpt(v), map[])
  {
    var userHost := GetUserHost(Some(v));
    failed := userHost.None?;
    if !failed {
      a.user := userHost.value.0;
      a.host := userHost.value.1;
    }
  }

  /** The `-q`, `-v`, `-?` and `-V` callbacks. */
  method OnFlag(a: Arguments, f: Flag, v: Option<string>)
    modifies a
    ensures a.State() == Step(OptionsState(old(a.State()), 0), FlagOpt(f, v), map[]).args
  {
    var on := !IsNullOrEmpty(v);
    match f {
      case QuietFlag => a.quiet := on;
      case VerboseFlag => a.verbose := on;
      case HelpFlag => a.showHelp := on;
      case VersionFlag => a.showVersion := on;
    }
  }

  /** The callback the option library calls for `e`; `failed` is whether it incremented
      `errors`. */
  method OnOption(a: Arguments, e: OptionEvent, env: Env) returns (failed: bool)
    modifies a
    ensures a.State() == Step(OptionsState(old(a.State()), 0), e, env).args
    ensures failed == Fails(e, env)
  {
    failed := false;
    match e
    case FileOpt(v) => OnFileName(a, v);
    case KeyOpt(v) => OnKey(a, v);
    case PasswordOpt(v) => OnPassword(a, v);
    case EnvVarOpt(v) => failed := OnEnvVar(a, v, env);
    case HostOpt(v) => failed := OnHost(a, v);
    case FlagOpt(f, v) => OnFlag(a, f, v);
  }

  /** The callbacks of `events` in order, as the option library runs them while parsing;
      returns the final `errors` count. */
  method ApplyOptions(a: Arguments, events: seq<OptionEvent>, env: Env) returns (errors: nat)
    modifies a
    ensures OptionsState(a.State(), errors) == ApplyAll(OptionsState(old(a.State()), 0), events, env)
  {
    ghost var start := OptionsState(a.State(), 0);
    errors := 0;
    for i := 0 to |events|
      invariant OptionsState(a.State(), errors) == ApplyAll(start, events[..i], env)
    {
      var failed := OnOption(a, events[i], env);
      if failed {
        errors := errors + 1;
      }
      assert events[..i + 1][..i] == events[..i];
    }
    assert events[..|events|] == events;
  }
}
