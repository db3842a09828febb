# sshpass.net in Dafny

sshpass.net is a command-line front end for running one command over SSH with password or
key authentication. This project models its core: the option callbacks that fill the
`Arguments` record, the dispatch at the end of `Main`, the `user@host` parser
`GetUserHost`, and `RunProgram`. `RunProgram` resolves the credential and rejoins the
command tokens. It then strips one pair of single quotes and hands the result to the SSH
client.

Layout, one module per file:

- `wrappers.dfy` (`Wrappers`): `Option` and `Result`.
- `text.dfy` (`Text`): the .NET string helpers the program relies on.
  - `Split` is `String.Split(char)` and `Join` joins with one separator. The two are proved
    inverse to each other.
  - `IsNullOrEmpty` and `IsNullOrWhiteSpace` take a possibly-null string as an `Option`.
- `arguments.dfy` (`Args`): the `PasswordType` enum and the `Arguments` class with its
  defaults. `ArgsState` is a value snapshot of the class that the specification functions
  work on.
- `user_host.dfy` (`UserHost`): `GetUserHost`.
- `options.dfy` (`Options`): one method per option callback, each proved against the pure
  step function `Step`.
  - `ApplyAll` folds `Step` over the callbacks the option library fires, in order.
  - The lemmas say which option wins when several are given and when the error counter
    moves.
- `runner.dfy` (`Runner`): `RunProgram`, split into credential resolution (`AddCredential`),
  the token-joining loop (`JoinCommand`) and the session (`Execute`). Each part is proved
  against the specification `RunSpec`.
- `dispatch.dfy` (`Dispatch`): `RunMain`, proved against `MainSpec`, plus end-to-end
  lemmas about whole invocations.

The environment is a parameter:

- `Env` is the process environment.
- `World` holds the stdin line, the home folder, the key files that load, the readable files
  with their lines, and whether the SSH client's `ConnectionInfo` constructor, `Connect` and
  `RunCommand` succeed.
- What the option library reports is a `ParseResult`. It is either an `OptionException`, or
  the callbacks it fired plus the leftover tokens.

Behaviour worth knowing, all of it modelled as the program has it:

- Several credential options are not rejected: each of `-f`, `-k`, `-p` and `-e`
  overwrites the password source, so the last one given wins (Program.cs:46-79,
  `LastCredentialWins`).
- `-e` naming an unset or empty variable does not stop parsing. It still selects
  `Password` with an empty password, then counts an error, so nothing runs
  (Program.cs:69-76 and :153, `UnsetEnvVarNeverConnects`).
- When no user is set, a first leftover token without exactly one `@` is not an error.
  `GetUserHost` prints its format message (Program.cs:195), but nothing counts it or stops
  the run: the token stays a command token and the user stays empty (Program.cs:157-166,
  `MalformedTargetStaysCommand`).
- An empty command line makes the quote check index `command[0]` and throw. A command that
  is a lone `'` makes `Substring(1, -1)` throw. Both exceptions are raised inside the
  `try` at Program.cs:268-299, caught and reported, and no connection is made
  (Program.cs:280-282, `StripQuotes`, `TargetWithoutCommand`).
- `user@host` with no command passes the "no commands" check, because that check runs
  before the target is taken off the list. The program then resolves the credential,
  prompting and reading stdin only when no credential option was given (Program.cs:213-216).
  If that succeeds and `ConnectionInfo` accepts the target, it fails on the empty command
  (Program.cs:155-167 and :280, `TargetWithoutCommand`).
- `Main` returns `void`, so every path that ends normally, error paths included, exits with
  status 0. The model records which path was taken (`Exit`) rather than a status code.
  An exception the program does not catch ends the process abnormally; see "Left out".

## Model

| member | source | states |
|---|---|---|
| Text.Split | sshpass.net/Program.cs:192 | `String.Split('@')` gives one more piece than there are separators, and no piece contains the separator |
| Text.SplitJoin | sshpass.net/Program.cs:192 | joining the pieces of a split with the separator gives back the original string |
| Text.JoinSplit | sshpass.net/Program.cs:192 | splitting a join of separator-free pieces gives back exactly those pieces |
| Text.Join | sshpass.net/Program.cs:273-277 | the single-space join that the command loop builds: no tokens give the empty string, and the result starts with the first token (`JoinSplit` and `SplitJoin` give the full correspondence with `Split`) |
| Text.JoinSnoc | sshpass.net/Program.cs:274-277 | appending one more token to a space-join appends a space and the token, which is what each loop iteration does |
| UserHost.GetUserHost | sshpass.net/Program.cs:188-205 | a result exists iff the argument is non-null and has exactly one `@`; then user + "@" + host is the argument and neither part has an `@`; a null argument gives no result |
| UserHost.UserHostRoundTrip | sshpass.net/Program.cs:188-198 | any user and host without `@`, empty ones included, come back unchanged from parsing `user@host` |
| Args.Arguments.constructor | sshpass.net/Arguments.cs:5-14 | a fresh `Arguments` reads the password from stdin, has an empty password, file name, user and host, all flags off and no commands |
| Options.Step | sshpass.net/Program.cs:46-119 | one callback: the error counter goes up by one exactly when an `-e` variable is unset or empty or an `-h` value is not `user@host`; a credential option sets the password source and other options leave source, password and file name alone; `-e` stores the variable's value (empty when unset); a valid `-h` splits into user and host and nothing else touches them; commands are never touched |
| Options.ApplyAll | sshpass.net/Program.cs:124 | the callbacks that parsing fires, run in order: the command list is untouched and each callback adds at most one error, never removing one |
| Options.EnvVarName | sshpass.net/Program.cs:69 | the variable `-e` reads is never empty: the given name when it is non-empty, `SSHPASS` otherwise |
| Options.LookupEnv | sshpass.net/Program.cs:70 | the value read is empty exactly when the variable is unset or set to the empty string, and is the variable's value when it is set |
| Options.LastCredentialWins | sshpass.net/Program.cs:46-79 | after any sequence of callbacks the last of `-f`, `-k`, `-p`, `-e` decides the password source, and leaves its own value in place: the path for `-f`/`-k`, the literal for `-p`, the variable's value for `-e` |
| Options.NoCredentialKeepsSource | sshpass.net/Program.cs:46-79 | callbacks that are not credential options leave the password source, password and file name unchanged |
| Options.StepFlag | sshpass.net/Program.cs:97-119 | a callback changes a flag only if it is that flag's own option, setting it to whether the value was non-empty |
| Options.LastFlagWins | sshpass.net/Program.cs:97-119 | each of quiet, verbose, help and version ends as set by the last of its own options |
| Options.AbsentFlagKeeps | sshpass.net/Program.cs:97-119 | a flag whose option never fires keeps its starting value |
| Options.ErrorsCountRejections | sshpass.net/Program.cs:67-95 | the error counter never goes down, and it ends above its start iff some callback rejected its value |
| Options.OnFileName | sshpass.net/Program.cs:46-51 | the `-f` callback leaves `Arguments` as `Step` prescribes: the path stored and source File |
| Options.OnKey | sshpass.net/Program.cs:53-58 | the `-k` callback stores the possibly-null path and selects Key, as `Step` prescribes |
| Options.OnPassword | sshpass.net/Program.cs:60-65 | the `-p` callback stores the literal password and selects Password, as `Step` prescribes |
| Options.OnEnvVar | sshpass.net/Program.cs:67-79 | the `-e` callback reads the named variable, `SSHPASS` when the name is null or empty; it stores the value and selects Password, and reports failure iff the value is empty |
| Options.OnHost | sshpass.net/Program.cs:81-95 | the `-h` callback sets user and host from a valid `user@host` and reports failure otherwise |
| Options.OnFlag | sshpass.net/Program.cs:97-119 | the `-q`/`-v`/`-?`/`-V` callbacks set their flag to whether the value is non-empty |
| Options.OnOption | sshpass.net/Program.cs:43-120 | any callback changes `Arguments` as `Step` prescribes and reports failure iff `Step` counts an error |
| Options.ApplyOptions | sshpass.net/Program.cs:124 | running all callbacks in order leaves `Arguments` and the error count equal to the fold `ApplyAll` of `Step` |
| Runner.ResolveCredential | sshpass.net/Program.cs:211-266 | Stdin uses the line read, empty at end of input; Password uses the stored password verbatim; Key uses the given path, or `home + "/.ssh/id_rsa"` when it is null or white space, and fails iff the key does not load; File succeeds iff the file is readable and has a line, whose first line is then the password; the user is always the target user |
| Runner.CredentialState | sshpass.net/Program.cs:211-266 | resolving the credential changes only the stored password and, for Key, the file name: the password becomes the stdin line or the file's first line, and stays as it was for Key, Password and a failed File read; a Key source stores the effective key path |
| Runner.KeyPath | sshpass.net/Program.cs:220-223 | the key path used is never blank: a given path that is not null, empty or white space is kept, and otherwise it is `home + "/.ssh/id_rsa"` |
| Runner.StripQuotes | sshpass.net/Program.cs:279-283 | the quote check fails iff the command is empty or a lone `'`; otherwise a command with a `'` at both ends loses exactly those two characters and any other command is unchanged |
| Runner.StripQuotesUnwraps | sshpass.net/Program.cs:279-283 | wrapping any text in one pair of single quotes is undone exactly |
| Runner.JoinCommand | sshpass.net/Program.cs:273-277 | the loop builds the tokens joined with single spaces, so no tokens give "" and one token gives itself |
| Runner.SessionOutcome | sshpass.net/Program.cs:268-299 | a connection is attempted iff `ConnectionInfo` accepts the target and the command line survives the quote check; then the session has that host, user, methods and command, and it completes iff connect and run both succeed |
| Runner.RunSpec | sshpass.net/Program.cs:207-300 | the prompt is written iff the source is Stdin and not quiet; a credential failure ends the run before any connection; otherwise a connection is attempted iff the session part allows it, with exactly the one resolved credential |
| Runner.AddCredential | sshpass.net/Program.cs:209-266 | the credential switch returns the resolved method or the failure, and leaves `Arguments` as `CredentialState` prescribes |
| Runner.Execute | sshpass.net/Program.cs:268-299 | the try block ends as `SessionOutcome` prescribes |
| Runner.RunProgram | sshpass.net/Program.cs:207-300 | `RunProgram` ends as `RunSpec` prescribes and leaves `Arguments` as `CredentialState` prescribes |
| Dispatch.MainSpec | sshpass.net/Program.cs:122-174 | an option exception is reported; a suppressed run carries the non-zero error count; a run happens only with no errors and at least one leftover token, and it is `RunSpec` of the parsed options with the target taken from the first token |
| Dispatch.TakeTarget | sshpass.net/Program.cs:157-166 | with no user set, a first token holding exactly one `@` becomes user and host and leaves the command list; in every other case nothing changes |
| Dispatch.ConsumeTarget | sshpass.net/Program.cs:157-166 | updates `Arguments` as `TakeTarget` prescribes |
| Dispatch.DispatchOrder | sshpass.net/Program.cs:122-174 | an option exception is reported; help wins and prints no banner; version prints the banner and stops; verbose prints it and goes on; the program runs iff there was no help, no version, no error and at least one leftover token, and "no commands" is reported iff only the tokens are missing |
| Dispatch.RunMain | sshpass.net/Program.cs:122-175 | `Main` from parse to dispatch ends as `MainSpec` prescribes |
| Dispatch.RejectedOptionPreventsRun | sshpass.net/Program.cs:67-153 | any rejected `-e` or `-h` value leaves a non-zero error count and nothing is run |
| Dispatch.UnsetEnvVarNeverConnects | sshpass.net/Program.cs:67-79 | `-e` with an unset or empty variable selects Password with an empty password, yet nothing is run and no connection is made |
| Dispatch.RanFromRunState | sshpass.net/Program.cs:153-167 | a run starts from the parsed options with only user, host and commands adjusted |
| Dispatch.FirstTokenIsTarget | sshpass.net/Program.cs:155-167 | with no `-h`, a leading `user@host` token becomes the session's user and host and the command is built from the tokens after it |
| Dispatch.MalformedTargetStaysCommand | sshpass.net/Program.cs:157-167 | with no `-h`, a leading token without exactly one `@` stays in the command and the user stays empty |
| Dispatch.TargetWithoutCommand | sshpass.net/Program.cs:155-283 | `user@host` alone still runs `RunProgram`, so the credential is resolved (with the prompt and stdin read only for the Stdin source); no connection is ever attempted, and when the credential resolves and `ConnectionInfo` accepts the target the run ends on the malformed empty command |
| Dispatch.NoCredentialOptionReadsStdin | sshpass.net/Program.cs:213-216 | with no credential option the prompt is shown iff not quiet, and the session authenticates with the stdin line, empty at end of input |
| Dispatch.FilePasswordIsFirstLine | sshpass.net/Program.cs:242-265 | with `-f path` last, an unreadable or empty file aborts with that error and any session uses the file's first line as its password |
| Dispatch.LiteralPasswordVerbatim | sshpass.net/Program.cs:238-241 | with `-p secret` last, any session authenticates with exactly that password |
| Dispatch.EnvVarPasswordUsed | sshpass.net/Program.cs:67-79 | with `-e [NAME]` last, any session authenticates with the value the variable (`SSHPASS` by default) had when the option was parsed |
| Dispatch.KeyDefaultsToHome | sshpass.net/Program.cs:219-237 | with a bare `-k` last, the key under the home folder is used and a key that does not load aborts before any connection |
| Dispatch.PasswordEndToEnd | sshpass.net/Program.cs:122-175 | `-p secret user@host cmd` against a server that accepts everything runs `cmd` once as `user` on `host` with that password, without prompt or banner, for any non-empty `cmd` not quoted at both ends (so `'ls -la` keeps its quote) |

## Left out

- Option tokenising (Mono.Options) is outside the model. Its outcome is a parameter: the
  callbacks it fires in order with their values, the leftover tokens, or an
  `OptionException`.
- The SSH library (Renci.SshNet) is outside the model. Whether the `ConnectionInfo`
  constructor, `Connect` and `RunCommand` succeed are `World` booleans. The reasons the
  constructor rejects arguments (an empty host or user, say) are not modelled.
- Key file formats are not modelled. A key path either loads or it does not.
- Runner.ResolveCredential: treats building the authentication method as always
  succeeding. The library's reasons for refusing one are not modelled. For Stdin
  (Program.cs:216) and Password (:239) the construction sits outside any `try`, so a
  refusal would be an uncaught exception that ends the process abnormally. For Key (:227)
  and File (:249) it sits inside the `try` opened at :224 or :243, so a refusal would be
  caught (:230-236, :258-264) and the run would stop before connecting.
- Console output is not modelled: message wording, the help text, the version banner and
  the assembly version, the verbose narration, and the printing of the remote command's
  result. The model keeps only whether the prompt and the banner were printed, and which
  exit path was taken.
- Environment variables, the home folder, stdin and the file system are `Env` and `World`
  parameters, not I/O.
- Disposal of the SSH client by `using` is not modelled, because it has no effect the model
  can observe.
- `ShowHelp` (Program.cs:177-186) prints only text and is represented by the `HelpShown`
  exit.
- Exit status is not modelled. The source's `Main` returns `void`, so the status is 0
  whenever the process ends normally. Only an uncaught exception, as described for
  `Runner.ResolveCredential` above, would end it otherwise.
