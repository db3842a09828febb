/** The mutable argument record of Arguments.cs, filled in by the option callbacks and by `Main`. */
module Args {
  import opened Wrappers

  /** Where the password comes from. An environment variable is not a source of its own:
      `-e` stores the variable's value as a `Password`. */
  datatype PasswordType = Stdin | Key | File | Password

  /** A snapshot of every field of an `Arguments` object. `fileName` is `None` when `-k`
      was given without a value, which stores C#'s `null` in the field. */
  datatype ArgsState = ArgsState(
    passwordType: PasswordType,
    password: string,
    fileName: Option<string>,
    user: string,
    host: string,
    quiet: bool,
    verbose: bool,
    showHelp: bool,
    showVersion: bool,
    commands: seq<string>)

  /** The field initialisers of a fresh `Arguments`. */
  function Defaults(): ArgsState {
    ArgsState(Stdin, "", Some(""), "", "", false, false, false, false, [])
  }

  class Arguments {
    var passwordType: PasswordType
    var password: string
    var fileName: Option<string>
    var user: string
    var host: string
    var quiet: bool
    var verbose: bool
    var showHelp: bool
    var showVersion: bool
    var commands: seq<string>

    /** Every field as one value. */
    function State(): ArgsState
      reads this
    {
      ArgsState(passwordType, password, fileName, user, host, quiet, verbose, showHelp, showVersion, commands)
    }

    constructor ()
      ensures passwordType == Stdin
      ensures password == "" && fileName == Some("") && user == "" && host == ""
      ensures !quiet && !verbose && !showHelp && !showVersion
      ensures commands == []
      ensures State() == Defaults()
    {
      passwordType := Stdin;
      password, fileName, user, host := "", Some(""), "", "";
      quiet, verbose, showHelp, showVersion := false, false, false, false;
      commands := [];
    }
  }
}
