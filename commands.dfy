/** The command table and the argument checks of pman.c (`is_valid_command`, `execute_command`). */
module Commands {
  import opened Util
  import opened Numbers

  /** The table `valid_commands` walked by `is_valid_command`. */
  const VALID_COMMANDS: seq<string> := ["bg", "bglist", "bgkill", "bgstop", "bgstart", "pstat"]

  /** A first token names one of the six commands. */
  predicate IsCommand(token: Option<string>) {
    token.Some? && token.value in VALID_COMMANDS
  }

  /** `is_valid_command`: 1 for one of the six commands, 0 for anything else, NULL included. */
  method IsValidCommand(userCommand: Option<string>) returns (valid: int)
    ensures valid == if IsCommand(userCommand) then 1 else 0
  {
    if userCommand.None? {
      return 0;
    }
    var i := 0;
    while i < |VALID_COMMANDS|
      invariant 0 <= i <= |VALID_COMMANDS|
      invariant forall k :: 0 <= k < i ==> VALID_COMMANDS[k] != userCommand.value
    {
      if VALID_COMMANDS[i] == userCommand.value {
        return 1;
      }
      i := i + 1;
    }
    return 0;
  }

  datatype Signal = SIGTERM | SIGSTOP | SIGCONT

  /** What `execute_command` goes on to do for one tokenized line. */
  datatype Action =
    | Launch(program: string)      // bg(input_array)
    | List                         // bglist()
    | Send(sig: Signal, pid: int)  // bgkill, bgstop, bgstart
    | Report(pid: int)             // pstat
    | NameRequired                 // "Error: Process name required"
    | IdRequired                   // "Error: Process ID required"
    | NoAction

  /** The pid argument: present and with a non-zero `atoi` value. */
  function PidArgument(arg: Option<string>): (pid: Option<int>) {
    if arg.None? then None
    else if Atoi(arg.value) != 0 then Some(Atoi(arg.value))
    else None
  }

  /** The four commands taking a pid: "Process ID required", or the command's action on that pid. */
  function PidAction(command: string, arg: Option<string>): (a: Action)
    requires command in {"bgkill", "bgstop", "bgstart", "pstat"}
  {
    match PidArgument(arg)
    case None => IdRequired
    case Some(pid) => if command == "pstat" then Report(pid) else Send(SignalOf(command), pid)
  }

  /** `execute_command`: the chain of `strcmp` tests on the first token, then on the argument. */
  function Decide(argv: seq<Option<string>>): (a: Action)
    requires |argv| >= 2 && argv[0].Some?
    ensures a.NoAction? <==> !IsCommand(argv[0])
    ensures a.Launch? <==> argv[0] == Some("bg") && argv[1].Some?
    ensures a.List? <==> argv[0] == Some("bglist")
    ensures a.Send? ==> argv[0].value in {"bgkill", "bgstop", "bgstart"} && a.sig == SignalOf(argv[0].value) && a.pid != 0
    ensures a.Report? ==> argv[0] == Some("pstat") && a.pid != 0
  {
    var command := argv[0].value;
    if command == "bg" then (if argv[1].None? then NameRequired else Launch(argv[1].value))
    else if command == "bglist" then List
    else if command == "bgkill" || command == "bgstop" || command == "bgstart" || command == "pstat" then
      PidAction(command, argv[1])
    else NoAction
  }

  /** The signal each signalling command sends. */
  function SignalOf(command: string): (sig: Signal)
    requires command in {"bgkill", "bgstop", "bgstart"}
  {
    if command == "bgkill" then SIGTERM else if command == "bgstop" then SIGSTOP else SIGCONT
  }

  /**
    The four commands taking a pid report "Process ID required" exactly when the
    argument is missing or `atoi` reads it as 0; otherwise they act on that value.
   */
  lemma PidCommands(argv: seq<Option<string>>)
    requires |argv| >= 2 && argv[0].Some? && argv[0].value in {"bgkill", "bgstop", "bgstart", "pstat"}
    ensures Decide(argv) == IdRequired <==> argv[1].None? || Atoi(argv[1].value) == 0
    ensures argv[1].Some? && Atoi(argv[1].value) != 0 ==>
              Decide(argv) == if argv[0].value == "pstat" then Report(Atoi(argv[1].value))
                              else Send(SignalOf(argv[0].value), Atoi(argv[1].value))
  {
  }

  /** `bg` reports "Process name required" exactly when there is no program name. */
  lemma BgCommand(argv: seq<Option<string>>)
    requires |argv| >= 2 && argv[0] == Some("bg")
    ensures Decide(argv) == NameRequired <==> argv[1].None?
    ensures argv[1].Some? ==> Decide(argv) == Launch(argv[1].value)
  {
  }

  /** Every first token that passes `is_valid_command` leads to some action. */
  lemma ValidCommandsAct(argv: seq<Option<string>>)
    requires |argv| >= 2 && IsCommand(argv[0])
    ensures Decide(argv) != NoAction
  {
  }

  /** A pid as `bglist` prints it, given back to a signalling command, names that same process. */
  lemma PrintedPidRoundTrip(argv: seq<Option<string>>, pid: int)
    requires |argv| >= 2 && argv[0].Some? && argv[0].value in {"bgkill", "bgstop", "bgstart"}
    requires pid != 0 && argv[1] == Some(Decimal(pid))
    ensures Decide(argv) == Send(SignalOf(argv[0].value), pid)
  {
    AtoiOfDecimal(pid);
    assert PidArgument(argv[1]) == Some(pid);
    assert Decide(argv) == PidAction(argv[0].value, argv[1]);
  }
}
