/**
  Everything the process manager writes to its terminal. Each constructor is one
  `printf` call of list.c or pman.c; `Text` is the exact text it prints.
 */
module Output {
  import opened Numbers

  datatype Out =
    // list.c
    | NoBackgroundProcesses
    | ListEntry(pid: int, path: string)
    | ListTotal(count: int)
    | ListMissing(pid: int)
    // pman.c: bg
    | NowExecuting(pid: int)
    | ForkFailed
    // pman.c: bgkill, bgstop, bgstart, pstat
    | NoSuchProcess(pid: int)
    | NowStopped(pid: int)
    | Restarted(pid: int)
    // pman.c: pstat
    | StatusHeader(pid: int)
    | Border
    | Comm(name: string)
    | StateField(state: string)
    | Rss(pages: int)
    | UserTime(seconds: string)
    | SystemTime(seconds: string)
    | VoluntaryCtxt(raw: int)
    | NonvoluntaryCtxt(raw: int)
    // pman.c: execute_command, get_user_input, child_process_status
    | ProcessNameRequired
    | ProcessIdRequired
    | InvalidCommand
    | Terminated(pid: int)

  const BORDER: string := "* -------------------------------- *"

  /** The characters printed for one output line; every one of them ends the line. */
  function Text(o: Out): (t: string)
    ensures |t| > 0 && t[|t| - 1] == '\n'
  {
    Line(o) + "\n"
  }

  /** The line `Text` prints, without its newline. */
  function Line(o: Out): (text: string) {
    match o
      case NoBackgroundProcesses => "No background processes"
      case ListEntry(pid, path) => Decimal(pid) + " " + path
      case ListTotal(n) => "Total background processes: " + Decimal(n)
      case ListMissing(pid) => "Process " + Decimal(pid) + " does not exist"
      case NowExecuting(pid) => "Now executing process " + Decimal(pid)
      case ForkFailed => "Error: failed to fork"
      case NoSuchProcess(pid) => "Error: Process " + Decimal(pid) + " does not exist"
      case NowStopped(pid) => "Process " + Decimal(pid) + " is now stopped"
      case Restarted(pid) => "Process " + Decimal(pid) + " has been re-started"
      case StatusHeader(pid) => "Process " + Decimal(pid) + " status"
      case Border => BORDER
      case Comm(name) => "comm: \t" + name
      case StateField(state) => "state: \t" + state
      case Rss(pages) => "rss: \t" + Decimal(pages)
      case UserTime(seconds) => "utime: \t" + seconds
      case SystemTime(seconds) => "stime: \t" + seconds
      case VoluntaryCtxt(raw) => "voluntary ctxt switches: \t" + Decimal(raw)
      case NonvoluntaryCtxt(raw) => "nonvoluntary ctxt switches: \t" + Decimal(raw)
      case ProcessNameRequired => "Error: Process name required"
      case ProcessIdRequired => "Error: Process ID required"
      case InvalidCommand => "Error: Invalid command"
      case Terminated(pid) => "Process " + Decimal(pid) + " terminated"
  }

  /** The pid printed in a list entry reads back with `atoi` as the pid that was stored. */
  lemma ListEntryPidReadsBack(pid: int, path: string)
    ensures var t := Text(ListEntry(pid, path));
            |t| > |Decimal(pid)| && Atoi(t[..|Decimal(pid)|]) == pid && t[|Decimal(pid)|] == ' '
  {
    var t := Text(ListEntry(pid, path));
    assert t[..|Decimal(pid)|] == Decimal(pid);
    AtoiOfDecimal(pid);
  }
}
