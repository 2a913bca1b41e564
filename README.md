# PMan, the process manager, in Dafny

PMan is a small interactive shell. It launches programs in the background and
keeps them in a registry. It can list them, send them SIGTERM, SIGSTOP or SIGCONT,
and print a status report from their /proc files. Before every prompt it
reaps the children that have terminated. This project models:

- `list.c`, the registry: a singly-linked list of `(pid, path)` nodes, newest
  first. It is the class `ProcessList.Registry`, over heap nodes
  (`ProcessList.Node`). Its contents are a ghost sequence of nodes, mapped to
  `ProcessRecord` values. Each list operation is a method proved against a
  function on that sequence (`RemoveFirst`, `Listing`, `Contains`).
- `pman.c`, the supervisor:
  - the commands `bg`, `bglist`, `bgkill`, `bgstop`, `bgstart`, `pstat`;
  - `format_path`, the `strtok` tokenizer loop, `is_valid_command` and
    `execute_command`;
  - the reaping loop `child_process_status`, and one turn of `main`.

  All of it is the class `Supervisor.Manager`. Each of its methods is proved
  equal to a function on the pure `Supervisor.State`, and the properties are
  lemmas about those functions.

The operating system is replaced by inputs:

- **`Supervisor.Env`** carries, for one command:
  - the value `fork` returns in the parent;
  - the working directory that `getcwd` returns;
  - the first line of `/proc/[pid]/stat`;
  - the two bytes printed as context-switch counts;
  - the text that `%f` makes of a tick count.
- **`waitpid`** answers come from a sequence of `Supervisor.WaitResult`s.
- **Logs of effects:**
  - every `kill` call is recorded in the ghost log `signals`;
  - every `pstat` that opens /proc files is recorded in `statReads`;
  - everything printed goes to `out`, as structured `Output.Out` lines, and
    `Output.Text` gives their exact `printf` text.

Modules:

- `Util`: Option.
- `Numbers`: `%d` and `atoi`.
- `Output`: the printed lines.
- `Tokenizer`: `strtok` over the delimiters `" \t\n\f\r\v"`, and the 100-slot
  loop.
- `ProcessList`: `list.c`.
- `Paths`: `format_path`.
- `Commands`: the command table and argument checks.
- `ProcStat`: the field positions `pstat` reads.
- `Supervisor`: `pman.c`.

## Model

| member | source | states |
|---|---|---|
| ProcessList.Registry.constructor | list.c:12 | the registry starts empty |
| ProcessList.Registry.AddToList | list.c:22-28 | the new record is prepended: contents become `[(pid, path)] + old contents`; existing nodes are untouched |
| ProcessList.Registry.RemoveTail | list.c:36-48 | on a non-empty list, the last record is dropped and all others stay, in order |
| ProcessList.Registry.RemoveFromList | list.c:57-80 | contents become `RemoveFirst(old, pid)`; "Process N does not exist" is printed exactly when no record has the pid (cases 1 and 5); the tail case 4 is unreachable |
| ProcessList.Registry.UnlinkHead | list.c:62-65 | case 2: unlinking the head drops the first record |
| ProcessList.Registry.UnlinkAfter | list.c:67-73 | case 3: bypassing the node after `nodes[k]` drops exactly record k+1 |
| ProcessList.Registry.SearchForPid | list.c:89-98 | returns 1 exactly when some record carries the pid, and 0 otherwise |
| ProcessList.Registry.PrintList | list.c:107-120 | prints "No background processes" for an empty list; otherwise one "pid path" line per record, in list order, then the total |
| ProcessList.RemoveFirstSpec | list.c:57-80 | for a present pid: the result is the list minus its first record with that pid (one shorter, the rest in order); for an absent pid: the list itself |
| ProcessList.RemoveFirstAbsent | list.c:74-78 | removing an absent pid changes nothing |
| ProcessList.RemoveFirstAt | list.c:66-73 | when the first match is at index k, the result is `s[..k] + s[k+1..]` |
| ProcessList.RemoveFirstKeeps | list.c:62-73 | every record with a different pid survives the removal |
| ProcessList.FirstIndex | list.c:66-73 | the walk stops at the first record carrying the pid |
| ProcessList.RemoveFirstUnique | list.c:57-80 | without duplicate pids, removal equals filtering that pid out |
| ProcessList.PrependUnique | list.c:22-28 | `add_to_list` does no duplicate check: pids stay unique after prepending exactly when the new pid was absent |
| ProcessList.WithoutMembers | pman.c:350-367 | a record survives filtering by a pid set exactly when its pid is not in the set |
| ProcessList.WithoutUnique | pman.c:350-367 | filtering keeps pids unique |
| ProcessList.WithoutUnion | pman.c:350-367 | filtering by `a`, then by `b`, is filtering by `a + b` |
| Paths.FormatPath | pman.c:29-44 | the array copy drops the leading '.' of "./prog"; otherwise '/' is appended to the path; the returned path is `cwd + "/" + prog` in both cases |
| Paths.DotSlashSameDisplay | pman.c:31-43 | launching `./prog` and `prog` store the same display path |
| Paths.DisplayPathShape | pman.c:41-43 | the display path starts with the working directory followed by '/' |
| Commands.IsValidCommand | pman.c:231-251 | returns 1 exactly for the six command names, and 0 for anything else, NULL included |
| Commands.Decide | pman.c:260-311 | the `strcmp` chain: no action exactly for a token outside the table; a launch exactly for `bg` with a name; a listing exactly for `bglist`; a signal or report only for its own command name, and only with a non-zero pid |
| Commands.BgCommand | pman.c:261-267 | `bg` reports "Process name required" exactly when there is no second token; otherwise it launches that program |
| Commands.PidCommands | pman.c:271-310 | the four pid commands report "Process ID required" exactly when the argument is missing or `atoi` gives 0; otherwise they act on that value |
| Commands.ValidCommandsAct | pman.c:260-311 | every validated command leads to some action |
| Commands.PrintedPidRoundTrip | pman.c:275-276 | a pid printed by `bglist`, given back to a signalling command, targets the same pid |
| Numbers.Natural | list.c:115 | the numeral is non-empty digits with no leading zero |
| Numbers.Decimal | list.c:115 | the numeral starts with '-' exactly for negative numbers |
| Numbers.Atoi | pman.c:275-306 | a negative result needs a leading '-' after the white space; a non-zero result needs a digit |
| Numbers.AtoiOfDecimal | pman.c:275-276 | `atoi` reads back what `%d` printed |
| Numbers.AtoiOfNonNumeric | pman.c:275-278 | a token starting with neither white space, a sign nor a digit converts to 0, so the command reports a missing pid |
| Output.Text | list.c:107-120 | every printed line ends in a newline |
| Output.ListEntryPidReadsBack | list.c:115 | a list entry starts with the decimal pid, which `atoi` reads back, followed by a space |
| Tokenizer.DelimiterIsWhitespace | pman.c:19 | the delimiter test is membership in `WHITESPACE` |
| Tokenizer.CString | pman.c:324-326 | `strtok` sees the prefix before the first NUL of the buffer that `fgets` filled; that prefix holds no NUL |
| Tokenizer.CStringEndsAtNul | pman.c:324-326 | whatever follows a NUL is never seen |
| Tokenizer.Strtok | pman.c:326-330 | one call returns NULL exactly when only delimiters remain, and then stays at the end; otherwise it returns a non-empty, delimiter-free token and moves forward |
| Tokenizer.StrtokNextWord | pman.c:326-330 | `strtok` returns NULL exactly when no words remain; otherwise it returns the next word and continues after it |
| Tokenizer.Tokenize | pman.c:326-332 | the 100-slot array holds the first 100 words of the line, in order, then NULLs |
| Tokenizer.WordsAreRuns | pman.c:326-332 | every token is non-empty and contains no delimiter |
| Tokenizer.BlankLine | pman.c:326-332 | the line has no tokens exactly when it consists only of delimiters |
| Tokenizer.WordsSplit | pman.c:19 | splitting at any delimiter character splits the token list there |
| Supervisor.StatFieldsPresent | pman.c:205-211 | on a stat line with at least 24 fields, each slot `pstat` prints holds the corresponding stat word |
| Supervisor.ExecutedBg | pman.c:261-267 | `execute_command` on `bg` either reports the missing name or launches the program |
| Supervisor.ExecutedPid | pman.c:271-310 | `execute_command` on a pid command either reports the missing pid, reports status (`pstat`) or signals with that command's signal |
| Supervisor.SignalGate | pman.c:90-131 | a tracked pid gets exactly one signal of the requested kind, plus a confirmation for stop and start only; an untracked pid gets no signal and an error; the registry and /proc reads never change |
| Supervisor.StopThenStart | pman.c:106-131 | `bgstop` then `bgstart` on a tracked pid: SIGSTOP then SIGCONT, both confirmations, and the process stays tracked |
| Supervisor.ReportGate | pman.c:199-221 | `pstat` reads /proc exactly when the pid is tracked; an untracked pid gets only an error line; no signal is sent and the registry is unchanged |
| Supervisor.ReapedStops | pman.c:363-365 | the loop stops at the first answer with nothing ready: nothing after it is handled |
| Supervisor.ReapedRegistry | pman.c:350-367 | without duplicate pids, reaping removes exactly the reported pids; the rest stay in order and unique; no signal is sent and no /proc file read |
| Supervisor.ReapedKeeps | pman.c:350-367 | for any registry, a record whose pid is never reported remains |
| Supervisor.ReapedForgets | pman.c:350-367 | without duplicate pids: after reaping, no reported pid is still tracked; a later report of one of them leaves the state unchanged except the output, which gets the not-found message (after "terminated" for a signalled child) |
| Supervisor.WithoutNothing | pman.c:363-365 | filtering by the empty pid set is the identity |
| Supervisor.ReapOne | pman.c:354-361 | a tracked child that exited is removed silently; one killed by a signal is announced as terminated, then removed |
| Supervisor.BlankLineIsSilent | pman.c:334-341 | a line of delimiters reads no stat line, prints nothing and changes nothing |
| Supervisor.UnknownCommand | pman.c:339-341 | an unknown first word prints "Error: Invalid command" and changes nothing else |
| Supervisor.HandledEndsAtNul | pman.c:324-336 | a line followed by a NUL and anything else is handled exactly like the line alone |
| Supervisor.HandledLine | pman.c:319-342 | one input line changes the registry only by prepending the forked pid; it signals at most one tracked pid and reads /proc only for a tracked pid; unique pids stay unique when the kernel's pid is new |
| Supervisor.TurnKeepsUnique | pman.c:376-381 | one turn of `main` (reap, then one line) keeps pids unique when the forked pid is not already tracked |
| Supervisor.LaunchThenList | pman.c:260-270 | from the empty state, `bg sleep` records the forked pid with its display path and prints "Now executing"; `bglist` then prints that one entry and a total of 1 |
| Supervisor.KillSession | pman.c:271-300 | for a tracked pid, `bgstop`, `bgkill`, `bgstart` send SIGSTOP, SIGTERM, SIGCONT with the stop and start confirmations; the reaping pass that then reports it killed announces it and drops exactly that pid |
| Supervisor.ReapKilled | pman.c:350-367 | a pass seeing one killed tracked child, then nothing ready, prints "terminated" and removes exactly that pid |
| Supervisor.Manager.constructor | list.c:12 | an empty registry, and empty output and logs |
| Supervisor.Manager.Bg | pman.c:53-70 | parent side: a positive fork result adds `(pid, display path)` and prints "Now executing"; a negative one prints "failed to fork"; zero (the child) changes nothing |
| Supervisor.Manager.BgList | pman.c:79-81 | prints the listing of the registry |
| Supervisor.Manager.BgKill | pman.c:90-97 | the state becomes `Signalled(old, SIGTERM, pid)` (see SignalGate) |
| Supervisor.Manager.BgStop | pman.c:106-114 | the state becomes `Signalled(old, SIGSTOP, pid)` |
| Supervisor.Manager.BgStart | pman.c:123-131 | the state becomes `Signalled(old, SIGCONT, pid)` |
| Supervisor.Manager.Pstat | pman.c:199-221 | the state becomes `Reported(old, pid, env)` (see ReportGate): header and border, then comm, state, rss, utime and stime taken from stat positions 1, 2, 23, 13 and 14, then the two ctxt counts and a border; the stat line is split by the same tokenizer as the input line |
| Supervisor.Manager.ExecuteCommand | pman.c:260-311 | the state becomes `Executed(old, argv, env)` (see ExecutedBg and ExecutedPid) |
| Supervisor.Manager.GetUserInput | pman.c:319-342 | the state becomes `Handled(old, line, env)`: tokenize the C string, validate, then dispatch or report an invalid command |
| Supervisor.Manager.ChildProcessStatus | pman.c:350-367 | the state becomes `Reaped(old, waits)` (see ReapedRegistry and ReapedKeeps) |
| Supervisor.Manager.ReapChild | pman.c:354-361 | one reported child is announced if it was signalled, then removed from the list |
| Supervisor.Manager.Cycle | pman.c:376-381 | one turn of `main`: `Handled(Reaped(old, waits), line, env)` (see TurnKeepsUnique) |

## Left out

- The child side of `bg`: `execvp`, its error message and `exit(1)` run in the
  forked child, whose state is separate; `Bg` with a zero fork result changes nothing.
- `sleep(1)` after a launch: it has no effect on the state.
- `getcwd`, `fork`, `waitpid`, `kill` and the /proc files are inputs, not system calls.
- The "Cannot read file" path of `get_stat_array` and `get_status_contents`: it
  goes on to read and close a NULL stream, which is undefined behaviour.
- `get_time`: floating-point division by the clock-tick rate, then `%f`. It is the
  input function `Env.seconds`.
- The two context-switch counts: `pstat` prints the characters at offsets 39 and 40 of its
  status buffer. `fgets` filled that buffer with the first line of /proc/[pid]/status only, the
  short `Name:` line, so these offsets normally lie past its NUL, in uninitialised memory.
  They are the unconstrained input `Env.ctxt`.
- Supervisor.Reported, Supervisor.Manager.Pstat, Supervisor.Executed, Supervisor.Handled
  and the methods that call them require a stat line of at least 24 fields
  (`Readable`). They require it only when `pstat` runs on a tracked pid, because
  with fewer fields `atol` receives NULL. The kernel always writes more than 24.
- Numbers.Atoi: values outside the range of C `int` (undefined behaviour in C) are the exact value.
  The same holds for `atol` on the rss field.
- `fgets` and the 200-byte input buffer: the buffer contents are given whole, and end of input is not modelled.
  Only the part before its first NUL is tokenized (`CString`).
- The prompt "PMan: > ", and the non-terminating loop of `main`: one turn is `Cycle`.
- Memory: `pstat` prints through `strtok` pointers into `pid_stat_contents`, a local array
  of `get_stat_array` that no longer exists once that function has returned. This is undefined
  behaviour; the model reads the stat words as if they were still valid.
- Memory: `malloc`/`free`, the leaks, and the overflow of `strcat` on the
  exactly-sized `getcwd` buffer. The variable-length array of `format_path` is an
  `array` of the copied length.
- `waitpid` answers are free inputs: the model does not relate them to the signals sent. In
  particular it does not encode that a stopped child acts on SIGTERM only after SIGCONT;
  `KillSession` sends SIGCONT before its reaping pass for that reason.
- Supervisor.Termination has only `Exited` and `Signaled`: with `WNOHANG` and without
  `WUNTRACED`, `waitpid` reports only those. The `else if (WIFSIGNALED)` then always holds.
- Supervisor.Manager.ExecuteCommand keeps the six independent `if`s of the C.
  `Decide` states their effect as a single choice, because the names are distinct.
- `args.c` and `inf.c` (test programs that are launched, not part of PMan), and
  `list.h` beyond the node structure, are not part of this model.
