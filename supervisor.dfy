/**
  The supervisor of pman.c: the commands `bg`, `bglist`, `bgkill`, `bgstop`,
  `bgstart`, `pstat`, their dispatch from an input line, and the reaping of
  terminated children. The operating system is replaced by inputs: what `fork`,
  `getcwd` and the /proc files return is given in an `Env`, and what `waitpid`
  reports is a sequence of `WaitResult`s. Signals sent with `kill` and the pids
  whose /proc files are read are recorded in ghost logs.
 */
module Supervisor {
  import opened Util
  import opened Numbers
  import opened Output
  import opened Tokenizer
  import opened ProcessList
  import opened Paths
  import opened Commands
  import opened ProcStat

  /** One `kill(pid, sig)` call. */
  datatype Sent = Sent(pid: int, sig: Signal)

  /** Everything the supervisor's commands act on. */
  datatype State = State(registry: seq<ProcessRecord>, out: seq<Out>, signals: seq<Sent>, statReads: seq<int>)

  /**
    What the operating system answers during one command: the value `fork`
    returns in the supervisor, the working directory, the first line of
    /proc/[pid]/stat, the two bytes printed as context-switch counts, and the
    text `%f` makes of a tick count divided by the clock-tick rate.
   */
  datatype Env = Env(fork: int, cwd: string, statLine: string, ctxt: (int, int), seconds: string -> string)

  /**
    The stat line has all the fields `pstat` prints (the kernel always writes more);
    with fewer, `pstat` would hand a NULL token to `atol`.
   */
  predicate Readable(env: Env) {
    HasStatFields(Words(CString(env.statLine)))
  }

  /** The one case in which a command reads the stat line: `pstat` on a tracked pid. */
  predicate ReadsStat(st: State, argv: seq<Option<string>>)
    requires |argv| >= 2 && argv[0].Some?
  {
    Decide(argv).Report? && Contains(st.registry, Decide(argv).pid)
  }

  /** An input line reads the stat line: its first word is `pstat`, with a tracked pid. */
  predicate LineReadsStat(st: State, line: string) {
    var argv := Slots(Words(CString(line)));
    IsCommand(argv[0]) && ReadsStat(st, argv)
  }

  /** How a reaped child ended: `WIFEXITED` or `WIFSIGNALED`. */
  datatype Termination = Exited | Signaled

  /** One answer of `waitpid(-1, &status, WNOHANG)`; a `wpid` of 0 or less means nothing is ready. */
  datatype WaitResult = WaitResult(wpid: int, how: Termination)

  // ---------------------------------------------------------------------------
  // The commands as functions of the state.

  /** `bg` in the supervisor: a child pid is tracked with its display path, a failed fork is reported. */
  function Launched(st: State, program: string, env: Env): (r: State) {
    if env.fork > 0 then
      st.(registry := [ProcessRecord(env.fork, DisplayPath(env.cwd, program))] + st.registry,
          out := st.out + [NowExecuting(env.fork)])
    else if env.fork == 0 then st
    else st.(out := st.out + [ForkFailed])
  }

  /** `bglist`. */
  function Listed(st: State): (r: State) {
    st.(out := st.out + Listing(st.registry))
  }

  /** The confirmation printed after a signal: none for `bgkill`. */
  function Confirmation(sig: Signal, pid: int): (lines: seq<Out>) {
    match sig
    case SIGTERM => []
    case SIGSTOP => [NowStopped(pid)]
    case SIGCONT => [Restarted(pid)]
  }

  /** `bgkill`, `bgstop`, `bgstart`: one signal to a tracked pid, an error for any other. */
  function Signalled(st: State, sig: Signal, pid: int): (r: State) {
    if Contains(st.registry, pid) then
      st.(signals := st.signals + [Sent(pid, sig)], out := st.out + Confirmation(sig, pid))
    else st.(out := st.out + [NoSuchProcess(pid)])
  }

  /** `pstat`: the report for a tracked pid, read from its /proc files; an error for any other. */
  function Reported(st: State, pid: int, env: Env): (r: State)
    requires Contains(st.registry, pid) ==> Readable(env)
  {
    if Contains(st.registry, pid) then
      st.(statReads := st.statReads + [pid],
          out := st.out + PstatLines(pid, Words(CString(env.statLine)), env.seconds, env.ctxt))
    else st.(out := st.out + [NoSuchProcess(pid)])
  }

  /** `execute_command` on a tokenized line. */
  function Executed(st: State, argv: seq<Option<string>>, env: Env): (r: State)
    requires |argv| >= 2 && argv[0].Some? && (ReadsStat(st, argv) ==> Readable(env))
  {
    match Decide(argv)
    case Launch(program) => Launched(st, program, env)
    case List => Listed(st)
    case Send(sig, pid) => Signalled(st, sig, pid)
    case Report(pid) => Reported(st, pid, env)
    case NameRequired => st.(out := st.out + [ProcessNameRequired])
    case IdRequired => st.(out := st.out + [ProcessIdRequired])
    case NoAction => st
  }

  /** `execute_command` for `bg`. */
  lemma ExecutedBg(st: State, argv: seq<Option<string>>, env: Env)
    requires |argv| >= 2 && argv[0] == Some("bg")
    ensures Executed(st, argv, env) ==
              if argv[1].None? then st.(out := st.out + [ProcessNameRequired]) else Launched(st, argv[1].value, env)
  {
  }

  /** `execute_command` for the four commands taking a pid. */
  lemma ExecutedPid(st: State, argv: seq<Option<string>>, env: Env)
    requires |argv| >= 2 && argv[0].Some? && argv[0].value in {"bgkill", "bgstop", "bgstart", "pstat"}
    requires ReadsStat(st, argv) ==> Readable(env)
    ensures PidArgument(argv[1]).None? ==> Executed(st, argv, env) == st.(out := st.out + [ProcessIdRequired])
    ensures PidArgument(argv[1]).Some? ==>
              Executed(st, argv, env) ==
                if argv[0].value == "pstat" then Reported(st, PidArgument(argv[1]).value, env)
                else Signalled(st, SignalOf(argv[0].value), PidArgument(argv[1]).value)
  {
    assert Decide(argv) == PidAction(argv[0].value, argv[1]);
  }

  /** `get_user_input` after the line is read: tokenize, validate, dispatch. */
  function Handled(st: State, line: string, env: Env): (r: State)
    requires LineReadsStat(st, line) ==> Readable(env)
  {
    var argv := Slots(Words(CString(line)));
    if IsCommand(argv[0]) then Executed(st, argv, env)
    else if argv[0].Some? then st.(out := st.out + [InvalidCommand])
    else st
  }

  /** `remove_from_list` on the state. */
  function Removed(st: State, pid: int): (r: State) {
    st.(registry := RemoveFirst(st.registry, pid), out := st.out + RemovalOutput(st.registry, pid))
  }

  /** `child_process_status`: handle wait results in order up to the first one with nothing ready. */
  function Reaped(st: State, waits: seq<WaitResult>): (r: State)
    decreases |waits|
  {
    if waits == [] || waits[0].wpid <= 0 then st
    else Reaped(Removed(Noted(st, waits[0]), waits[0].wpid), waits[1..])
  }

  /** A child killed by a signal is announced before it is removed. */
  function Noted(st: State, w: WaitResult): (r: State) {
    if w.how == Signaled then st.(out := st.out + [Terminated(w.wpid)]) else st
  }

  lemma ReapedFrom(st: State, waits: seq<WaitResult>, i: nat)
    requires i <= |waits|
    ensures i == |waits| || waits[i].wpid <= 0 ==> Reaped(st, waits[i..]) == st
    ensures i < |waits| && waits[i].wpid > 0 ==>
              Reaped(st, waits[i..]) == Reaped(Removed(Noted(st, waits[i]), waits[i].wpid), waits[i + 1..])
  {
    if i < |waits| {
      assert waits[i..][0] == waits[i];
      assert waits[i..][1..] == waits[i + 1..];
    }
  }

  /** The pids reported before the first "nothing ready". */
  function ReportedPids(waits: seq<WaitResult>): (pids: set<int>)
    decreases |waits|
  {
    if waits == [] || waits[0].wpid <= 0 then {} else {waits[0].wpid} + ReportedPids(waits[1..])
  }

  // ---------------------------------------------------------------------------
  // Properties.

  /**
    Signal gating: the registry is never changed and no /proc file is read; a
    tracked pid gets exactly one signal of the requested kind (and a confirmation
    for stop and start only); any other pid gets no signal and an error line.
   */
  lemma SignalGate(st: State, sig: Signal, pid: int)
    ensures var r := Signalled(st, sig, pid);
            && r.registry == st.registry && r.statReads == st.statReads
            && (Contains(st.registry, pid) ==>
                  r.signals == st.signals + [Sent(pid, sig)] && r.out == st.out + Confirmation(sig, pid))
            && (!Contains(st.registry, pid) ==>
                  r.signals == st.signals && r.out == st.out + [NoSuchProcess(pid)])
            && (r.out == st.out <==> Contains(st.registry, pid) && sig == SIGTERM)
  {
  }

  /** `pstat` on an untracked pid reads no /proc file and changes nothing but the output. */
  lemma ReportGate(st: State, pid: int, env: Env)
    requires Contains(st.registry, pid) ==> Readable(env)
    ensures var r := Reported(st, pid, env);
            && r.registry == st.registry && r.signals == st.signals
            && (!Contains(st.registry, pid) <==> r.statReads == st.statReads)
            && (!Contains(st.registry, pid) ==> r.out == st.out + [NoSuchProcess(pid)])
  {
  }

  /** `bgstop` then `bgstart` on a tracked pid: still tracked, exactly one SIGSTOP then one SIGCONT. */
  lemma StopThenStart(st: State, pid: int)
    requires Contains(st.registry, pid)
    ensures var r := Signalled(Signalled(st, SIGSTOP, pid), SIGCONT, pid);
            && r.registry == st.registry
            && r.signals == st.signals + [Sent(pid, SIGSTOP), Sent(pid, SIGCONT)]
            && r.out == st.out + [NowStopped(pid), Restarted(pid)]
  {
  }

  /**
    Reaping, for a registry without duplicate pids: exactly the reported pids leave
    the registry, the others stay in their order, pids stay unique, and no signal
    is sent and no /proc file read.
   */
  lemma {:induction false} ReapedRegistry(st: State, waits: seq<WaitResult>)
    requires Unique(st.registry)
    ensures var r := Reaped(st, waits);
            && r.registry == Without(st.registry, ReportedPids(waits))
            && Unique(r.registry)
            && r.signals == st.signals && r.statReads == st.statReads
    decreases |waits|
  {
    if waits != [] && waits[0].wpid > 0 {
      var w := waits[0];
      var next := Removed(Noted(st, w), w.wpid);
      RemoveFirstUnique(st.registry, w.wpid);
      WithoutUnique(st.registry, {w.wpid});
      ReapedRegistry(next, waits[1..]);
      WithoutUnion(st.registry, {w.wpid}, ReportedPids(waits[1..]));
    } else {
      WithoutNothing(st.registry);
    }
  }

  lemma {:induction false} WithoutNothing(s: seq<ProcessRecord>)
    ensures Without(s, {}) == s
    decreases |s|
  {
    if s != [] {
      WithoutNothing(s[1..]);
      assert s == [s[0]] + s[1..];
    }
  }

  /** A reaped tracked child that exited is removed silently; one killed by a signal is announced first. */
  lemma ReapOne(st: State, pid: int, how: Termination)
    requires pid > 0 && Contains(st.registry, pid)
    ensures var r := Reaped(st, [WaitResult(pid, how)]);
            && r.registry == RemoveFirst(st.registry, pid)
            && r.out == st.out + (if how == Signaled then [Terminated(pid)] else [])
  {
    assert [WaitResult(pid, how)][1..] == [];
  }

  /**
    For a registry without duplicate pids: after reaping, none of the reported pids
    is tracked, so a later report of one of them removes nothing and only prints
    the not-found message (after the announcement, for a signalled child).
   */
  lemma ReapedForgets(st: State, waits: seq<WaitResult>, pid: int, how: Termination)
    requires Unique(st.registry) && pid in ReportedPids(waits)
    ensures !Contains(Reaped(st, waits).registry, pid)
    ensures var r := Reaped(st, waits);
            Reaped(r, [WaitResult(pid, how)]) ==
              r.(out := r.out + (if how == Signaled then [Terminated(pid)] else []) + [ListMissing(pid)])
  {
    ReapedRegistry(st, waits);
    ReportedPositive(waits, pid);
    var r := Reaped(st, waits);
    WithoutMembers(st.registry, ReportedPids(waits));
    assert !Contains(r.registry, pid) by {
      forall i | 0 <= i < |r.registry| ensures r.registry[i].pid != pid {
        assert r.registry[i] in r.registry;
      }
    }
    assert [WaitResult(pid, how)][1..] == [];
    RemoveFirstAbsent(r.registry, pid);
  }

  /** Only positive pids are reported. */
  lemma {:induction false} ReportedPositive(waits: seq<WaitResult>, pid: int)
    requires pid in ReportedPids(waits)
    ensures pid > 0
    decreases |waits|
  {
    if pid != waits[0].wpid {
      ReportedPositive(waits[1..], pid);
    }
  }

  /** The reaping loop stops at the first answer with nothing ready: what follows it is never handled. */
  lemma {:induction false} ReapedStops(st: State, a: seq<WaitResult>, w: WaitResult, b: seq<WaitResult>)
    requires w.wpid <= 0
    ensures Reaped(st, a + [w] + b) == Reaped(st, a)
    decreases |a|
  {
    var s := a + [w] + b;
    if a == [] {
      assert s[0] == w;
    } else {
      assert s[0] == a[0];
      if a[0].wpid > 0 {
        assert s[1..] == a[1..] + [w] + b;
        ReapedStops(Removed(Noted(st, a[0]), a[0].wpid), a[1..], w, b);
      }
    }
  }

  /**
    Reaping, for any registry (`add_to_list` allows duplicate pids): a record
    whose pid is not reported is still tracked afterwards.
   */
  lemma {:induction false} ReapedKeeps(st: State, waits: seq<WaitResult>, r: ProcessRecord)
    requires r in st.registry && r.pid !in ReportedPids(waits)
    ensures r in Reaped(st, waits).registry
    decreases |waits|
  {
    if waits != [] && waits[0].wpid > 0 {
      var w := waits[0];
      RemoveFirstKeeps(st.registry, w.wpid, r);
      ReapedKeeps(Removed(Noted(st, w), w.wpid), waits[1..], r);
    }
  }

  /** A line of delimiters only prints nothing and changes nothing. */
  lemma BlankLineIsSilent(st: State, line: string, env: Env)
    requires forall k :: 0 <= k < |line| ==> IsDelimiter(line[k])
    ensures !LineReadsStat(st, line)
    ensures Handled(st, line, env) == st
  {
    var text := CString(line);
    assert forall k :: 0 <= k < |text| ==> IsDelimiter(text[k]) by {
      forall k | 0 <= k < |text| ensures IsDelimiter(text[k]) {
        assert text[k] == line[k];
      }
    }
    BlankLine(text);
  }

  /** A line whose first word is not a command prints "Error: Invalid command" and nothing else happens. */
  lemma UnknownCommand(st: State, line: string, env: Env)
    requires Words(CString(line)) != [] && Words(CString(line))[0] !in VALID_COMMANDS
    ensures Handled(st, line, env) == st.(out := st.out + [InvalidCommand])
  {
  }

  /** A NUL ends the line: nothing after it is read as part of the command. */
  lemma HandledEndsAtNul(st: State, line: string, rest: string, env: Env)
    requires forall k :: 0 <= k < |line| ==> line[k] != '\0'
    requires LineReadsStat(st, line) ==> Readable(env)
    ensures LineReadsStat(st, line + ['\0'] + rest) == LineReadsStat(st, line)
    ensures Handled(st, line + ['\0'] + rest, env) == Handled(st, line, env)
  {
    CStringEndsAtNul(line, rest);
    CStringWithoutNul(line);
  }

  /**
    One input line changes the registry only by launching, sends at most one
    signal and only to a tracked pid, and reads /proc only for a tracked pid.
    With pids from the kernel that are not already tracked, unique pids stay unique.
   */
  lemma HandledLine(st: State, line: string, env: Env)
    requires LineReadsStat(st, line) ==> Readable(env)
    ensures var r := Handled(st, line, env);
            && (r.registry == st.registry ||
                (env.fork > 0 && exists path :: r.registry == [ProcessRecord(env.fork, path)] + st.registry))
            && (r.signals == st.signals ||
                exists sig, pid :: Contains(st.registry, pid) && r.signals == st.signals + [Sent(pid, sig)])
            && (r.statReads == st.statReads ||
                exists pid :: Contains(st.registry, pid) && r.statReads == st.statReads + [pid])
            && (Unique(st.registry) && !Contains(st.registry, env.fork) ==> Unique(r.registry))
  {
    var argv := Slots(Words(CString(line)));
    if IsCommand(argv[0]) {
      match Decide(argv)
      case Launch(program) => {
        if env.fork > 0 && Unique(st.registry) && !Contains(st.registry, env.fork) {
          PrependUnique(st.registry, ProcessRecord(env.fork, DisplayPath(env.cwd, program)));
        }
      }
      case List =>
      case Send(sig, pid) =>
      case Report(pid) =>
      case NameRequired =>
      case IdRequired =>
      case NoAction =>
    }
  }

  /**
    One turn of `main` (reap, then one input line) keeps pids unique, as long as
    the pid `fork` returns is not already tracked after reaping.
   */
  lemma TurnKeepsUnique(st: State, waits: seq<WaitResult>, line: string, env: Env)
    requires Unique(st.registry)
    requires LineReadsStat(Reaped(st, waits), line) ==> Readable(env)
    requires !Contains(Reaped(st, waits).registry, env.fork)
    ensures Unique(Handled(Reaped(st, waits), line, env).registry)
  {
    ReapedRegistry(st, waits);
    HandledLine(Reaped(st, waits), line, env);
  }

  /** A session begins: `bg sleep` launches the program and `bglist` lists it alone. */
  lemma LaunchThenList(pid: int, env: Env)
    requires env.fork == pid && pid > 0
    ensures var s1 := Executed(State([], [], [], []), [Some("bg"), Some("sleep")], env);
            var path := DisplayPath(env.cwd, "sleep");
            && s1 == State([ProcessRecord(pid, path)], [NowExecuting(pid)], [], [])
            && Executed(s1, [Some("bglist"), None], env) ==
                 s1.(out := s1.out + [ListEntry(pid, path), ListTotal(1)])
  {
    var s0 := State([], [], [], []);
    ExecutedBg(s0, [Some("bg"), Some("sleep")], env);
    var s1 := Executed(s0, [Some("bg"), Some("sleep")], env);
    assert Executed(s1, [Some("bglist"), None], env) == Listed(s1);
  }

  /**
    A tracked child is stopped, killed and continued. A stopped process leaves
    SIGTERM pending until SIGCONT, so only after `bgstart` can `waitpid` report
    it as killed by a signal; the next reaping pass then announces it and drops
    it from the registry.
   */
  lemma KillSession(st: State, pid: int, env: Env)
    requires pid > 0 && Unique(st.registry) && Contains(st.registry, pid)
    ensures var s1 := Executed(st, [Some("bgstop"), Some(Decimal(pid))], env);
            var s2 := Executed(s1, [Some("bgkill"), Some(Decimal(pid))], env);
            var s3 := Executed(s2, [Some("bgstart"), Some(Decimal(pid))], env);
            && s2 == st.(out := st.out + [NowStopped(pid)],
                         signals := st.signals + [Sent(pid, SIGSTOP), Sent(pid, SIGTERM)])
            && s3 == s2.(out := s2.out + [Restarted(pid)], signals := s2.signals + [Sent(pid, SIGCONT)])
            && Reaped(s3, [WaitResult(pid, Signaled), WaitResult(0, Exited)]) ==
                 s3.(registry := Without(st.registry, {pid}), out := s3.out + [Terminated(pid)])
  {
    var s1 := Executed(st, [Some("bgstop"), Some(Decimal(pid))], env);
    SignalCommand(st, "bgstop", pid, env);
    assert s1 == st.(out := st.out + [NowStopped(pid)], signals := st.signals + [Sent(pid, SIGSTOP)]);
    var s2 := Executed(s1, [Some("bgkill"), Some(Decimal(pid))], env);
    SignalCommand(s1, "bgkill", pid, env);
    assert s2 == s1.(signals := s1.signals + [Sent(pid, SIGTERM)]);
    var s3 := Executed(s2, [Some("bgstart"), Some(Decimal(pid))], env);
    SignalCommand(s2, "bgstart", pid, env);
    assert s3 == s2.(out := s2.out + [Restarted(pid)], signals := s2.signals + [Sent(pid, SIGCONT)]);
    assert s3.registry == st.registry;
    ReapKilled(s3, pid);
  }

  /** A reaping pass that sees one killed child and then nothing ready announces and forgets it. */
  lemma ReapKilled(st: State, pid: int)
    requires pid > 0 && Unique(st.registry) && Contains(st.registry, pid)
    ensures Reaped(st, [WaitResult(pid, Signaled), WaitResult(0, Exited)]) ==
              st.(registry := Without(st.registry, {pid}), out := st.out + [Terminated(pid)])
  {
    var waits := [WaitResult(pid, Signaled), WaitResult(0, Exited)];
    assert waits[1..] == [WaitResult(0, Exited)];
    RemoveFirstUnique(st.registry, pid);
  }

  /** A signalling command given a printed non-zero pid signals exactly that pid. */
  lemma SignalCommand(st: State, command: string, pid: int, env: Env)
    requires command in {"bgkill", "bgstop", "bgstart"} && pid != 0
    ensures Executed(st, [Some(command), Some(Decimal(pid))], env) == Signalled(st, SignalOf(command), pid)
  {
    PrintedPidRoundTrip([Some(command), Some(Decimal(pid))], pid);
  }

  /** The slots `pstat` picks all hold the corresponding words of the stat line. */
  lemma StatFieldsPresent(words: seq<string>, slots: seq<Option<string>>)
    requires HasStatFields(words) && slots == Slots(words)
    ensures slots[COMM_FIELD] == Some(words[COMM_FIELD]) && slots[STATE_FIELD] == Some(words[STATE_FIELD])
    ensures slots[UTIME_FIELD] == Some(words[UTIME_FIELD]) && slots[STIME_FIELD] == Some(words[STIME_FIELD])
    ensures slots[RSS_FIELD] == Some(words[RSS_FIELD])
  {
  }

  // ---------------------------------------------------------------------------
  // The supervisor with its list in the heap.

  class Manager {
    /** The global `head` list of list.c. */
    const registry: Registry
    var out: seq<Out>
    ghost var signals: seq<Sent>
    ghost var statReads: seq<int>

    ghost predicate Valid()
      reads registry, registry.Repr
    {
      registry.Valid()
    }

    ghost function Abstract(): (a: State)
      reads this, registry
    {
      State(registry.Contents(), out, signals, statReads)
    }

    constructor ()
      ensures Valid() && fresh(registry) && fresh(registry.Repr)
      ensures Abstract() == State([], [], [], [])
    {
      registry := new Registry();
      out := [];
      signals := [];
      statReads := [];
    }

    /** `bg`, parent side: `fork` and `getcwd` answer from `env`; the child side is not modelled. */
    method Bg(argv: seq<Option<string>>, env: Env)
      requires Valid() && |argv| >= 2 && argv[1].Some?
      modifies this, registry
      ensures Valid() && fresh(registry.Repr - old(registry.Repr))
      ensures Abstract() == Launched(old(Abstract()), argv[1].value, env)
    {
      var pid := env.fork;
      if pid > 0 {
        var path := env.cwd;
        // The rewritten command is dropped: the child has its own copy of it.
        var command, display := FormatPath(argv[1].value, path);
        registry.AddToList(pid, display);
        out := out + [NowExecuting(pid)];
      } else if pid == 0 {
        // The child's branch (execvp, or an error message and exit) is not modelled.
      } else {
        out := out + [ForkFailed];
      }
    }

    /** `bglist`. */
    method BgList()
      requires Valid()
      modifies this
      ensures Valid() && Abstract() == Listed(old(Abstract()))
    {
      var printed := registry.PrintList();
      out := out + printed;
    }

    /** `bgkill`: SIGTERM to a tracked pid, without confirmation. */
    method BgKill(pid: int)
      requires Valid()
      modifies this
      ensures Valid() && Abstract() == Signalled(old(Abstract()), SIGTERM, pid)
    {
      var inList := registry.SearchForPid(pid);
      if inList == 1 {
        signals := signals + [Sent(pid, SIGTERM)];
      } else {
        out := out + [NoSuchProcess(pid)];
      }
    }

    /** `bgstop`: SIGSTOP to a tracked pid, with confirmation. */
    method BgStop(pid: int)
      requires Valid()
      modifies this
      ensures Valid() && Abstract() == Signalled(old(Abstract()), SIGSTOP, pid)
    {
      var inList := registry.SearchForPid(pid);
      if inList == 1 {
        signals := signals + [Sent(pid, SIGSTOP)];
        out := out + [NowStopped(pid)];
      } else {
        out := out + [NoSuchProcess(pid)];
      }
    }

    /** `bgstart`: SIGCONT to a tracked pid, with confirmation. */
    method BgStart(pid: int)
      requires Valid()
      modifies this
      ensures Valid() && Abstract() == Signalled(old(Abstract()), SIGCONT, pid)
    {
      var inList := registry.SearchForPid(pid);
      if inList == 1 {
        signals := signals + [Sent(pid, SIGCONT)];
        out := out + [Restarted(pid)];
      } else {
        out := out + [NoSuchProcess(pid)];
      }
    }

    /** `pstat`: the stat line is split like an input line (`get_stat_array`) and picked by position. */
    method Pstat(pid: int, env: Env)
      requires Valid() && (Contains(registry.Contents(), pid) ==> Readable(env))
      modifies this
      ensures Valid() && Abstract() == Reported(old(Abstract()), pid, env)
    {
      ghost var st := Abstract();
      var inList := registry.SearchForPid(pid);
      if inList == 1 {
        var statArray := Tokenize(CString(env.statLine));
        ghost var words := Words(CString(env.statLine));
        StatFieldsPresent(words, statArray);
        var lines := [StatusHeader(pid), Border,
                      Comm(statArray[COMM_FIELD].value),
                      StateField(statArray[STATE_FIELD].value),
                      Rss(Atoi(statArray[RSS_FIELD].value)),
                      UserTime(env.seconds(statArray[UTIME_FIELD].value)),
                      SystemTime(env.seconds(statArray[STIME_FIELD].value)),
                      VoluntaryCtxt(env.ctxt.0), NonvoluntaryCtxt(env.ctxt.1), Border];
        assert lines == PstatLines(pid, words, env.seconds, env.ctxt);
        out := out + lines;
        statReads := statReads + [pid];
        assert Reported(st, pid, env) == st.(statReads := st.statReads + [pid], out := st.out + lines);
      } else {
        out := out + [NoSuchProcess(pid)];
      }
    }

    /** `execute_command`. */
    method ExecuteCommand(argv: seq<Option<string>>, env: Env)
      requires Valid() && |argv| >= 2 && argv[0].Some? && (ReadsStat(Abstract(), argv) ==> Readable(env))
      modifies this, registry, registry.Repr
      ensures Valid() && fresh(registry.Repr - old(registry.Repr))
      ensures Abstract() == Executed(old(Abstract()), argv, env)
    {
      ghost var st := Abstract();
      var command := argv[0].value;
      if command == "bg" {
        ExecutedBg(st, argv, env);
        if argv[1].None? {
          out := out + [ProcessNameRequired];
        } else {
          Bg(argv, env);
        }
      }
      if command == "bglist" {
        BgList();
      }
      if command == "bgkill" {
        ExecutedPid(st, argv, env);
        if argv[1].None? {
          out := out + [ProcessIdRequired];
        } else if Atoi(argv[1].value) != 0 {
          BgKill(Atoi(argv[1].value));
        } else {
          out := out + [ProcessIdRequired];
        }
      }
      if command == "bgstop" {
        ExecutedPid(st, argv, env);
        if argv[1].None? {
          out := out + [ProcessIdRequired];
        } else if Atoi(argv[1].value) != 0 {
          BgStop(Atoi(argv[1].value));
        } else {
          out := out + [ProcessIdRequired];
        }
      }
      if command == "bgstart" {
        ExecutedPid(st, argv, env);
        if argv[1].None? {
          out := out + [ProcessIdRequired];
        } else if Atoi(argv[1].value) != 0 {
          BgStart(Atoi(argv[1].value));
        } else {
          out := out + [ProcessIdRequired];
        }
      }
      if command == "pstat" {
        ExecutedPid(st, argv, env);
        if argv[1].None? {
          out := out + [ProcessIdRequired];
        } else if Atoi(argv[1].value) != 0 {
          Pstat(Atoi(argv[1].value), env);
        } else {
          out := out + [ProcessIdRequired];
        }
      }
    }

    /** `get_user_input` once `fgets` has returned `line`. */
    method GetUserInput(line: string, env: Env)
      requires Valid() && (LineReadsStat(Abstract(), line) ==> Readable(env))
      modifies this, registry, registry.Repr
      ensures Valid() && fresh(registry.Repr - old(registry.Repr))
      ensures Abstract() == Handled(old(Abstract()), line, env)
    {
      var inputArray := Tokenize(CString(line));
      var valid := IsValidCommand(inputArray[0]);
      if valid == 1 {
        ExecuteCommand(inputArray, env);
      } else if valid == 0 && inputArray[0].Some? {
        out := out + [InvalidCommand];
      }
    }

    /** `child_process_status`: `waitpid` answers are taken from `waits`, in order. */
    method ChildProcessStatus(waits: seq<WaitResult>)
      requires Valid()
      modifies this, registry, registry.Repr
      ensures Valid() && registry.Repr == old(registry.Repr)
      ensures Abstract() == Reaped(old(Abstract()), waits)
    {
      var i := 0;
      while i < |waits|
        invariant 0 <= i <= |waits| && Valid() && registry.Repr == old(registry.Repr)
        invariant Reaped(old(Abstract()), waits) == Reaped(Abstract(), waits[i..])
      {
        var w := waits[i];
        ReapedFrom(Abstract(), waits, i);
        if w.wpid > 0 {
          ReapChild(w);
        } else {
          break;
        }
        i := i + 1;
      }
      ReapedFrom(Abstract(), waits, i);
    }

    /** The body of `child_process_status` for a reported child: announce it if it was signalled, then remove it. */
    method ReapChild(w: WaitResult)
      requires Valid()
      modifies this, registry, registry.Repr
      ensures Valid() && registry.Repr == old(registry.Repr)
      ensures Abstract() == Removed(Noted(old(Abstract()), w), w.wpid)
    {
      ghost var mid := Noted(Abstract(), w);
      if w.how == Exited {
        var printed := registry.RemoveFromList(w.wpid);
        out := out + printed;
      } else if w.how == Signaled {
        out := out + [Terminated(w.wpid)];
        assert out == mid.out && registry.Contents() == mid.registry;
        var printed := registry.RemoveFromList(w.wpid);
        out := out + printed;
      }
      assert Abstract() == mid.(registry := RemoveFirst(mid.registry, w.wpid),
                                out := mid.out + RemovalOutput(mid.registry, w.wpid));
    }

    /** One turn of the loop in `main`: reap, then read and run one command. */
    method Cycle(waits: seq<WaitResult>, line: string, env: Env)
      requires Valid() && (LineReadsStat(Reaped(Abstract(), waits), line) ==> Readable(env))
      modifies this, registry, registry.Repr
      ensures Valid() && fresh(registry.Repr - old(registry.Repr))
      ensures Abstract() == Handled(Reaped(old(Abstract()), waits), line, env)
    {
      ChildProcessStatus(waits);
      GetUserInput(line, env);
    }
  }
}
