/**
  The report of `pstat` (pman.c): fields picked by position from the words of the
  first line of /proc/[pid]/stat. Positions are 0-based; the proc(5) manual numbers
  the same fields from 1: (2) comm, (3) state, (14) utime, (15) stime, (24) rss.
 */
module ProcStat {
  import opened Numbers
  import opened Output

  const COMM_FIELD: nat := 1
  const STATE_FIELD: nat := 2
  const UTIME_FIELD: nat := 13
  const STIME_FIELD: nat := 14
  const RSS_FIELD: nat := 23

  /** The stat line has every field `pstat` prints. */
  predicate HasStatFields(fields: seq<string>) {
    |fields| > RSS_FIELD
  }

  /**
    The lines `pstat` prints for a tracked pid. `seconds` stands for `get_time`
    followed by `%f` (a tick count divided by the clock-tick rate, in floating
    point); `ctxt` holds the two characters at offsets 39 and 40 of the status
    buffer, printed as context-switch counts. `fgets` fills that buffer with the
    first line of /proc/[pid]/status only, which is usually shorter, so the two
    values are unconstrained.
   */
  function PstatLines(pid: int, fields: seq<string>, seconds: string -> string, ctxt: (int, int)): (lines: seq<Out>)
    requires HasStatFields(fields)
  {
    [StatusHeader(pid), Border,
     Comm(fields[COMM_FIELD]),
     StateField(fields[STATE_FIELD]),
     Rss(Atoi(fields[RSS_FIELD])),
     UserTime(seconds(fields[UTIME_FIELD])),
     SystemTime(seconds(fields[STIME_FIELD])),
     VoluntaryCtxt(ctxt.0),
     NonvoluntaryCtxt(ctxt.1),
     Border]
  }
}
