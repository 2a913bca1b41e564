/** `format_path` (pman.c): the display path stored for a launched process. */
module Paths {

  /** The command is written relative to the working directory, as in `./inf`. */
  predicate HasDotSlash(command: string) {
    |command| >= 2 && command[0] == '.' && command[1] == '/'
  }

  /** The display path: the working directory, a separator, then the command without a leading "./". */
  function DisplayPath(cwd: string, command: string): (d: string) {
    cwd + "/" + (if HasDotSlash(command) then command[2..] else command)
  }

  /**
    `format_path(command, path)`, with `path` holding the working directory. In the
    "./" case the characters after the '.' are copied one by one into a buffer that
    then replaces `command` (the C loop also copies the terminating NUL, which a
    Dafny string does not have); otherwise a separator is appended to `path`. Either
    way `command` is appended to `path`. Returns the new `command` and the new `path`.
   */
  method FormatPath(command: string, path: string) returns (command': string, path': string)
    ensures path' == DisplayPath(path, command)
    ensures command' == if HasDotSlash(command) then command[1..] else command
  {
    path' := path;
    if |command| >= 2 && command[0] == '.' && command[1] == '/' {
      var formatted := new char[|command| - 1];
      var i, j := 0, 1;
      while j < |command|
        invariant 1 <= j <= |command| && i == j - 1
        invariant forall k :: 0 <= k < i ==> formatted[k] == command[k + 1]
      {
        formatted[i] := command[j];
        i := i + 1;
        j := j + 1;
      }
      command' := formatted[..];
      assert command' == command[1..];
    } else {
      command' := command;
      path' := path' + "/";
    }
    path' := path' + command';
    assert HasDotSlash(command) ==> command[1..] == "/" + command[2..];
  }

  /** Launching `./prog` and launching `prog` (found on the search path) display the same path. */
  lemma DotSlashSameDisplay(cwd: string, s: string)
    requires !HasDotSlash(s)
    ensures DisplayPath(cwd, "./" + s) == DisplayPath(cwd, s)
  {
    assert ("./" + s)[2..] == s;
  }

  /** The display path always starts with the working directory and a separator. */
  lemma DisplayPathShape(cwd: string, command: string)
    ensures var d := DisplayPath(cwd, command);
            |d| > |cwd| && d[..|cwd|] == cwd && d[|cwd|] == '/'
  {
  }
}
