/**
  Splitting a line into words, as `get_user_input` and `get_stat_array` do: repeated
  calls of `strtok` (section 7.24.5.8 of ISO C11) over the delimiter set WHITESPACE,
  storing the first MAX_ARGS results (NULL once the words run out) into an array.
 */
module Tokenizer {
  import opened Util

  /** The delimiter set passed to every `strtok` call. */
  const WHITESPACE: string := " \t\n\U{000C}\r\U{000B}"

  /** Number of slots in `input_array` and `stat_array`. */
  const MAX_ARGS: nat := 100

  /** Membership in WHITESPACE, written out character by character. */
  predicate IsDelimiter(c: char) {
    c == ' ' || c == '\t' || c == '\n' || c == '\U{000C}' || c == '\r' || c == '\U{000B}'
  }

  lemma DelimiterIsWhitespace(c: char)
    ensures IsDelimiter(c) <==> c in WHITESPACE
  {
    if !IsDelimiter(c) {
      assert forall k :: 0 <= k < |WHITESPACE| ==> WHITESPACE[k] != c;
    }
  }

  // ---------------------------------------------------------------------------
  // Reference definition: the words of a line are its maximal runs of
  // non-delimiter characters, in order.

  /** Length of the longest delimiter-free prefix. */
  function RunLength(s: string): (n: nat)
    ensures n <= |s|
    ensures forall k :: 0 <= k < n ==> !IsDelimiter(s[k])
    ensures n < |s| ==> IsDelimiter(s[n])
  {
    if s != [] && !IsDelimiter(s[0]) then 1 + RunLength(s[1..]) else 0
  }

  function Words(s: string): (ws: seq<string>)
    decreases |s|
  {
    if s == [] then []
    else if IsDelimiter(s[0]) then Words(s[1..])
    else
      var n := RunLength(s);
      [s[..n]] + Words(s[n..])
  }

  /** Slot `i` of the array filled by the tokenizing loop. */
  function Slot(words: seq<string>, i: nat): (slot: Option<string>) {
    if i < |words| then Some(words[i]) else None
  }

  /** The whole array: the first MAX_ARGS words, then NULL. */
  function Slots(words: seq<string>): (slots: seq<Option<string>>)
    ensures |slots| == MAX_ARGS && forall i :: 0 <= i < MAX_ARGS ==> slots[i] == Slot(words, i)
  {
    seq(MAX_ARGS, i requires 0 <= i < MAX_ARGS => Slot(words, i))
  }

  // ---------------------------------------------------------------------------
  // The C string in a buffer: what `strtok` scans.

  /**
    The characters before the first NUL. `fgets` stores every character it reads,
    NUL included, but `strtok` and `strcmp` stop at the first NUL.
   */
  function CString(buf: string): (s: string)
    ensures |s| <= |buf| && s == buf[..|s|]
    ensures forall k :: 0 <= k < |s| ==> s[k] != '\0'
    ensures |s| < |buf| ==> buf[|s|] == '\0'
    decreases |buf|
  {
    if buf == [] || buf[0] == '\0' then [] else [buf[0]] + CString(buf[1..])
  }

  /** Whatever follows a NUL is never seen. */
  lemma {:induction false} CStringEndsAtNul(s: string, rest: string)
    requires forall k :: 0 <= k < |s| ==> s[k] != '\0'
    ensures CString(s + ['\0'] + rest) == s
    decreases |s|
  {
    if s != [] {
      assert (s + ['\0'] + rest)[1..] == s[1..] + ['\0'] + rest;
      CStringEndsAtNul(s[1..], rest);
    }
  }

  /** The words of "bglist", a NUL and anything else: the command alone. */
  lemma NulEndsWords(rest: string)
    ensures Words(CString("bglist" + ['\0'] + rest)) == ["bglist"]
  {
    var line := "bglist";
    CStringEndsAtNul(line, rest);
    assert forall k :: 0 <= k < |line| ==> !IsDelimiter(line[k]) by {
      forall k | 0 <= k < |line| ensures !IsDelimiter(line[k]) {
        assert 'a' <= line[k] <= 't';
      }
    }
    SingleWord(line);
  }

  /** A buffer without NUL holds itself as its C string. */
  lemma {:induction false} CStringWithoutNul(s: string)
    requires forall k :: 0 <= k < |s| ==> s[k] != '\0'
    ensures CString(s) == s
    decreases |s|
  {
    if s != [] {
      CStringWithoutNul(s[1..]);
    }
  }

  // ---------------------------------------------------------------------------
  // The library routine: one `strtok` call continuing at position `p`.

  /** First position at or after `p` that holds no delimiter (or the end). */
  function SkipDelimiters(s: string, p: nat): (q: nat)
    requires p <= |s|
    ensures p <= q <= |s|
    ensures forall k :: p <= k < q ==> IsDelimiter(s[k])
    ensures q < |s| ==> !IsDelimiter(s[q])
    decreases |s| - p
  {
    if p < |s| && IsDelimiter(s[p]) then SkipDelimiters(s, p + 1) else p
  }

  /** First position at or after `p` that holds a delimiter (or the end). */
  function TokenEnd(s: string, p: nat): (q: nat)
    requires p <= |s|
    ensures p <= q <= |s|
    ensures forall k :: p <= k < q ==> !IsDelimiter(s[k])
    ensures q < |s| ==> IsDelimiter(s[q])
    decreases |s| - p
  {
    if p < |s| && !IsDelimiter(s[p]) then TokenEnd(s, p + 1) else p
  }

  /**
    `strtok` with its saved position `p`: skip delimiters; at the end of the string
    return NULL and stay there; otherwise return the run up to the next delimiter,
    overwrite that delimiter with NUL and continue after it.
   */
  function Strtok(s: string, p: nat): (r: (Option<string>, nat))
    requires p <= |s|
    ensures p <= r.1 <= |s|
    ensures r.0.None? <==> forall k :: p <= k < |s| ==> IsDelimiter(s[k])
    ensures r.0.None? ==> r.1 == |s|
    ensures r.0.Some? ==> |r.0.value| > 0 && forall k :: 0 <= k < |r.0.value| ==> !IsDelimiter(r.0.value[k])
  {
    var a := SkipDelimiters(s, p);
    if a == |s| then (None, |s|)
    else
      var b := TokenEnd(s, a);
      (Some(s[a..b]), if b < |s| then b + 1 else b)
  }

  // ---------------------------------------------------------------------------
  // Lemmas connecting the two.

  lemma {:induction false} WordsSkipDelimiters(s: string, p: nat)
    requires p <= |s|
    ensures Words(s[p..]) == Words(s[SkipDelimiters(s, p)..])
    decreases |s| - p
  {
    if p < |s| && IsDelimiter(s[p]) {
      assert s[p..][1..] == s[p + 1..];
      WordsSkipDelimiters(s, p + 1);
    }
  }

  lemma {:induction false} RunLengthIsTokenEnd(s: string, a: nat)
    requires a <= |s|
    ensures RunLength(s[a..]) == TokenEnd(s, a) - a
    decreases |s| - a
  {
    if a < |s| && !IsDelimiter(s[a]) {
      assert s[a..][1..] == s[a + 1..];
      RunLengthIsTokenEnd(s, a + 1);
    }
  }

  /** Slicing a suffix again is slicing the line. */
  lemma SliceOfSuffix(s: string, a: nat, n: nat)
    requires a + n <= |s|
    ensures s[a..][..n] == s[a..a + n] && s[a..][n..] == s[a + n..]
  {
  }

  /** The first word of a line that starts with a non-delimiter. */
  lemma WordsHead(t: string)
    requires t != [] && !IsDelimiter(t[0])
    ensures Words(t) == [t[..RunLength(t)]] + Words(t[RunLength(t)..])
  {
  }

  /** The words of a suffix that starts with a non-delimiter: the run up to `TokenEnd`, then the rest. */
  lemma WordsAtToken(s: string, a: nat)
    requires a < |s| && !IsDelimiter(s[a])
    ensures Words(s[a..]) == [s[a..TokenEnd(s, a)]] + Words(s[TokenEnd(s, a)..])
  {
    var t, b := s[a..], TokenEnd(s, a);
    RunLengthIsTokenEnd(s, a);
    var n := RunLength(t);
    WordsHead(t);
    SliceOfSuffix(s, a, n);
    assert Words(t) == [t[..n]] + Words(t[n..]);
    assert t[..n] == s[a..b] && t[n..] == s[b..];
  }

  /** A delimiter at the head of a suffix contributes no word. */
  lemma WordsAtDelimiter(s: string, b: nat)
    requires b < |s| && IsDelimiter(s[b])
    ensures Words(s[b..]) == Words(s[b + 1..])
  {
    assert s[b..][1..] == s[b + 1..];
  }

  /** One `strtok` call yields the next word of the line, or NULL exactly when none is left. */
  lemma StrtokNextWord(s: string, p: nat)
    requires p <= |s|
    ensures Strtok(s, p).0.None? ==> Words(s[p..]) == []
    ensures Strtok(s, p).0.Some? ==> Words(s[p..]) == [Strtok(s, p).0.value] + Words(s[Strtok(s, p).1..])
  {
    var r := Strtok(s, p);
    var a := SkipDelimiters(s, p);
    WordsSkipDelimiters(s, p);
    if a == |s| {
      assert r.0.None?;
      assert s[a..] == [];
    } else {
      var b := TokenEnd(s, a);
      assert r == (Some(s[a..b]), if b < |s| then b + 1 else b);
      WordsAtToken(s, a);
      if b < |s| {
        WordsAtDelimiter(s, b);
      }
    }
  }

  /** Where the loop of `Tokenize` stands before storing slot `i`: `token` is that slot and `pos` the saved position. */
  ghost predicate TokenizerAt(line: string, i: nat, token: Option<string>, pos: nat) {
    pos <= |line| && token == Slot(Words(line), i) &&
    Words(line[pos..]) == if i < |Words(line)| then Words(line)[i + 1..] else []
  }

  lemma TokenizerStart(line: string)
    ensures TokenizerAt(line, 0, Strtok(line, 0).0, Strtok(line, 0).1)
  {
    StrtokNextWord(line, 0);
    assert line[0..] == line;
  }

  lemma TokenizerStep(line: string, i: nat, token: Option<string>, pos: nat)
    requires TokenizerAt(line, i, token, pos)
    ensures TokenizerAt(line, i + 1, Strtok(line, pos).0, Strtok(line, pos).1)
  {
    var words := Words(line);
    StrtokNextWord(line, pos);
    var next := Strtok(line, pos);
    if next.0.None? {
      assert next.1 == |line|;
      assert line[|line|..] == [];
    } else {
      assert i + 1 < |words|;
      assert words[i + 1..] == [next.0.value] + Words(line[next.1..]);
      assert words[i + 1..][1..] == words[i + 2..];
    }
  }

  /** The state of the loop of `Tokenize` before storing slot `i`: the first `i` slots are filled in. */
  ghost predicate FilledTo(line: string, i: nat, slots: seq<Option<string>>, token: Option<string>, pos: nat) {
    |slots| == i && (forall k :: 0 <= k < i ==> slots[k] == Slot(Words(line), k)) && TokenizerAt(line, i, token, pos)
  }

  lemma FilledStep(line: string, i: nat, slots: seq<Option<string>>, token: Option<string>, pos: nat)
    requires FilledTo(line, i, slots, token, pos)
    ensures FilledTo(line, i + 1, slots + [token], Strtok(line, pos).0, Strtok(line, pos).1)
  {
    TokenizerStep(line, i, token, pos);
  }

  lemma FilledAll(line: string, slots: seq<Option<string>>, token: Option<string>, pos: nat)
    requires FilledTo(line, MAX_ARGS, slots, token, pos)
    ensures slots == Slots(Words(line))
  {
  }

  /**
    The loop of `get_user_input` (and of `get_stat_array`): call `strtok` and store
    its result MAX_ARGS times, so slot `i` holds the `i`-th word or NULL.
   */
  method Tokenize(line: string) returns (slots: seq<Option<string>>)
    ensures slots == Slots(Words(line))
  {
    TokenizerStart(line);
    var first := Strtok(line, 0);
    var token: Option<string>, pos: nat := first.0, first.1;
    slots := [];
    var i := 0;
    while i < MAX_ARGS
      invariant i <= MAX_ARGS && FilledTo(line, i, slots, token, pos)
    {
      FilledStep(line, i, slots, token, pos);
      slots := slots + [token];
      var next := Strtok(line, pos);
      token, pos := next.0, next.1;
      i := i + 1;
    }
    FilledAll(line, slots, token, pos);
  }

  // ---------------------------------------------------------------------------
  // Properties of the words of a line.

  /** Every word is non-empty and contains no delimiter. */
  lemma {:induction false} WordsAreRuns(s: string)
    ensures forall w :: w in Words(s) ==> |w| > 0 && forall k :: 0 <= k < |w| ==> !IsDelimiter(w[k])
    decreases |s|
  {
    if s != [] {
      if IsDelimiter(s[0]) {
        WordsAreRuns(s[1..]);
      } else {
        WordsAreRuns(s[RunLength(s)..]);
      }
    }
  }

  /** A line has no words exactly when it consists of delimiters only (a blank line). */
  lemma {:induction false} BlankLine(s: string)
    ensures Words(s) == [] <==> forall k :: 0 <= k < |s| ==> IsDelimiter(s[k])
    decreases |s|
  {
    if s != [] {
      if IsDelimiter(s[0]) {
        BlankLine(s[1..]);
        assert forall k :: 1 <= k < |s| ==> s[k] == s[1..][k - 1];
      }
    }
  }

  /** A delimiter separates words: the words of `a + [d] + b` are those of `a` then those of `b`. */
  lemma {:induction false} WordsSplit(a: string, d: char, b: string)
    requires IsDelimiter(d)
    ensures Words(a + [d] + b) == Words(a) + Words(b)
    decreases |a|
  {
    var s := a + [d] + b;
    if a == [] {
      assert s[1..] == b;
    } else if IsDelimiter(a[0]) {
      assert s[1..] == a[1..] + [d] + b;
      WordsSplit(a[1..], d, b);
    } else {
      var m := RunLength(a);
      var rest := [d] + b;
      assert s == a + rest;
      WordsPrefixRun(a, rest, m);
      if m < |a| {
        WordsSplit(a[m..], d, b);
        assert a[m..] + rest == a[m..] + [d] + b;
        assert Words(s) == [a[..m]] + (Words(a[m..]) + Words(b));
      } else {
        assert rest[1..] == b;
      }
    }
  }

  /**
    The first word of `a + rest`, when `a` starts with a word and `rest` with a
    delimiter, is the first word of `a`; what follows it in both is the same.
   */
  lemma WordsPrefixRun(a: string, rest: string, m: nat)
    requires a != [] && !IsDelimiter(a[0]) && rest != [] && IsDelimiter(rest[0]) && m == RunLength(a)
    ensures Words(a + rest) == [a[..m]] + Words(a[m..] + rest)
    ensures Words(a) == [a[..m]] + Words(a[m..])
    ensures m == |a| ==> Words(a) == [a] && Words(a[m..] + rest) == Words(rest)
  {
    RunLengthPrefix(a, rest);
    WordsHead(a + rest);
    WordsHead(a);
    SplitSlices(a, rest, m);
  }

  /** Cutting `a + rest` at a point inside `a`. */
  lemma SplitSlices(a: string, rest: string, m: nat)
    requires m <= |a|
    ensures (a + rest)[..m] == a[..m] && (a + rest)[m..] == a[m..] + rest
    ensures m == |a| ==> a[..m] == a && a[m..] == [] && (a + rest)[m..] == rest
  {
  }

  /** A delimiter-free prefix run does not cross into a part that starts with a delimiter. */
  lemma {:induction false} RunLengthPrefix(a: string, rest: string)
    requires rest != [] && IsDelimiter(rest[0])
    ensures RunLength(a + rest) == RunLength(a)
    decreases |a|
  {
    if a == [] {
      assert a + rest == rest;
    } else if !IsDelimiter(a[0]) {
      assert (a + rest)[1..] == a[1..] + rest;
      RunLengthPrefix(a[1..], rest);
    }
  }

  /** A non-empty delimiter-free string is a single word. */
  lemma SingleWord(w: string)
    requires |w| > 0 && forall k :: 0 <= k < |w| ==> !IsDelimiter(w[k])
    ensures Words(w) == [w]
  {
    RunLengthAll(w);
    assert w[..|w|] == w;
    assert w[|w|..] == [];
  }

  lemma {:induction false} RunLengthAll(w: string)
    requires forall k :: 0 <= k < |w| ==> !IsDelimiter(w[k])
    ensures RunLength(w) == |w|
    decreases |w|
  {
    if w != [] {
      RunLengthAll(w[1..]);
    }
  }
}
