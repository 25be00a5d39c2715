/** Splitting a text into lines, as Python's splitlines does, and joining lines with newlines. */
module Lines {
  /** The characters that end a line. */
  predicate IsBreak(c: char) {
    || '\n' <= c <= '\r'
    || '\U{1c}' <= c <= '\U{1e}'
    || c == '\U{85}' || c == '\U{2028}' || c == '\U{2029}'
  }

  ghost predicate Breakless(s: string) {
    forall i :: 0 <= i < |s| ==> !IsBreak(s[i])
  }

  /** The index of the first line break, or the length if there is none. */
  function LineEnd(s: string): (n: nat)
    ensures n <= |s|
    ensures n < |s| ==> IsBreak(s[n])
  {
    if s == [] || IsBreak(s[0]) then 0 else 1 + LineEnd(s[1..])
  }

  /** The length of the line break at `n`: a carriage return and newline count as one. */
  function BreakSize(s: string, n: nat): (k: nat)
    requires n < |s|
    ensures 1 <= k && n + k <= |s|
  {
    if s[n] == '\r' && n + 1 < |s| && s[n + 1] == '\n' then 2 else 1
  }

  function SplitLines(s: string): seq<string> {
    if s == [] then []
    else
      var n := LineEnd(s);
      if n == |s| then [s] else [s[..n]] + SplitLines(s[n + BreakSize(s, n)..])
  }

  function Join(lines: seq<string>): string {
    if lines == [] then ""
    else if |lines| == 1 then lines[0]
    else lines[0] + "\n" + Join(lines[1..])
  }

  lemma {:induction false} LineEndIs(s: string, n: nat)
    requires n <= |s| && Breakless(s[..n]) && (n < |s| ==> IsBreak(s[n]))
    ensures LineEnd(s) == n
    decreases n
  {
    if n > 0 {
      assert s[..n][0] == s[0];
      var rest := s[1..][..n - 1];
      forall i | 0 <= i < n - 1 ensures !IsBreak(rest[i]) {
        assert s[..n][i + 1] == rest[i];
      }
      LineEndIs(s[1..], n - 1);
    }
  }

  lemma {:induction false} BeforeLineEnd(s: string)
    ensures Breakless(s[..LineEnd(s)])
  {
    if s != [] && !IsBreak(s[0]) {
      BeforeLineEnd(s[1..]);
      var n := LineEnd(s);
      forall i | 0 <= i < n ensures !IsBreak(s[..n][i]) {
        assert i > 0 ==> s[i] == s[1..][..n - 1][i - 1];
      }
    }
  }

  lemma {:induction false} SplitIsBreakless(s: string)
    ensures forall i :: 0 <= i < |SplitLines(s)| ==> Breakless(SplitLines(s)[i])
    decreases |s|
  {
    if s != [] {
      BeforeLineEnd(s);
      var n := LineEnd(s);
      if n == |s| {
        assert s[..n] == s;
      } else {
        SplitIsBreakless(s[n + BreakSize(s, n)..]);
      }
    }
  }

  lemma SplitFirst(line: string, rest: string)
    requires Breakless(line)
    ensures SplitLines(line + "\n" + rest) == [line] + SplitLines(rest)
  {
    var s := line + "\n" + rest;
    assert s[..|line|] == line;
    LineEndIs(s, |line|);
    assert s[|line| + 1..] == rest;
  }

  lemma SplitOnly(line: string)
    requires Breakless(line) && line != ""
    ensures SplitLines(line) == [line]
  {
    assert line[..|line|] == line;
    LineEndIs(line, |line|);
  }

  /** Splitting undoes joining, for lines without breaks of which the last is not empty. */
  lemma {:induction false} SplitJoin(lines: seq<string>)
    requires forall i :: 0 <= i < |lines| ==> Breakless(lines[i])
    requires lines != [] ==> lines[|lines| - 1] != ""
    ensures SplitLines(Join(lines)) == lines
  {
    if |lines| == 1 {
      SplitOnly(lines[0]);
    } else if lines != [] {
      SplitJoin(lines[1..]);
      SplitFirst(lines[0], Join(lines[1..]));
    }
  }

  lemma {:induction false} JoinLast(lines: seq<string>, last: string)
    requires lines != []
    ensures Join(lines + [last]) == Join(lines) + "\n" + last
  {
    if |lines| == 1 {
      assert (lines + [last])[1..] == [last];
    } else {
      JoinLast(lines[1..], last);
      assert (lines + [last])[1..] == lines[1..] + [last];
    }
  }
}
