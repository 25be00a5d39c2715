/**
 Compression of a long log: the first and last lines and the surroundings of error lines are
 kept, and each run of other lines is replaced by a marker with the length of the run.

 `Reads` says what a compressed log means, by reading it back over the original lines.
 */
module LogCompression {
  import opened Lines
  import opened Text

  const ERROR_MARKERS: seq<string> := [
    "error", "failed", "traceback", "exception", "syntaxerror",
    "assertionerror", "fail:", "fatal:", "panic:", "err:"
  ]

  predicate IsError(line: string) {
    exists m :: m in ERROR_MARKERS && Contains(Lower(line), m)
  }

  /** An error line holds a marker, in any case. */
  lemma IsErrorMeans(line: string)
    ensures IsError(line) <==>
      exists front: string, m: string, back: string :: Lower(line) == front + m + back && m in ERROR_MARKERS
  {
    forall m ensures Contains(Lower(line), m) <==> exists front: string, back: string :: Lower(line) == front + m + back
    {
      ContainsIff(Lower(line), m);
    }
  }

  /** Line `i` is within the context of the error line `j`. */
  predicate Around(i: int, j: int) {
    j - 2 <= i < j + 5
  }

  predicate NearError(lines: seq<string>, i: nat) {
    exists j :: 0 <= j < |lines| && Around(i, j) && IsError(lines[j])
  }

  predicate Important(lines: seq<string>, i: nat) {
    i < 3 || i + 5 >= |lines| || NearError(lines, i)
  }

  datatype Entry = Line(text: string) | Gap(count: nat)

  function Render(e: Entry): string {
    match e
    case Line(text) => text
    case Gap(count) => "... [" + Decimal(count) + " lines of logs/passes collapsed] ..."
  }

  function RenderAll(entries: seq<Entry>): (r: seq<string>)
    ensures |r| == |entries| && forall i :: 0 <= i < |r| ==> r[i] == Render(entries[i])
  {
    seq(|entries|, i requires 0 <= i < |entries| => Render(entries[i]))
  }

  /**
   Reading the entries moves from line `from` to line `to`: a line entry is the next line, which
   is important, and a gap stands for its count of lines, none of them important, before a line entry.
   */
  ghost predicate Reads(entries: seq<Entry>, lines: seq<string>, from: nat, to: nat) {
    if entries == [] then from == to <= |lines|
    else
      match entries[0]
      case Line(text) =>
        && from < to <= |lines| && Important(lines, from) && text == lines[from]
        && Reads(entries[1..], lines, from + 1, to)
      case Gap(count) =>
        && count > 0 && Unimportant(lines, from, from + count)
        && |entries| > 1 && entries[1].Line?
        && Reads(entries[1..], lines, from + count, to)
  }

  ghost predicate Unimportant(lines: seq<string>, from: nat, to: nat) {
    forall i :: from <= i < to ==> !Important(lines, i)
  }

  // ---------- What a compressed log tells ----------

  lemma {:induction false} ReadsForward(entries: seq<Entry>, lines: seq<string>, from: nat, to: nat)
    requires Reads(entries, lines, from, to)
    ensures from <= to <= |lines| && (entries != [] ==> from < to)
    decreases |entries|
  {
    if entries != [] {
      ReadsForward(entries[1..], lines, from + if entries[0].Line? then 1 else entries[0].count, to);
    }
  }

  /** The compressed log is determined: there is one way to write the lines from `from` to `to`. */
  lemma {:induction false} CompressedIsUnique(a: seq<Entry>, b: seq<Entry>, lines: seq<string>, from: nat, to: nat)
    requires Reads(a, lines, from, to) && Reads(b, lines, from, to)
    ensures a == b
    decreases |a|
  {
    ReadsForward(a, lines, from, to);
    ReadsForward(b, lines, from, to);
    if a != [] {
      SameHead(a, b, lines, from, to);
      CompressedIsUnique(a[1..], b[1..], lines, from + if a[0].Line? then 1 else a[0].count, to);
    }
  }

  lemma SameHead(a: seq<Entry>, b: seq<Entry>, lines: seq<string>, from: nat, to: nat)
    requires Reads(a, lines, from, to) && Reads(b, lines, from, to) && a != [] && b != []
    ensures a[0] == b[0]
  {
    if a[0].Gap? && b[0].Gap? {
      assert Important(lines, from + a[0].count) && Important(lines, from + b[0].count);
      hide Important;
      assert a[0].count == b[0].count;
    }
  }

  /** The original numbers of the lines that are kept, read off the entries alone. */
  function LineNumbers(entries: seq<Entry>, from: nat): seq<nat> {
    if entries == [] then []
    else
      match entries[0]
      case Line(_) => [from] + LineNumbers(entries[1..], from + 1)
      case Gap(count) => LineNumbers(entries[1..], from + count)
  }

  /** The line numbers are recoverable: exactly the important lines are kept, under their own numbers. */
  lemma {:induction false} KeptIffImportant(entries: seq<Entry>, lines: seq<string>, from: nat, to: nat, i: nat)
    requires Reads(entries, lines, from, to)
    ensures i in LineNumbers(entries, from) <==> from <= i < to && Important(lines, i)
    decreases |entries|
  {
    hide NearError;
    if entries != [] {
      var next := from + if entries[0].Line? then 1 else entries[0].count;
      ReadsForward(entries[1..], lines, next, to);
      KeptIffImportant(entries[1..], lines, next, to, i);
    }
  }

  /**
   Which lines of a compressed log are kept: the first three, the last five, and every line from two
   before to four after a line with an error marker.
   */
  lemma KeptMeans(entries: seq<Entry>, lines: seq<string>, i: nat)
    requires Reads(entries, lines, 0, |lines|)
    ensures i in LineNumbers(entries, 0) <==>
      && i < |lines|
      && (i < 3 || |lines| - i <= 5 || exists j :: 0 <= j < |lines| && i - 4 <= j <= i + 2 && IsError(lines[j]))
  {
    hide IsError, Reads, LineNumbers;
    KeptIffImportant(entries, lines, 0, |lines|, i);
    assert forall j :: Around(i, j) <==> i - 4 <= j <= i + 2;
  }

  function Kept(entries: seq<Entry>): (r: seq<string>) {
    if entries == [] then []
    else if entries[0].Line? then [entries[0].text] + Kept(entries[1..])
    else Kept(entries[1..])
  }

  /** `numbers` ascend within `from` to `to`, and `texts` are the lines they number. */
  ghost predicate Numbered(numbers: seq<nat>, texts: seq<string>, lines: seq<string>, from: nat, to: nat) {
    && |numbers| == |texts|
    && (forall k :: 0 <= k < |numbers| ==> from <= numbers[k] < to <= |lines| && texts[k] == lines[numbers[k]])
    && forall j, k :: 0 <= j < k < |numbers| ==> numbers[j] < numbers[k]
  }

  lemma NumberedNext(numbers: seq<nat>, texts: seq<string>, lines: seq<string>, from: nat, to: nat)
    requires Numbered(numbers, texts, lines, from + 1, to) && from < to <= |lines|
    ensures Numbered([from] + numbers, [lines[from]] + texts, lines, from, to)
  {
  }

  /** Kept lines are in their order, each with the text it had. */
  lemma {:induction false} KeptInOrder(entries: seq<Entry>, lines: seq<string>, from: nat, to: nat)
    requires Reads(entries, lines, from, to)
    ensures Numbered(LineNumbers(entries, from), Kept(entries), lines, from, to)
    decreases |entries|
  {
    hide Important, Unimportant;
    if entries != [] {
      var next := from + if entries[0].Line? then 1 else entries[0].count;
      ReadsForward(entries[1..], lines, next, to);
      KeptInOrder(entries[1..], lines, next, to);
      if entries[0].Line? {
        hide Numbered;
        NumberedNext(LineNumbers(entries[1..], next), Kept(entries[1..]), lines, from, to);
      }
    }
  }

  function Span(entries: seq<Entry>): nat {
    if entries == [] then 0
    else (if entries[0].Line? then 1 else entries[0].count) + Span(entries[1..])
  }

  /** Kept lines and gap counts together account for every line, and there are never more entries than lines. */
  lemma {:induction false} EveryLineIsCounted(entries: seq<Entry>, lines: seq<string>, from: nat, to: nat)
    requires Reads(entries, lines, from, to)
    ensures from + Span(entries) == to
    ensures |entries| <= to - from
    decreases |entries|
  {
    if entries != [] {
      EveryLineIsCounted(entries[1..], lines, from + if entries[0].Line? then 1 else entries[0].count, to);
    }
  }

  /** The entries that lines `from` to `to` need: one for each important line, and one for each run of others. */
  ghost function Needed(lines: seq<string>, from: nat, to: nat): nat
    decreases to - from
  {
    if from >= to then 0
    else if Important(lines, from) then 1 + Needed(lines, from + 1, to)
    else (if from + 1 == to || Important(lines, from + 1) then 1 else 0) + Needed(lines, from + 1, to)
  }

  lemma {:induction false} NeededForGap(lines: seq<string>, from: nat, mid: nat, to: nat)
    requires from < mid < to && Unimportant(lines, from, mid) && Important(lines, mid)
    ensures Needed(lines, from, to) == 1 + Needed(lines, mid, to)
    decreases mid - from
  {
    if from + 1 < mid {
      assert !Important(lines, from + 1) && !Important(lines, from);
      hide Important;
      NeededForGap(lines, from + 1, mid, to);
    }
  }

  /** The exact length of a compressed log. */
  lemma {:induction false} CompressedLength(entries: seq<Entry>, lines: seq<string>, from: nat, to: nat)
    requires Reads(entries, lines, from, to)
    ensures |entries| == Needed(lines, from, to)
    decreases |entries|
  {
    if entries != [] {
      var next := from + if entries[0].Line? then 1 else entries[0].count;
      CompressedLength(entries[1..], lines, next, to);
      ReadsForward(entries[1..], lines, next, to);
      hide Important;
      if entries[0].Gap? {
        NeededForGap(lines, from, next, to);
      }
    }
  }

  lemma {:induction false} AllImportantKept(entries: seq<Entry>, lines: seq<string>, from: nat)
    requires forall i :: 0 <= i < |lines| ==> Important(lines, i)
    requires Reads(entries, lines, from, |lines|)
    ensures from <= |lines| && RenderAll(entries) == lines[from..]
    decreases |entries|
  {
    hide Important;
    ReadsForward(entries, lines, from, |lines|);
    if entries != [] {
      assert Important(lines, from);
      AllImportantKept(entries[1..], lines, from + 1);
      assert RenderAll(entries) == [lines[from]] + RenderAll(entries[1..]);
    }
  }

  /** `max_lines` does not bound the result: a log of any length whose lines are all errors is kept whole. */
  lemma ErrorsAreAllKept(entries: seq<Entry>, lines: seq<string>)
    requires forall j :: 0 <= j < |lines| ==> IsError(lines[j])
    requires Reads(entries, lines, 0, |lines|)
    ensures RenderAll(entries) == lines
  {
    hide IsError, Reads;
    forall i | 0 <= i < |lines| ensures Important(lines, i) {
      assert Around(i, i);
    }
    AllImportantKept(entries, lines, 0);
  }

  // ---------- The loops ----------

  lemma {:induction false} ReadsOn(
      entries: seq<Entry>, more: seq<Entry>, lines: seq<string>, from: nat, mid: nat, to: nat)
    requires Reads(entries, lines, from, mid) && Reads(more, lines, mid, to)
    ensures Reads(entries + more, lines, from, to)
    decreases |entries|
  {
    if entries == [] {
      assert entries + more == more;
    } else {
      var next := from + if entries[0].Line? then 1 else entries[0].count;
      ReadsForward(entries[1..], lines, next, mid);
      ReadsForward(more, lines, mid, to);
      ReadsOn(entries[1..], more, lines, next, mid, to);
      assert (entries + more)[1..] == entries[1..] + more;
    }
  }

  method MarkImportant(lines: seq<string>) returns (important: set<nat>)
    ensures forall i: nat :: i in important <==> i < |lines| && Important(lines, i)
  {
    hide IsError;
    important := {};
    for i := 0 to if |lines| < 3 then |lines| else 3
      invariant forall k: nat :: k in important <==> k < i
    {
      important := important + {i};
    }
    var tail := if |lines| < 5 then 0 else |lines| - 5;
    for i := tail to |lines|
      invariant forall k: nat :: k in important <==> k < |lines| && (k < 3 || tail <= k < i)
    {
      important := important + {i};
    }
    for i := 0 to |lines|
      invariant forall k: nat :: k in important <==> k < |lines| && (k < 3 || tail <= k || NearErrorBefore(lines, k, i))
    {
      NearErrorNext(lines, i);
      if IsError(lines[i]) {
        important := AddContext(important, |lines|, i);
      }
    }
  }

  /** Line `k` is around an error line among the first `n`. */
  ghost predicate NearErrorBefore(lines: seq<string>, k: nat, n: nat)
    requires n <= |lines|
  {
    exists j :: 0 <= j < n && Around(k, j) && IsError(lines[j])
  }

  lemma NearErrorNext(lines: seq<string>, n: nat)
    requires n < |lines|
    ensures forall k: nat ::
      NearErrorBefore(lines, k, n + 1) <==> NearErrorBefore(lines, k, n) || (Around(k, n) && IsError(lines[n]))
  {
  }

  method AddContext(important: set<nat>, n: nat, j: nat) returns (important': set<nat>)
    requires j < n
    ensures forall k: nat :: k in important' <==> k in important || (k < n && Around(k, j))
  {
    important' := important;
    var low, high := if j < 2 then 0 else j - 2, if n < j + 5 then n else j + 5;
    for k := low to high
      invariant forall i: nat :: i in important' <==> i in important || low <= i < k
    {
      important' := important' + {k};
    }
  }

  /** The members of a set of line numbers in ascending order. */
  method Sorted(important: set<nat>, n: nat) returns (indices: seq<nat>)
    ensures forall i: nat :: i in indices <==> i in important && i < n
    ensures forall j, k :: 0 <= j < k < |indices| ==> indices[j] < indices[k]
  {
    indices := [];
    for i := 0 to n
      invariant forall k: nat :: k in indices <==> k in important && k < i
      invariant forall k :: 0 <= k < |indices| ==> indices[k] < i
      invariant forall j, k :: 0 <= j < k < |indices| ==> indices[j] < indices[k]
    {
      if i in important {
        indices := indices + [i];
      }
    }
  }

  ghost predicate ListsImportant(indices: seq<nat>, lines: seq<string>) {
    && (forall i: nat :: i in indices <==> i < |lines| && Important(lines, i))
    && forall j, k :: 0 <= j < k < |indices| ==> indices[j] < indices[k]
  }

  /** The lines between two listed numbers are not important. */
  lemma NoneBetween(indices: seq<nat>, lines: seq<string>, k: nat)
    requires ListsImportant(indices, lines) && k < |indices|
    ensures indices[k] < |lines| && Important(lines, indices[k])
    ensures k == 0 ==> indices[k] == 0
    ensures k > 0 ==> indices[k - 1] < indices[k] && Unimportant(lines, indices[k - 1] + 1, indices[k])
  {
    assert indices[k] in indices;
    if k == 0 {
      assert Important(lines, 0) && 0 in indices;
    } else {
      forall i | indices[k - 1] < i < indices[k] ensures !Important(lines, i) {
        if Important(lines, i) {
          NotBetween(indices, k, i);
        }
      }
    }
  }

  lemma NotBetween(indices: seq<nat>, k: nat, i: nat)
    requires 0 < k < |indices| && i in indices
    requires forall j, k :: 0 <= j < k < |indices| ==> indices[j] < indices[k]
    ensures i <= indices[k - 1] || i >= indices[k]
  {
    var p :| 0 <= p < |indices| && indices[p] == i;
    assert p < k - 1 || p == k - 1 || p == k || p > k;
  }

  lemma LastIsListed(indices: seq<nat>, lines: seq<string>)
    requires ListsImportant(indices, lines) && lines != []
    ensures indices != [] && indices[|indices| - 1] == |lines| - 1
  {
    var last: nat := |lines| - 1;
    assert Important(lines, last) && last in indices;
    var p :| 0 <= p < |indices| && indices[p] == last;
    assert indices[|indices| - 1] in indices;
  }

  method WriteEntries(lines: seq<string>, indices: seq<nat>) returns (entries: seq<Entry>)
    requires ListsImportant(indices, lines)
    ensures Reads(entries, lines, 0, |lines|)
  {
    hide Important, ListsImportant, Unimportant;
    entries := [];
    var previous := -1;
    for k := 0 to |indices|
      invariant previous == if k == 0 then -1 else indices[k - 1] as int
      invariant -1 <= previous < |lines|
      invariant Reads(entries, lines, 0, previous + 1)
    {
      NoneBetween(indices, lines, k);
      var index := indices[k];
      var added := [Line(lines[index])];
      assert Reads(added[1..], lines, index + 1, index + 1);
      assert Reads(added, lines, index, index + 1);
      if previous != -1 && index > previous + 1 {
        var gap := Gap(index - previous - 1);
        assert ([gap] + added)[1..] == added;
        added := [gap] + added;
        assert Reads(added, lines, (previous + 1) as nat, index + 1);
      }
      ReadsOn(entries, added, lines, 0, (previous + 1) as nat, index + 1);
      entries, previous := entries + added, index;
    }
    if lines != [] {
      LastIsListed(indices, lines);
    }
  }

  method Compress(logText: string, maxLines: int) returns (compressed: string, ghost entries: seq<Entry>)
    ensures |SplitLines(logText)| <= maxLines ==> compressed == logText
    ensures |SplitLines(logText)| > maxLines ==>
      && Reads(entries, SplitLines(logText), 0, |SplitLines(logText)|)
      && compressed == Join(RenderAll(entries))
  {
    var lines := SplitLines(logText);
    if |lines| <= maxLines {
      return logText, [];
    }
    var important := MarkImportant(lines);
    var indices := Sorted(important, |lines|);
    var written := WriteEntries(lines, indices);
    entries := written;
    compressed := Join(RenderAll(written));
  }
}
