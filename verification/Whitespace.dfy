/**
 White-space normalisation of source text: trim each line on the right, keep one blank line of
 each run, and strip the whole.

 `Normal` describes the lines of the result directly from the lines of the input, and the
 results about repeating the operation and about what it preserves go through it.
 */
module Whitespace {
  import opened Lines
  import opened Text

  function TrimLines(lines: seq<string>): (r: seq<string>)
    ensures |r| == |lines| && forall i :: 0 <= i < |r| ==> r[i] == RStrip(lines[i])
  {
    seq(|lines|, i requires 0 <= i < |lines| => RStrip(lines[i]))
  }

  /** One blank line of each run is kept. */
  function Collapse(lines: seq<string>): seq<string> {
    if lines == [] then []
    else
      var n := |lines| - 1;
      if lines[n] == "" && n > 0 && lines[n - 1] == "" then Collapse(lines[..n])
      else Collapse(lines[..n]) + [lines[n]]
  }

  lemma NothingCollapses()
    ensures Collapse([]) == []
  {
  }

  lemma CollapseNext(lines: seq<string>, line: string)
    ensures Collapse(lines + [line]) ==
      if line == "" && lines != [] && lines[|lines| - 1] == "" then Collapse(lines) else Collapse(lines) + [line]
  {
    assert (lines + [line])[..|lines|] == lines;
  }

  method StripWhitespace(code: string) returns (stripped: string)
    ensures stripped == Strip(Join(Collapse(TrimLines(SplitLines(code)))))
  {
    hide Collapse, TrimLines, SplitLines, Join, Strip;
    NothingCollapses();
    var lines := TrimLines(SplitLines(code));
    var cleaned: seq<string> := [];
    var prevBlank := false;
    for i := 0 to |lines|
      invariant cleaned == Collapse(lines[..i])
      invariant prevBlank <==> i > 0 && lines[i - 1] == ""
    {
      assert lines[..i + 1] == lines[..i] + [lines[i]];
      CollapseNext(lines[..i], lines[i]);
      if lines[i] == "" {
        if !prevBlank {
          cleaned := cleaned + [""];
        }
        prevBlank := true;
      } else {
        cleaned := cleaned + [lines[i]];
        prevBlank := false;
      }
    }
    assert lines[..|lines|] == lines;
    stripped := Strip(Join(cleaned));
  }

  // ---------- The normal form ----------

  /** A line without a line break and without white space at its end. */
  ghost predicate Tidy(line: string) {
    Breakless(line) && (line == "" || !IsSpace(line[|line| - 1]))
  }

  ghost predicate AllTidy(lines: seq<string>) {
    forall i :: 0 <= i < |lines| ==> Tidy(lines[i])
  }

  ghost predicate NoDoubleBlank(lines: seq<string>) {
    forall i :: 0 < i < |lines| ==> lines[i] != "" || lines[i - 1] != ""
  }

  /** Tidy lines without two blank ones together, the first starting and the last ending in text. */
  ghost predicate InNormalForm(lines: seq<string>) {
    && AllTidy(lines) && NoDoubleBlank(lines)
    && (lines != [] ==> lines[0] != "" && !IsSpace(lines[0][0]) && lines[|lines| - 1] != "")
  }

  ghost function DropFirstBlank(lines: seq<string>): seq<string> {
    if lines != [] && lines[0] == "" then lines[1..] else lines
  }

  ghost function DropLastBlank(lines: seq<string>): seq<string> {
    if lines != [] && lines[|lines| - 1] == "" then lines[..|lines| - 1] else lines
  }

  ghost function Outdent(lines: seq<string>): seq<string> {
    if lines == [] then [] else [LStrip(lines[0])] + lines[1..]
  }

  /** The lines of the result. */
  ghost function Normal(lines: seq<string>): seq<string> {
    Outdent(DropLastBlank(DropFirstBlank(Collapse(TrimLines(lines)))))
  }

  // ---------- Lines after trimming and collapsing ----------

  lemma TrimIsTidy(lines: seq<string>)
    requires forall i :: 0 <= i < |lines| ==> Breakless(lines[i])
    ensures AllTidy(TrimLines(lines))
  {
    forall i | 0 <= i < |lines| ensures Tidy(TrimLines(lines)[i]) {
      var r := RStrip(lines[i]);
      assert r <= lines[i];
      assert forall k :: 0 <= k < |r| ==> r[k] == lines[i][k];
    }
  }

  lemma {:induction false} CollapseEndsAs(lines: seq<string>)
    ensures lines == [] <==> Collapse(lines) == []
    ensures lines != [] ==> var c := Collapse(lines); (c[|c| - 1] == "" <==> lines[|lines| - 1] == "")
  {
    if lines != [] {
      CollapseEndsAs(lines[..|lines| - 1]);
    }
  }

  lemma {:induction false} CollapseKeeps(lines: seq<string>)
    ensures NoDoubleBlank(Collapse(lines))
    ensures AllTidy(lines) ==> AllTidy(Collapse(lines))
  {
    if lines != [] {
      var n := |lines| - 1;
      CollapseKeeps(lines[..n]);
      CollapseEndsAs(lines[..n]);
      CollapseNext(lines[..n], lines[n]);
      assert lines == lines[..n] + [lines[n]];
      hide Tidy, Collapse;
    }
  }

  lemma {:induction false} CollapseIsIdentity(lines: seq<string>)
    requires NoDoubleBlank(lines)
    ensures Collapse(lines) == lines
  {
    if lines != [] {
      var n := |lines| - 1;
      CollapseIsIdentity(lines[..n]);
      assert lines == lines[..n] + [lines[n]];
    }
  }

  // ---------- Stripping a joined text ----------

  /** Stripping on the left stops inside a part that ends in text. */
  lemma {:induction false} LStripFirst(s: string, rest: string)
    requires s != "" && !IsSpace(s[|s| - 1])
    ensures LStrip(s + rest) == LStrip(s) + rest && LStrip(s) != ""
    ensures var t := LStrip(s); !IsSpace(t[0]) && t[|t| - 1] == s[|s| - 1] && |t| <= |s| && t == s[|s| - |t|..]
  {
    if IsSpace(s[0]) {
      assert (s + rest)[1..] == s[1..] + rest;
      LStripFirst(s[1..], rest);
    }
  }

  lemma JoinFirst(lines: seq<string>)
    requires lines != []
    ensures Join(lines) == lines[0] + if |lines| == 1 then "" else "\n" + Join(lines[1..])
  {
  }

  lemma LStripJoin(lines: seq<string>)
    requires AllTidy(lines) && NoDoubleBlank(lines)
    ensures LStrip(Join(lines)) == Join(Outdent(DropFirstBlank(lines)))
  {
    if lines != [] && lines[0] == "" {
      JoinFirst(lines);
      if |lines| > 1 {
        assert lines[0] != "" || lines[1] != "";
        assert ("\n" + Join(lines[1..]))[1..] == Join(lines[1..]);
        LStripTextFirst(lines[1..]);
      }
    } else if lines != [] {
      LStripTextFirst(lines);
    }
  }

  lemma LStripTextFirst(lines: seq<string>)
    requires lines != [] && lines[0] != "" && Tidy(lines[0])
    ensures LStrip(Join(lines)) == Join(Outdent(lines))
  {
    var first, o := lines[0], Outdent(lines);
    assert !IsSpace(first[|first| - 1]);
    hide Join, LStrip, IsSpace, IsBreak, Tidy;
    var rest := if |lines| == 1 then "" else "\n" + Join(lines[1..]);
    JoinFirst(lines);
    JoinFirst(o);
    LStripFirst(first, rest);
    assert o[0] == LStrip(first) && o[1..] == lines[1..];
    hide Outdent;
    assert Join(o) == LStrip(first) + rest;
  }

  lemma {:induction false} JoinEndsAs(lines: seq<string>)
    requires lines != [] && lines[|lines| - 1] != ""
    ensures var j, l := Join(lines), lines[|lines| - 1]; j != "" && j[|j| - 1] == l[|l| - 1]
  {
    if |lines| > 1 {
      JoinEndsAs(lines[1..]);
    }
  }

  lemma RStripNewline(s: string)
    requires s != "" && !IsSpace(s[|s| - 1])
    ensures RStrip(s) == s && RStrip(s + "\n") == s
  {
    assert (s + "\n")[..|s|] == s;
  }

  lemma NothingToStrip()
    ensures RStrip(Join([])) == Join([])
  {
  }

  lemma KeptEndsInText(lines: seq<string>)
    requires AllTidy(lines) && NoDoubleBlank(lines) && lines != [] && lines[0] != ""
    ensures var kept := DropLastBlank(lines);
      && kept != [] && kept[|kept| - 1] != ""
      && var last := kept[|kept| - 1]; !IsSpace(last[|last| - 1])
  {
    var kept := DropLastBlank(lines);
    assert Tidy(kept[|kept| - 1]);
  }

  lemma RStripJoin(lines: seq<string>)
    requires AllTidy(lines) && NoDoubleBlank(lines) && (lines != [] ==> lines[0] != "")
    ensures RStrip(Join(lines)) == Join(DropLastBlank(lines))
  {
    hide RStrip, Join, IsSpace, AllTidy, Tidy, NoDoubleBlank;
    if lines == [] {
      NothingToStrip();
    } else {
      var n := |lines| - 1;
      var kept := DropLastBlank(lines);
      KeptEndsInText(lines);
      JoinEndsAs(kept);
      RStripNewline(Join(kept));
      if lines[n] == "" {
        assert lines == kept + [""];
        JoinLast(kept, "");
        assert Join(kept) + "\n" + "" == Join(kept) + "\n";
      }
    }
  }

  lemma DropFirstKeeps(lines: seq<string>)
    requires AllTidy(lines) && NoDoubleBlank(lines)
    ensures var d := DropFirstBlank(lines); AllTidy(d) && NoDoubleBlank(d) && (d != [] ==> d[0] != "")
  {
    var d := DropFirstBlank(lines);
    hide Tidy;
    if d != lines {
      forall i | 0 < i < |d| ensures d[i] != "" || d[i - 1] != "" {
        assert d[i] == lines[i + 1] && d[i - 1] == lines[i];
      }
    }
  }

  lemma LStripLine(line: string)
    requires Tidy(line) && line != ""
    ensures var t := LStrip(line); Tidy(t) && t != "" && !IsSpace(t[0])
  {
    LStripFirst(line, "");
    var t := LStrip(line);
    hide LStrip, IsSpace, IsBreak;
    assert forall k :: 0 <= k < |t| ==> t[k] == line[|line| - |t| + k];
  }

  lemma OutdentDrops(lines: seq<string>)
    requires lines != [] ==> lines[0] != "" && LStrip(lines[0]) != ""
    ensures DropLastBlank(Outdent(lines)) == Outdent(DropLastBlank(lines))
  {
    hide LStrip;
  }

  lemma OutdentKeeps(lines: seq<string>)
    requires AllTidy(lines) && NoDoubleBlank(lines) && (lines != [] ==> lines[0] != "")
    ensures AllTidy(Outdent(lines)) && NoDoubleBlank(Outdent(lines))
    ensures lines != [] ==> var o := Outdent(lines); o[0] != "" && !IsSpace(o[0][0])
    ensures DropLastBlank(Outdent(lines)) == Outdent(DropLastBlank(lines))
  {
    hide Tidy, LStrip, IsSpace, DropLastBlank;
    if lines == [] {
      OutdentDrops(lines);
    } else {
      LStripLine(lines[0]);
      OutdentDrops(lines);
      var o := Outdent(lines);
      forall i | 0 <= i < |o| ensures Tidy(o[i]) {
        assert i > 0 ==> o[i] == lines[i];
      }
      forall i | 0 < i < |o| ensures o[i] != "" || o[i - 1] != "" {
        assert lines[i] != "" || lines[i - 1] != "";
      }
    }
  }

  lemma DropLastKeeps(lines: seq<string>)
    requires AllTidy(lines) && NoDoubleBlank(lines) && (lines != [] ==> lines[0] != "" && !IsSpace(lines[0][0]))
    ensures InNormalForm(DropLastBlank(lines))
  {
  }

  // ---------- What the result is ----------

  /** The result is the join of lines in normal form. */
  lemma ResultIsNormal(code: string)
    ensures var lines := Normal(SplitLines(code));
      InNormalForm(lines) && Strip(Join(Collapse(TrimLines(SplitLines(code))))) == Join(lines)
  {
    var trimmed := TrimLines(SplitLines(code));
    SplitIsBreakless(code);
    TrimIsTidy(SplitLines(code));
    CollapseKeeps(trimmed);
    var c := Collapse(trimmed);
    hide Collapse, TrimLines, SplitLines, Breakless, Tidy, Join, LStrip, RStrip, NoDoubleBlank;
    LStripJoin(c);
    DropFirstKeeps(c);
    OutdentKeeps(DropFirstBlank(c));
    RStripJoin(Outdent(DropFirstBlank(c)));
    DropLastKeeps(Outdent(DropFirstBlank(c)));
  }

  lemma NormalFormIsKept(lines: seq<string>)
    requires InNormalForm(lines)
    ensures SplitLines(Join(lines)) == lines
    ensures Normal(lines) == lines
  {
    hide RStrip, LStrip, TrimLines, Collapse, Join, SplitLines, IsSpace, AllTidy, NoDoubleBlank;
    AllTidyIsBreakless(lines);
    SplitJoin(lines);
    TrimKeepsTidy(lines);
    CollapseIsIdentity(lines);
    if lines != [] {
      LStripKeeps(lines[0]);
    }
  }

  lemma AllTidyIsBreakless(lines: seq<string>)
    requires AllTidy(lines)
    ensures forall i :: 0 <= i < |lines| ==> Breakless(lines[i])
  {
    hide Breakless;
  }

  lemma TrimKeepsTidy(lines: seq<string>)
    requires AllTidy(lines)
    ensures TrimLines(lines) == lines
  {
    forall i | 0 <= i < |lines| ensures RStrip(lines[i]) == lines[i] {
    }
  }

  lemma LStripKeeps(line: string)
    requires line != "" && !IsSpace(line[0])
    ensures LStrip(line) == line
  {
  }

  /** Read back, the result has exactly the normalised lines: tidy, and no two blank ones together. */
  lemma ResultLines(code: string, stripped: string)
    requires stripped == Strip(Join(Collapse(TrimLines(SplitLines(code)))))
    ensures SplitLines(stripped) == Normal(SplitLines(code))
    ensures InNormalForm(SplitLines(stripped))
  {
    hide *;
    ResultIsNormal(code);
    NormalFormIsKept(Normal(SplitLines(code)));
  }

  /** Normalising twice is normalising once, for every text and every kind of line break. */
  lemma StripWhitespaceIdempotent(code: string, once: string, twice: string)
    requires once == Strip(Join(Collapse(TrimLines(SplitLines(code)))))
    requires twice == Strip(Join(Collapse(TrimLines(SplitLines(once)))))
    ensures twice == once
  {
    hide *;
    ResultIsNormal(code);
    NormalFormIsKept(Normal(SplitLines(code)));
    ResultIsNormal(once);
  }

  /** The lines with text, in order. */
  ghost function WithText(lines: seq<string>): seq<string> {
    if lines == [] then []
    else
      var n := |lines| - 1;
      if lines[n] == "" then WithText(lines[..n]) else WithText(lines[..n]) + [lines[n]]
  }

  lemma {:induction false} CollapseKeepsText(lines: seq<string>)
    ensures WithText(Collapse(lines)) == WithText(lines)
  {
    if lines != [] {
      var n := |lines| - 1;
      CollapseKeepsText(lines[..n]);
      var c := Collapse(lines[..n]);
      assert (c + [lines[n]])[..|c|] == c;
    }
  }

  lemma {:induction false} WithTextFront(line: string, rest: seq<string>)
    ensures WithText([line] + rest) == (if line == "" then [] else [line]) + WithText(rest)
  {
    if rest == [] {
      assert [line] + rest == [line];
    } else {
      var n := |rest| - 1;
      WithTextFront(line, rest[..n]);
      assert ([line] + rest)[..n + 1] == [line] + rest[..n];
    }
  }

  lemma OutdentText(lines: seq<string>)
    requires lines != [] ==> lines[0] != "" && Tidy(lines[0])
    ensures WithText(Outdent(lines)) == Outdent(WithText(lines))
  {
    if lines != [] {
      LStripFirst(lines[0], "");
      WithTextFront(LStrip(lines[0]), lines[1..]);
      WithTextFront(lines[0], lines[1..]);
      assert lines == [lines[0]] + lines[1..];
    }
  }

  lemma DropsKeepText(lines: seq<string>)
    ensures WithText(DropFirstBlank(lines)) == WithText(lines)
    ensures WithText(DropLastBlank(lines)) == WithText(lines)
  {
    if lines != [] && lines[0] == "" {
      WithTextFront("", lines[1..]);
      assert lines == [""] + lines[1..];
    }
  }

  /** No line with text is lost, added, moved or changed, but for trailing white space and the first one's indent. */
  lemma TextIsPreserved(code: string, stripped: string)
    requires stripped == Strip(Join(Collapse(TrimLines(SplitLines(code)))))
    ensures WithText(SplitLines(stripped)) == Outdent(WithText(TrimLines(SplitLines(code))))
  {
    var trimmed := TrimLines(SplitLines(code));
    var c := Collapse(trimmed);
    var d := DropFirstBlank(c);
    SplitIsBreakless(code);
    TrimIsTidy(SplitLines(code));
    hide Breakless, Tidy, Join, LStrip, RStrip, NoDoubleBlank, SplitLines, TrimLines, Collapse, WithText;
    CollapseKeeps(trimmed);
    CollapseKeepsText(trimmed);
    DropFirstKeeps(c);
    DropsKeepText(c);
    DropsKeepText(d);
    OutdentKeeps(d);
    OutdentText(DropLastBlank(d));
    ResultLines(code, stripped);
  }
}
