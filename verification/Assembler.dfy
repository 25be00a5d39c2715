/**
 Assembly of prompt sections under a token limit: sections are taken by priority, essential
 ones always, others when they still fit.
 */
module Assembler {
  import opened Tokens

  datatype Section = Section(title: string, content: string, priority: int, maxTokens: int, isEssential: bool)

  // ---------- The order ----------

  /** `a` goes before `b`: by priority number, and within one priority essential sections first. */
  predicate Ahead(a: Section, b: Section) {
    a.priority < b.priority || (a.priority == b.priority && a.isEssential && !b.isEssential)
  }

  function Insert(ss: seq<Section>, s: Section): seq<Section> {
    if ss == [] || !Ahead(s, ss[|ss| - 1]) then ss + [s]
    else Insert(ss[..|ss| - 1], s) + [ss[|ss| - 1]]
  }

  /** The sections in order; the result of a stable sort, as the three lemmas below show. */
  function Sort(ss: seq<Section>): seq<Section> {
    if ss == [] then [] else Insert(Sort(ss[..|ss| - 1]), ss[|ss| - 1])
  }

  ghost predicate Ordered(ss: seq<Section>) {
    forall i, j :: 0 <= i < j < |ss| ==> !Ahead(ss[j], ss[i])
  }

  lemma {:induction false} InsertKeepsAll(ss: seq<Section>, s: Section)
    ensures multiset(Insert(ss, s)) == multiset(ss) + multiset{s}
  {
    if ss != [] && Ahead(s, ss[|ss| - 1]) {
      InsertKeepsAll(ss[..|ss| - 1], s);
      assert ss == ss[..|ss| - 1] + [ss[|ss| - 1]];
    }
  }

  /** No section is lost or repeated. */
  lemma {:induction false} SortKeepsAll(ss: seq<Section>)
    ensures multiset(Sort(ss)) == multiset(ss)
  {
    if ss != [] {
      var n := |ss| - 1;
      SortKeepsAll(ss[..n]);
      assert Sort(ss) == Insert(Sort(ss[..n]), ss[n]);
      hide Sort, Insert;
      InsertKeepsAll(Sort(ss[..n]), ss[n]);
      assert ss == ss[..n] + [ss[n]];
    }
  }

  lemma {:induction false} InsertOrders(ss: seq<Section>, s: Section)
    requires Ordered(ss)
    ensures Ordered(Insert(ss, s))
  {
    var n := |ss| - 1;
    if ss != [] && Ahead(s, ss[n]) {
      InsertOrders(ss[..n], s);
      InsertKeepsAll(ss[..n], s);
      var front := Insert(ss[..n], s);
      forall i | 0 <= i < |front| ensures !Ahead(ss[n], front[i]) {
        assert front[i] in multiset(front);
        if front[i] != s {
          assert front[i] in ss[..n];
        }
      }
    } else if ss != [] {
      forall i | 0 <= i <= n ensures !Ahead(s, ss[i]) {
        assert i < n ==> !Ahead(ss[n], ss[i]);
      }
    }
  }

  /** Priorities ascend, and within one priority essential sections come first. */
  lemma {:induction false} SortOrders(ss: seq<Section>)
    ensures Ordered(Sort(ss))
    ensures var r := Sort(ss); forall i, j :: 0 <= i < j < |r| ==>
      r[i].priority < r[j].priority || (r[i].priority == r[j].priority && (r[j].isEssential ==> r[i].isEssential))
  {
    if ss != [] {
      SortOrders(ss[..|ss| - 1]);
      InsertOrders(Sort(ss[..|ss| - 1]), ss[|ss| - 1]);
    }
  }

  predicate SameRank(s: Section, priority: int, isEssential: bool) {
    s.priority == priority && s.isEssential == isEssential
  }

  /** The sections of one rank, in order. */
  ghost function OfRank(ss: seq<Section>, priority: int, isEssential: bool): seq<Section> {
    if ss == [] then []
    else
      var n := |ss| - 1;
      var rest := OfRank(ss[..n], priority, isEssential);
      if SameRank(ss[n], priority, isEssential) then rest + [ss[n]] else rest
  }

  lemma OfRankNext(ss: seq<Section>, s: Section, priority: int, isEssential: bool)
    ensures OfRank(ss + [s], priority, isEssential) ==
      OfRank(ss, priority, isEssential) + if SameRank(s, priority, isEssential) then [s] else []
  {
    assert (ss + [s])[..|ss|] == ss;
  }

  lemma InsertStep(ss: seq<Section>, s: Section)
    ensures Insert(ss, s) == if ss == [] || !Ahead(s, ss[|ss| - 1]) then ss + [s]
      else Insert(ss[..|ss| - 1], s) + [ss[|ss| - 1]]
  {
  }

  lemma AheadIsOtherRank(s: Section, last: Section, priority: int, isEssential: bool)
    requires Ahead(s, last)
    ensures !(SameRank(s, priority, isEssential) && SameRank(last, priority, isEssential))
  {
  }

  lemma {:induction false} InsertIsStable(ss: seq<Section>, s: Section, priority: int, isEssential: bool)
    ensures OfRank(Insert(ss, s), priority, isEssential) == OfRank(ss + [s], priority, isEssential)
  {
    hide OfRank, Insert, SameRank, Ahead;
    InsertStep(ss, s);
    if ss != [] && Ahead(s, ss[|ss| - 1]) {
      var n := |ss| - 1;
      var last, front := ss[n], Insert(ss[..n], s);
      AheadIsOtherRank(s, last, priority, isEssential);
      InsertIsStable(ss[..n], s, priority, isEssential);
      OfRankNext(ss, s, priority, isEssential);
      OfRankNext(ss[..n], s, priority, isEssential);
      OfRankNext(ss[..n], last, priority, isEssential);
      OfRankNext(front, last, priority, isEssential);
      assert ss == ss[..n] + [last];
    }
  }

  /** Sections of one rank keep the order they were given in. */
  lemma {:induction false} SortIsStable(ss: seq<Section>, priority: int, isEssential: bool)
    ensures OfRank(Sort(ss), priority, isEssential) == OfRank(ss, priority, isEssential)
  {
    if ss != [] {
      var n := |ss| - 1;
      SortIsStable(ss[..n], priority, isEssential);
      var sorted := Sort(ss[..n]);
      assert Sort(ss) == Insert(sorted, ss[n]);
      hide OfRank, Insert, Sort, SameRank;
      InsertIsStable(sorted, ss[n], priority, isEssential);
      OfRankNext(sorted, ss[n], priority, isEssential);
      OfRankNext(ss[..n], ss[n], priority, isEssential);
      assert ss == ss[..n] + [ss[n]];
    }
  }

  // ---------- What is taken ----------

  function Trimmed(t: Tokenizer, s: Section): string {
    Truncate(t, s.content, s.maxTokens)
  }

  function Cost(t: Tokenizer, s: Section): nat {
    Count(t, Trimmed(t, s))
  }

  function Part(t: Tokenizer, s: Section): string {
    (if s.title == "" then "" else "# " + s.title + "\n") + Trimmed(t, s)
  }

  /**
   A section costs no more than its own limit allows, up to the slack of the encoder's cuts, and is
   whole when it fits.
   */
  lemma CostWithinOwnLimit(t: Tokenizer, slack: nat, s: Section)
    requires CutsWithin(t, slack)
    ensures Cost(t, s) <= (if s.maxTokens < 0 then 0 else s.maxTokens) + slack
    ensures 0 < Count(t, s.content) <= s.maxTokens ==> Trimmed(t, s) == s.content && Cost(t, s) == Count(t, s.content)
  {
    TruncateFits(t, slack, s.content, if s.maxTokens < 0 then 0 else s.maxTokens);
  }

  /** Whether a section is taken when `used` tokens are spent. */
  predicate Takes(t: Tokenizer, limit: int, used: nat, s: Section) {
    s.content != "" && (used + Cost(t, s) <= limit || s.isEssential)
  }

  ghost function Used(t: Tokenizer, limit: int, ss: seq<Section>): nat {
    if ss == [] then 0
    else
      var n := |ss| - 1;
      var used := Used(t, limit, ss[..n]);
      if Takes(t, limit, used, ss[n]) then used + Cost(t, ss[n]) else used
  }

  ghost function Parts(t: Tokenizer, limit: int, ss: seq<Section>): seq<string> {
    if ss == [] then []
    else
      var n := |ss| - 1;
      if Takes(t, limit, Used(t, limit, ss[..n]), ss[n]) then Parts(t, limit, ss[..n]) + [Part(t, ss[n])]
      else Parts(t, limit, ss[..n])
  }

  /** The tokens of the essential sections. */
  ghost function EssentialCost(t: Tokenizer, ss: seq<Section>): nat {
    if ss == [] then 0
    else EssentialCost(t, ss[..|ss| - 1]) + if ss[|ss| - 1].isEssential then Cost(t, ss[|ss| - 1]) else 0
  }

  /** The limit is exceeded by no more than the essential sections need. */
  lemma {:induction false} UsedIsBounded(t: Tokenizer, limit: nat, ss: seq<Section>)
    ensures Used(t, limit, ss) <= limit + EssentialCost(t, ss)
  {
    if ss != [] {
      UsedIsBounded(t, limit, ss[..|ss| - 1]);
    }
  }

  /** An essential section that is not empty and no longer fits when its turn comes. */
  ghost predicate Overflows(t: Tokenizer, limit: int, ss: seq<Section>, i: nat)
    requires i < |ss|
  {
    ss[i].isEssential && ss[i].content != "" && Used(t, limit, ss[..i]) + Cost(t, ss[i]) > limit
  }

  /** The limit is exceeded exactly when some essential section no longer fits at its turn. */
  lemma {:induction false} OverLimitIff(t: Tokenizer, limit: nat, ss: seq<Section>)
    ensures Used(t, limit, ss) > limit <==> exists i :: 0 <= i < |ss| && Overflows(t, limit, ss, i)
  {
    if ss != [] {
      var n := |ss| - 1;
      OverLimitIff(t, limit, ss[..n]);
      assert forall i :: 0 <= i < n ==> ss[..n][..i] == ss[..i];
      assert forall i :: 0 <= i < n ==> (Overflows(t, limit, ss[..n], i) <==> Overflows(t, limit, ss, i));
      if Used(t, limit, ss[..n]) <= limit && Used(t, limit, ss) > limit {
        assert Overflows(t, limit, ss, n);
      }
    }
  }

  /** The tokens of the sections taken that are not essential. */
  ghost function OptionalCost(t: Tokenizer, limit: int, ss: seq<Section>): nat {
    if ss == [] then 0
    else
      var n := |ss| - 1;
      var before := OptionalCost(t, limit, ss[..n]);
      if !ss[n].isEssential && Takes(t, limit, Used(t, limit, ss[..n]), ss[n]) then before + Cost(t, ss[n]) else before
  }

  lemma EmptyCostsNothing(t: Tokenizer, s: Section)
    ensures s.content == "" ==> Cost(t, s) == 0
  {
  }

  lemma {:induction false} UsedIsSum(t: Tokenizer, limit: int, ss: seq<Section>)
    ensures Used(t, limit, ss) == EssentialCost(t, ss) + OptionalCost(t, limit, ss)
  {
    if ss != [] {
      UsedIsSum(t, limit, ss[..|ss| - 1]);
      EmptyCostsNothing(t, ss[|ss| - 1]);
      hide Cost;
    }
  }

  /** The sections up to the last essential one. */
  ghost function UpToLastEssential(ss: seq<Section>): (front: seq<Section>)
    ensures front <= ss
  {
    if ss == [] || ss[|ss| - 1].isEssential then ss else UpToLastEssential(ss[..|ss| - 1])
  }

  lemma {:induction false} EssentialCostOfFront(t: Tokenizer, ss: seq<Section>)
    ensures EssentialCost(t, UpToLastEssential(ss)) == EssentialCost(t, ss)
  {
    if ss != [] && !ss[|ss| - 1].isEssential {
      EssentialCostOfFront(t, ss[..|ss| - 1]);
    }
  }

  lemma {:induction false} OverLimitInFront(t: Tokenizer, limit: int, ss: seq<Section>)
    ensures Used(t, limit, UpToLastEssential(ss)) > limit <==> Used(t, limit, ss) > limit
  {
    hide Cost;
    if ss != [] && !ss[|ss| - 1].isEssential {
      OverLimitInFront(t, limit, ss[..|ss| - 1]);
    }
  }

  /**
   Equally: when the essential sections do not fit beside the others taken before the last of them.
   What comes after the last essential section never matters.
   */
  lemma OverLimitIffCrowded(t: Tokenizer, limit: int, ss: seq<Section>)
    ensures Used(t, limit, ss) > limit <==>
      EssentialCost(t, ss) + OptionalCost(t, limit, UpToLastEssential(ss)) > limit
  {
    OverLimitInFront(t, limit, ss);
    EssentialCostOfFront(t, ss);
    UsedIsSum(t, limit, UpToLastEssential(ss));
  }

  /** The tokens of all sections that are not essential. */
  ghost function OptionalNeed(t: Tokenizer, ss: seq<Section>): nat {
    if ss == [] then 0
    else OptionalNeed(t, ss[..|ss| - 1]) + if ss[|ss| - 1].isEssential then 0 else Cost(t, ss[|ss| - 1])
  }

  lemma {:induction false} OptionalCostIsBounded(t: Tokenizer, limit: int, ss: seq<Section>)
    ensures OptionalCost(t, limit, ss) <= OptionalNeed(t, ss)
  {
    hide Cost;
    if ss != [] {
      OptionalCostIsBounded(t, limit, ss[..|ss| - 1]);
    }
  }

  /**
   Told from the sections alone: the limit is kept when the essential sections fit beside all others
   that go before the last of them; if there are none, exactly when the essential sections fit.
   */
  lemma LimitIsKept(t: Tokenizer, limit: int, sections: seq<Section>)
    ensures var ss := Sort(sections); var before := OptionalNeed(t, UpToLastEssential(ss));
      && (EssentialCost(t, ss) + before <= limit ==> Used(t, limit, ss) <= limit)
      && (before == 0 ==> (Used(t, limit, ss) <= limit <==> EssentialCost(t, ss) <= limit))
  {
    var ss := Sort(sections);
    OverLimitIffCrowded(t, limit, ss);
    OptionalCostIsBounded(t, limit, UpToLastEssential(ss));
  }

  /** Every essential section that is not empty is in the result. */
  lemma {:induction false} EssentialIsTaken(t: Tokenizer, limit: int, ss: seq<Section>, i: nat)
    requires i < |ss| && ss[i].isEssential && ss[i].content != ""
    ensures Part(t, ss[i]) in Parts(t, limit, ss)
  {
    if i < |ss| - 1 {
      EssentialIsTaken(t, limit, ss[..|ss| - 1], i);
    }
  }

  ghost function AllParts(t: Tokenizer, ss: seq<Section>): seq<string> {
    if ss == [] then []
    else if ss[|ss| - 1].content == "" then AllParts(t, ss[..|ss| - 1])
    else AllParts(t, ss[..|ss| - 1]) + [Part(t, ss[|ss| - 1])]
  }

  ghost function AllCost(t: Tokenizer, ss: seq<Section>): nat {
    if ss == [] then 0
    else AllCost(t, ss[..|ss| - 1]) + if ss[|ss| - 1].content == "" then 0 else Cost(t, ss[|ss| - 1])
  }

  /** When everything fits, every section that is not empty is taken, in order. */
  lemma {:induction false} AllFit(t: Tokenizer, limit: int, ss: seq<Section>)
    requires AllCost(t, ss) <= limit
    ensures Parts(t, limit, ss) == AllParts(t, ss) && Used(t, limit, ss) == AllCost(t, ss)
  {
    if ss != [] {
      AllFit(t, limit, ss[..|ss| - 1]);
    }
  }

  lemma WholeTextCosts(t: Tokenizer, s: Section)
    requires s.maxTokens == |t.encode(s.content)| > 0
    ensures Cost(t, s) == Count(t, s.content)
  {
  }

  /** A section with this text, cut nowhere. */
  function Uncut(t: Tokenizer, text: string, priority: int, isEssential: bool): Section {
    Section("", text, priority, |t.encode(text)|, isEssential)
  }

  /**
   Essential sections that fit by themselves can still break the limit, after a section of higher
   priority: for every encoder, with any text that has tokens.
   */
  lemma EssentialCanComeTooLate(t: Tokenizer, text: string)
    requires Count(t, text) > 0
    ensures var sections, limit := [Uncut(t, text, 0, false), Uncut(t, text, 1, true)], Count(t, text);
      var ss := Sort(sections);
      EssentialCost(t, ss) <= limit < Used(t, limit, ss)
  {
    var filler, essential, limit := Uncut(t, text, 0, false), Uncut(t, text, 1, true), Count(t, text);
    WholeTextCosts(t, filler);
    WholeTextCosts(t, essential);
    hide Cost, Count;
    SortTwo(filler, essential);
    var ss := [filler, essential];
    assert ss[..1] == [filler] && [filler][..0] == [];
    assert Used(t, limit, []) == 0 && EssentialCost(t, []) == 0;
    assert Used(t, limit, [filler]) == limit;
  }

  lemma SortTwo(a: Section, b: Section)
    requires !Ahead(b, a)
    ensures Sort([a, b]) == [a, b]
  {
    assert [a, b][..1] == [a] && [a][..0] == [];
    assert Sort([]) == [] && Insert([], a) == [] + [a] == [a];
    assert Sort([a]) == [a] && Insert([a], b) == [a] + [b] == [a, b];
  }

  // ---------- The loop ----------

  function JoinParts(parts: seq<string>): string {
    if parts == [] then ""
    else if |parts| == 1 then parts[0]
    else parts[0] + "\n\n" + JoinParts(parts[1..])
  }

  method Assemble(t: Tokenizer, limit: int, sections: seq<Section>) returns (text: string, tokens: nat)
    ensures text == JoinParts(Parts(t, limit, Sort(sections)))
    ensures tokens == Used(t, limit, Sort(sections))
  {
    hide Sort, Truncate, Count;
    var sorted := Sort(sections);
    var parts: seq<string> := [];
    tokens := 0;
    for i := 0 to |sorted|
      invariant parts == Parts(t, limit, sorted[..i]) && tokens == Used(t, limit, sorted[..i])
    {
      assert sorted[..i + 1][..i] == sorted[..i];
      var s := sorted[i];
      if s.content != "" {
        var trimmed := Truncate(t, s.content, s.maxTokens);
        var cost := Count(t, trimmed);
        if !(tokens + cost > limit && !s.isEssential) {
          var header := if s.title == "" then "" else "# " + s.title + "\n";
          parts, tokens := parts + [header + trimmed], tokens + cost;
        }
      }
    }
    assert sorted[..|sorted|] == sorted;
    text := JoinParts(parts);
  }
}
