/**
 Token budgets of the context streams. A manager is kept between compiles, and a stream without
 content in a compile keeps the consumption it had before.
 */
module Budget {
  import opened ByteTokens
  import opened Text
  import opened Tokens
  import opened Wrappers

  datatype Stream =
    TaskObjective | VerificationState | Errors | Diff | RepositoryBrain | Skills | WorkingMemory | Conversation

  type Ledger = m: map<Stream, nat> | (forall s: Stream :: s in m) witness map s: Stream | true :: 0

  /** The share of each stream in the total budget. */
  function DefaultShare(s: Stream): real {
    match s
    case TaskObjective => 0.10
    case VerificationState => 0.10
    case Errors => 0.15
    case Diff => 0.10
    case RepositoryBrain => 0.25
    case Skills => 0.20
    case WorkingMemory => 0.05
    case Conversation => 0.05
  }

  /** Python's conversion of a number to an integer. */
  function Truncated(x: real): int {
    if x >= 0.0 then x.Floor else -(-x).Floor
  }

  function Allocation(total: int, share: real): nat {
    var part := Truncated(total as real * share);
    if part < 50 then 50 else part
  }

  function Allocations(total: int, shares: Stream -> real): Ledger {
    map s: Stream | true :: Allocation(total, shares(s))
  }

  const NOTHING: Ledger := map s: Stream | true :: 0

  /** The sum over the streams that a compile fills. */
  function PipelineTotal(l: Ledger): nat {
    l[TaskObjective] + l[VerificationState] + l[Errors] + l[Diff] + l[RepositoryBrain] + l[Skills] + l[WorkingMemory]
  }

  function Total(l: Ledger): nat {
    PipelineTotal(l) + l[Conversation]
  }

  // ---------- Compiles ----------

  /** What a compile is given, after slicing and deduplication; an empty text is a missing stream. */
  datatype Inputs = Inputs(
    objective: string, persona: string, verification: string, errors: string, diff: string,
    repository: string, skills: string, memory: string)

  /** The text of each stream; there is always one for the objective, and never one for the conversation. */
  function TextFor(i: Inputs, s: Stream): string {
    match s
    case TaskObjective =>
      (if i.persona == "" then "" else "Target Role: " + i.persona + "\n") + "Objective: " + Strip(i.objective)
    case VerificationState => i.verification
    case Errors => i.errors
    case Diff => Strip(i.diff)
    case RepositoryBrain => i.repository
    case Skills => i.skills
    case WorkingMemory => i.memory
    case Conversation => ""
  }

  /** The section of the package for a stream. */
  function SectionOf(t: Tokenizer, allocations: Ledger, i: Inputs, s: Stream): string {
    Truncate(t, TextFor(i, s), allocations[s])
  }

  /** The consumption after a compile: streams without text keep theirs. */
  function ConsumedIn(t: Tokenizer, allocations: Ledger, consumed: Ledger, i: Inputs): Ledger {
    map s: Stream | true ::
      if TextFor(i, s) == "" then consumed[s] else Count(t, SectionOf(t, allocations, i, s))
  }

  function Spend(t: Tokenizer, allocations: Ledger, consumed: Ledger, i: Inputs, s: Stream): Ledger {
    if TextFor(i, s) == "" then consumed else consumed[s := Count(t, SectionOf(t, allocations, i, s))]
  }

  /** The place of a stream in the order in which a compile fills them. */
  function Place(s: Stream): nat {
    match s
    case TaskObjective => 0
    case VerificationState => 1
    case Errors => 2
    case Diff => 3
    case RepositoryBrain => 4
    case Skills => 5
    case WorkingMemory => 6
    case Conversation => 7
  }

  /** `now` is the consumption when the compile has filled the first `n` streams. */
  ghost predicate Filled(t: Tokenizer, a: Ledger, before: Ledger, now: Ledger, i: Inputs, n: nat) {
    forall s: Stream :: now[s] == if Place(s) < n then ConsumedIn(t, a, before, i)[s] else before[s]
  }

  lemma PlacesDiffer(r: Stream, s: Stream)
    ensures Place(r) == Place(s) ==> r == s
    ensures Place(r) <= 7 && (Place(r) == 7 ==> r == Conversation)
  {
  }

  lemma ConsumedAt(t: Tokenizer, a: Ledger, c: Ledger, i: Inputs, s: Stream)
    ensures ConsumedIn(t, a, c, i)[s] == if TextFor(i, s) == "" then c[s] else Count(t, SectionOf(t, a, i, s))
    ensures s == Conversation ==> ConsumedIn(t, a, c, i)[s] == c[s]
  {
  }

  lemma FillOne(t: Tokenizer, a: Ledger, before: Ledger, now: Ledger, i: Inputs, s: Stream)
    requires Filled(t, a, before, now, i, Place(s))
    ensures Filled(t, a, before, Spend(t, a, now, i, s), i, Place(s) + 1)
  {
    hide TextFor, SectionOf, Count, ConsumedIn, Place;
    var after := Spend(t, a, now, i, s);
    forall r: Stream ensures after[r] == if Place(r) < Place(s) + 1 then ConsumedIn(t, a, before, i)[r] else before[r] {
      PlacesDiffer(r, s);
      ConsumedAt(t, a, before, i, r);
    }
  }

  lemma FilledAll(t: Tokenizer, a: Ledger, before: Ledger, now: Ledger, i: Inputs)
    requires Filled(t, a, before, now, i, 7)
    ensures now == ConsumedIn(t, a, before, i)
  {
    hide ConsumedIn, TextFor, Place;
    forall s: Stream ensures now[s] == ConsumedIn(t, a, before, i)[s] {
      PlacesDiffer(s, s);
      ConsumedAt(t, a, before, i, s);
    }
    assert now == ConsumedIn(t, a, before, i);
  }

  lemma NothingFilled(t: Tokenizer, a: Ledger, before: Ledger, i: Inputs)
    ensures Filled(t, a, before, before, i, 0)
  {
  }

  datatype Package = Package(sections: map<Stream, string>, breakdown: Ledger, totalTokens: nat)

  function PackageIn(t: Tokenizer, allocations: Ledger, consumed: Ledger, i: Inputs): Package {
    var after := ConsumedIn(t, allocations, consumed, i);
    Package(
      map s: Stream | s != Conversation :: SectionOf(t, allocations, i, s),
      after, Total(after))
  }

  lemma SectionsAre(t: Tokenizer, a: Ledger, c: Ledger, i: Inputs, sections: map<Stream, string>)
    requires sections == map[
      TaskObjective := SectionOf(t, a, i, TaskObjective), VerificationState := SectionOf(t, a, i, VerificationState),
      Errors := SectionOf(t, a, i, Errors), Diff := SectionOf(t, a, i, Diff),
      RepositoryBrain := SectionOf(t, a, i, RepositoryBrain), Skills := SectionOf(t, a, i, Skills),
      WorkingMemory := SectionOf(t, a, i, WorkingMemory)]
    ensures Package(sections, ConsumedIn(t, a, c, i), Total(ConsumedIn(t, a, c, i))) == PackageIn(t, a, c, i)
  {
    hide SectionOf, ConsumedIn, Total;
  }

  class ContextBudgetManager {
    const totalBudget: int
    const tokenizer: Tokenizer
    const allocations: Ledger
    var consumed: Ledger

    constructor (total: int, distribution: Option<Stream -> real>, tokenizer: Tokenizer)
      ensures totalBudget == total && this.tokenizer == tokenizer && consumed == NOTHING
      ensures allocations == Allocations(total, if distribution.Some? then distribution.value else DefaultShare)
    {
      totalBudget, this.tokenizer := total, tokenizer;
      allocations := Allocations(total, if distribution.Some? then distribution.value else DefaultShare);
      consumed := NOTHING;
    }

    method AllocateAndTruncate(s: Stream, content: string, priorityBudget: Option<int>) returns (text: string)
      modifies this`consumed
      ensures text == Truncate(tokenizer, content,
        if priorityBudget.Some? then priorityBudget.value else allocations[s])
      ensures consumed == if content == "" then old(consumed) else old(consumed)[s := Count(tokenizer, text)]
    {
      if content == "" {
        return "";
      }
      var allowed := if priorityBudget.Some? then priorityBudget.value else allocations[s];
      text := Truncate(tokenizer, content, allowed);
      consumed := consumed[s := Count(tokenizer, text)];
    }

    /** One step of a compile: the text of one stream, if there is any. */
    method FillStream(i: Inputs, s: Stream) returns (section: string)
      modifies this`consumed
      ensures section == SectionOf(tokenizer, allocations, i, s)
      ensures consumed == Spend(tokenizer, allocations, old(consumed), i, s)
    {
      hide TextFor;
      section := AllocateAndTruncate(s, TextFor(i, s), None);
    }

    /** The seven streams in their order. */
    method FillStreams(i: Inputs)
      returns (objective: string, verification: string, errors: string, diff: string, repository: string,
               skills: string, memory: string)
      modifies this`consumed
      ensures consumed == ConsumedIn(tokenizer, allocations, old(consumed), i)
      ensures objective == SectionOf(tokenizer, allocations, i, TaskObjective)
      ensures verification == SectionOf(tokenizer, allocations, i, VerificationState)
      ensures errors == SectionOf(tokenizer, allocations, i, Errors)
      ensures diff == SectionOf(tokenizer, allocations, i, Diff)
      ensures repository == SectionOf(tokenizer, allocations, i, RepositoryBrain)
      ensures skills == SectionOf(tokenizer, allocations, i, Skills)
      ensures memory == SectionOf(tokenizer, allocations, i, WorkingMemory)
    {
      hide Filled, Spend, ConsumedIn, SectionOf;
      ghost var before := consumed;
      NothingFilled(tokenizer, allocations, before, i);
      FillOne(tokenizer, allocations, before, consumed, i, TaskObjective);
      objective := FillStream(i, TaskObjective);
      FillOne(tokenizer, allocations, before, consumed, i, VerificationState);
      verification := FillStream(i, VerificationState);
      FillOne(tokenizer, allocations, before, consumed, i, Errors);
      errors := FillStream(i, Errors);
      FillOne(tokenizer, allocations, before, consumed, i, Diff);
      diff := FillStream(i, Diff);
      FillOne(tokenizer, allocations, before, consumed, i, RepositoryBrain);
      repository := FillStream(i, RepositoryBrain);
      FillOne(tokenizer, allocations, before, consumed, i, Skills);
      skills := FillStream(i, Skills);
      FillOne(tokenizer, allocations, before, consumed, i, WorkingMemory);
      memory := FillStream(i, WorkingMemory);
      FilledAll(tokenizer, allocations, before, consumed, i);
    }

    method Compile(i: Inputs) returns (package: Package)
      modifies this`consumed
      ensures consumed == ConsumedIn(tokenizer, allocations, old(consumed), i)
      ensures package == PackageIn(tokenizer, allocations, old(consumed), i)
    {
      hide *;
      ghost var before := consumed;
      var objective, verification, errors, diff, repository, skills, memory := FillStreams(i);
      var sections := map[
        TaskObjective := objective, VerificationState := verification, Errors := errors, Diff := diff,
        RepositoryBrain := repository, Skills := skills, WorkingMemory := memory];
      SectionsAre(tokenizer, allocations, before, i, sections);
      package := Package(sections, consumed, Total(consumed));
    }

    /** What is left of the budget by the manager's own account. */
    method GetSurplus() returns (surplus: nat)
      ensures surplus == if totalBudget > Total(consumed) then totalBudget - Total(consumed) else 0
    {
      var totalUsed := Total(consumed);
      surplus := if totalBudget - totalUsed > 0 then totalBudget - totalUsed else 0;
    }
  }

  // ---------- Runs of compiles on one manager ----------

  ghost function ConsumedAfter(t: Tokenizer, allocations: Ledger, runs: seq<Inputs>): Ledger {
    if runs == [] then NOTHING
    else ConsumedIn(t, allocations, ConsumedAfter(t, allocations, runs[..|runs| - 1]), runs[|runs| - 1])
  }

  ghost predicate Within(consumed: Ledger, allocations: Ledger, slack: nat) {
    && (forall s: Stream :: consumed[s] <= allocations[s] + slack)
    && consumed[Conversation] == 0
  }

  lemma CompileKeepsWithin(t: Tokenizer, slack: nat, allocations: Ledger, consumed: Ledger, i: Inputs)
    requires CutsWithin(t, slack) && Within(consumed, allocations, slack)
    ensures Within(ConsumedIn(t, allocations, consumed, i), allocations, slack)
  {
    hide Truncate, Count, CutsWithin;
    forall s: Stream ensures ConsumedIn(t, allocations, consumed, i)[s] <= allocations[s] + slack {
      TruncateFits(t, slack, TextFor(i, s), allocations[s]);
    }
  }

  /** After any compiles, every stream is within its allocation, up to the slack of the encoder. */
  lemma {:induction false} RunStaysWithin(t: Tokenizer, slack: nat, allocations: Ledger, runs: seq<Inputs>)
    requires CutsWithin(t, slack)
    ensures Within(ConsumedAfter(t, allocations, runs), allocations, slack)
  {
    if runs != [] {
      var before := runs[..|runs| - 1];
      RunStaysWithin(t, slack, allocations, before);
      CompileKeepsWithin(t, slack, allocations, ConsumedAfter(t, allocations, before), runs[|runs| - 1]);
    }
  }

  function AtLeast50(n: int): nat {
    if n < 50 then 50 else n
  }

  lemma FloorOfShare(total: nat, share: real, part: nat)
    requires part as real <= total as real * share < part as real + 1.0
    ensures Allocation(total, share) == AtLeast50(part)
  {
  }

  /** The default allocations in whole numbers: each stream has its own part, and never less than 50. */
  lemma DefaultAllocations(total: nat)
    ensures var a := Allocations(total, DefaultShare);
      && a[TaskObjective] == a[VerificationState] == a[Diff] == AtLeast50(total / 10)
      && a[Errors] == AtLeast50(total * 3 / 20)
      && a[RepositoryBrain] == AtLeast50(total / 4)
      && a[Skills] == AtLeast50(total / 5)
      && a[WorkingMemory] == a[Conversation] == AtLeast50(total / 20)
  {
    FloorOfShare(total, 0.10, total / 10);
    FloorOfShare(total, 0.15, total * 3 / 20);
    FloorOfShare(total, 0.25, total / 4);
    FloorOfShare(total, 0.20, total / 5);
    FloorOfShare(total, 0.05, total / 20);
  }

  function DefaultSum(total: nat): nat {
    3 * AtLeast50(total / 10) + AtLeast50(total * 3 / 20) + AtLeast50(total / 4) + AtLeast50(total / 5)
      + AtLeast50(total / 20)
  }

  lemma DefaultSumFitsIff(total: nat)
    requires total >= 350
    ensures DefaultSum(total) <= total <==> total >= 497
  {
  }

  /** The default allocations fit the budget exactly from 497 tokens on. */
  lemma AllocationsFitIff(total: int)
    ensures PipelineTotal(Allocations(total, DefaultShare)) <= total <==> total >= 497
  {
    var a := Allocations(total, DefaultShare);
    assert forall s: Stream :: a[s] == Allocation(total, DefaultShare(s)) >= 50;
    hide Allocations, Allocation;
    if total >= 350 {
      DefaultAllocations(total);
      DefaultSumFitsIff(total);
      hide AtLeast50;
      assert PipelineTotal(a) == DefaultSum(total);
    }
  }

  /**
   With at least 497 tokens and the default shares, no run of compiles ever reports more than the
   budget, up to the slack of the encoder in each of the seven streams.
   */
  lemma ReportStaysWithinBudget(t: Tokenizer, slack: nat, total: int, runs: seq<Inputs>)
    requires CutsWithin(t, slack) && total >= 497
    ensures Total(ConsumedAfter(t, Allocations(total, DefaultShare), runs)) <= total + 7 * slack
  {
    AllocationsFitIff(total);
    hide Allocations, CutsWithin, ConsumedAfter;
    RunStaysWithin(t, slack, Allocations(total, DefaultShare), runs);
  }

  /** For an encoder of bytes: at most fourteen tokens too many. */
  lemma ByteReportStaysWithin(total: int, runs: seq<Inputs>)
    requires total >= 497
    ensures Total(ConsumedAfter(BYTES, Allocations(total, DefaultShare), runs)) <= total + 14
  {
    hide *;
    BytesAreAdditive();
    ReportStaysWithinBudget(BYTES, 2, total, runs);
  }

  /** One token for each character. */
  const CHARACTERS := Tokenizer(
    (s: string) => seq(|s|, i requires 0 <= i < |s| => s[i] as int),
    (tokens: seq<int>) => seq(|tokens|, i requires 0 <= i < |tokens| => '#'))

  lemma CharactersHaveNoSlack()
    ensures CutsWithin(CHARACTERS, 0)
  {
  }

  function Hashes(n: nat): (s: string)
    ensures |s| == n && forall i :: 0 <= i < n ==> s[i] == '#'
  {
    seq(n, _ => '#')
  }

  lemma CharactersFill(text: string, n: nat)
    requires |text| >= n > 0
    ensures Count(CHARACTERS, Truncate(CHARACTERS, text, n)) == n
  {
  }

  lemma LongTexts(total: int, long: string)
    requires |long| >= PipelineTotal(Allocations(total, DefaultShare)) && Strip(long) == long
    ensures var a := Allocations(total, DefaultShare);
      var i := Inputs(long, "", long, long, long, long, long, long);
      forall s: Stream :: s != Conversation ==> |TextFor(i, s)| >= a[s] >= 50
  {
    var a := Allocations(total, DefaultShare);
    assert forall s: Stream :: a[s] >= 50;
    hide Allocations, Strip;
    var i := Inputs(long, "", long, long, long, long, long, long);
    forall s: Stream | s != Conversation ensures |TextFor(i, s)| >= |long| && a[s] <= PipelineTotal(a) {
      match s
      case TaskObjective =>
      case VerificationState =>
      case Errors =>
      case Diff =>
      case RepositoryBrain =>
      case Skills =>
      case WorkingMemory =>
    }
  }

  /** The texts of a compile fill every stream up to its allocation. */
  ghost predicate Fills(t: Tokenizer, a: Ledger, i: Inputs) {
    forall s: Stream :: s != Conversation ==> TextFor(i, s) != "" && Count(t, SectionOf(t, a, i, s)) >= a[s]
  }

  lemma FilledReport(t: Tokenizer, a: Ledger, i: Inputs)
    requires Fills(t, a, i)
    ensures Total(ConsumedAfter(t, a, [i])) >= PipelineTotal(a)
  {
    OneCompile(t, a, i);
    hide ConsumedAfter, TextFor, SectionOf, Count;
    var after := ConsumedIn(t, a, NOTHING, i);
    forall s: Stream | s != Conversation ensures after[s] >= a[s] {
      ConsumedAt(t, a, NOTHING, i, s);
    }
    hide ConsumedIn;
  }

  lemma OneCompile(t: Tokenizer, a: Ledger, i: Inputs)
    ensures ConsumedAfter(t, a, [i]) == ConsumedIn(t, a, NOTHING, i)
  {
    assert [i][..0] == [];
    hide ConsumedIn;
    assert ConsumedAfter(t, a, []) == NOTHING;
  }

  /** With less, a single compile of texts that fill the streams reports more than the budget, for every encoder. */
  lemma SmallBudgetsAreExceeded(t: Tokenizer, total: int, i: Inputs)
    requires total < 497 && Fills(t, Allocations(total, DefaultShare), i)
    ensures Total(ConsumedAfter(t, Allocations(total, DefaultShare), [i])) > total
  {
    AllocationsFitIff(total);
    hide Allocations, ConsumedAfter, Fills, PipelineTotal;
    FilledReport(t, Allocations(total, DefaultShare), i);
  }

  /** There are such texts, for one with a token for each character. */
  lemma LongTextsFill(total: int) returns (i: Inputs)
    ensures CutsWithin(CHARACTERS, 0) && Fills(CHARACTERS, Allocations(total, DefaultShare), i)
  {
    var a := Allocations(total, DefaultShare);
    var long := Hashes(PipelineTotal(a));
    i := Inputs(long, "", long, long, long, long, long, long);
    StripKeepsStripped(long);
    CharactersHaveNoSlack();
    LongTexts(total, long);
    hide Allocations, Strip, CutsWithin, TextFor, PipelineTotal, Truncate, Count;
    forall s: Stream | s != Conversation
      ensures TextFor(i, s) != "" && Count(CHARACTERS, SectionOf(CHARACTERS, a, i, s)) >= a[s]
    {
      CharactersFill(TextFor(i, s), a[s]);
    }
  }

  /** The tokens of the sections in the package itself. */
  function TokensOf(t: Tokenizer, allocations: Ledger, i: Inputs): nat {
    Total(Own(t, allocations, i))
  }

  function Own(t: Tokenizer, allocations: Ledger, i: Inputs): Ledger {
    map s: Stream | true :: Count(t, SectionOf(t, allocations, i, s))
  }

  /**
   The reported total is the package's own exactly when no stream without text had consumption
   left over from an earlier compile; otherwise it is larger.
   */
  lemma ReportIsExactIff(t: Tokenizer, allocations: Ledger, consumed: Ledger, i: Inputs)
    ensures TokensOf(t, allocations, i) <= PackageIn(t, allocations, consumed, i).totalTokens
    ensures PackageIn(t, allocations, consumed, i).totalTokens == TokensOf(t, allocations, i)
      <==> forall s: Stream :: TextFor(i, s) == "" ==> consumed[s] == 0
  {
    var after := ConsumedIn(t, allocations, consumed, i);
    var own, rest := Own(t, allocations, i), LeftOver(consumed, i);
    forall s: Stream ensures after[s] == own[s] + rest[s] {
      assert TextFor(i, s) == "" ==> SectionOf(t, allocations, i, s) == "";
      hide SectionOf, TextFor;
    }
    assert forall s: Stream :: rest[s] == if TextFor(i, s) == "" then consumed[s] else 0;
    hide ConsumedIn, SectionOf, TextFor, Own, LeftOver;
    TotalsAdd(after, own, rest);
    TotalIsZeroIff(rest);
  }

  /** It happens, for every encoder: a compile whose diff has tokens, then one without a diff. */
  lemma OldDiffIsReported(t: Tokenizer, a: Ledger, first: Inputs)
    requires TextFor(first, Diff) != "" && Count(t, SectionOf(t, a, first, Diff)) > 0
    ensures var second := first.(diff := "");
      PackageIn(t, a, ConsumedAfter(t, a, [first]), second).totalTokens > TokensOf(t, a, second)
  {
    var second := first.(diff := "");
    assert TextFor(second, Diff) == "";
    hide *;
    OneCompile(t, a, first);
    ConsumedAt(t, a, NOTHING, first, Diff);
    ReportIsExactIff(t, a, ConsumedAfter(t, a, [first]), second);
  }

  /** The consumption a compile leaves as it found it. */
  function LeftOver(consumed: Ledger, i: Inputs): Ledger {
    map s: Stream | true :: if TextFor(i, s) == "" then consumed[s] else 0
  }

  lemma TotalsAdd(a: Ledger, b: Ledger, c: Ledger)
    requires forall s: Stream :: a[s] == b[s] + c[s]
    ensures Total(a) == Total(b) + Total(c)
  {
  }

  lemma TotalIsZeroIff(l: Ledger)
    ensures Total(l) == 0 <==> forall s: Stream :: l[s] == 0
  {
    if Total(l) == 0 {
      forall s: Stream ensures l[s] == 0 {
        match s
        case TaskObjective =>
        case VerificationState =>
        case Errors =>
        case Diff =>
        case RepositoryBrain =>
        case Skills =>
        case WorkingMemory =>
        case Conversation =>
      }
    }
  }
}
