/**
 The tool lifecycle: DECLARED, DISCOVERED, HEALTHY, AUTHORIZED, EXECUTABLE, and three failure
 states. A machine is a table of tools by name; what each operation does to the table is
 given as a function on `Machine` values, and the class implements it on shared objects.

 Each tool carries a ghost history, the steps since its last declaration. The rule the
 machine is for: an EXECUTABLE tool has passed a health probe and then been authorized, and
 nothing since has reset either.
 */
module ToolMachine {
  import opened Wrappers
  import opened Text

  datatype Life =
    | Declared | Discovered | Healthy | Authorized | Executable
    | Missing | Unhealthy | Unauthorized

  datatype Reason =
    | NotDiscovered | ProbeFailed | CheckerFailed | NotAllowed | PermissionDenied | NoBrowserServer

  /** A step in a tool's history since its declaration. */
  datatype Event = ProbePassed | Moved(to: Life)

  datatype Tool = Tool(
    name: string,
    state: Life,
    source: string,
    error: Option<Reason>,
    hasChecker: bool,
    history: seq<Event>)

  type Machine = map<string, Tool>

  /** What the outside world answers when a tool is probed. */
  datatype Probe = Probe(primary: bool, checker: bool)

  // ---------- The operations, on values ----------

  function NewTool(name: string, source: string): Tool {
    Tool(name, Declared, source, None, false, [])
  }

  predicate ClearsError(to: Life) {
    to == Healthy || to == Authorized || to == Executable
  }

  function Move(t: Tool, to: Life, reason: Option<Reason>): Tool {
    var error := if reason.Some? then reason else if ClearsError(to) then None else t.error;
    t.(state := to, error := error, history := t.history + [Moved(to)])
  }

  function DeclareIn(m: Machine, name: string, source: string): Machine {
    m[Strip(name) := NewTool(Strip(name), source)]
  }

  function TransitionIn(m: Machine, name: string, to: Life, reason: Option<Reason>): Machine {
    var k := Strip(name);
    var t := if k in m then m[k] else NewTool(k, "builtin");
    m[k := Move(t, to, reason)]
  }

  function DiscoverIn(m: Machine, name: string, source: string): Machine {
    var k := Strip(name);
    TransitionIn(if k in m then m else DeclareIn(m, k, source), k, Discovered, None)
  }

  predicate Probeable(m: Machine, k: string) {
    k in m && m[k].state != Declared && m[k].state != Missing
  }

  predicate ViaServer(t: Tool) {
    t.source == "mcp" || Contains(t.name, "browser")
  }

  predicate Passes(t: Tool, probe: Probe) {
    probe.primary && (t.hasChecker ==> probe.checker)
  }

  predicate VerifyOk(m: Machine, name: string, probe: Probe) {
    Probeable(m, Strip(name)) && Passes(m[Strip(name)], probe)
  }

  function VerifyIn(m: Machine, name: string, probe: Probe): Machine {
    var k := Strip(name);
    if !Probeable(m, k) then m
    else if !probe.primary then
      TransitionIn(m, k, if ViaServer(m[k]) then Missing else Unhealthy, Some(ProbeFailed))
    else if m[k].hasChecker && !probe.checker then
      TransitionIn(m, k, Unhealthy, Some(CheckerFailed))
    else
      TransitionIn(m[k := m[k].(history := m[k].history + [ProbePassed])], k, Healthy, None)
  }

  function MarkHealthyIn(m: Machine, name: string, probe: Probe): Machine {
    var m' := VerifyIn(m, Strip(name), probe);
    if Strip(name) in m' then m' else DeclareIn(m', Strip(name), "builtin")
  }

  function PromoteIn(m: Machine, name: string): Machine {
    var k := Strip(name);
    if k !in m then DeclareIn(m, k, "builtin")
    else if m[k].state != Authorized then m
    else TransitionIn(m, k, Executable, None)
  }

  function WithChecker(m: Machine, k: string, hasChecker: bool): Machine
    requires k in m
  {
    if hasChecker then m[k := m[k].(hasChecker := true)] else m
  }

  function RegisterIn(
      m: Machine, name: string, source: string, isAuthorized: bool, hasChecker: bool, probe: Probe): Machine
  {
    var k := Strip(name);
    var m1 := DeclareIn(m, k, source);
    StripIdempotent(name);
    var m2 := TransitionIn(WithChecker(m1, k, hasChecker), k, Discovered, None);
    var m3 := VerifyIn(m2, k, probe);
    if VerifyOk(m2, k, probe) && isAuthorized then
      TransitionIn(TransitionIn(m3, k, Authorized, None), k, Executable, None)
    else m3
  }

  predicate SkipsProbe(s: Life) {
    s == Healthy || s == Authorized || s == Executable
  }

  function AuthorizeAlias(name: string): string {
    Replace(Replace(Replace(name, "filesystem.", ""), "terminal.", ""), "codebase.", "")
  }

  predicate ListAllows(k: string, allowed: Option<set<string>>) {
    allowed.Some? ==> k in allowed.value || AuthorizeAlias(k) in allowed.value
  }

  function KnownIn(m: Machine, k: string): Machine {
    if k in m then m else DiscoverIn(DeclareIn(m, k, "builtin"), k, "builtin")
  }

  /** A tool that is not yet cleared by its state is probed first. */
  predicate Cleared(m: Machine, k: string, probe: Probe) {
    (k in m && SkipsProbe(m[k].state)) || VerifyOk(m, k, probe)
  }

  function ClearIn(m: Machine, k: string, probe: Probe): Machine {
    if k in m && SkipsProbe(m[k].state) then m else VerifyIn(m, k, probe)
  }

  function GrantIn(m: Machine, k: string, autoPromote: bool): Machine {
    var m' := TransitionIn(m, k, Authorized, None);
    if autoPromote then TransitionIn(m', k, Executable, None) else m'
  }

  function DecideIn(
      m: Machine, k: string, allowed: Option<set<string>>, permission: Option<bool>, autoPromote: bool)
    : (Machine, bool)
  {
    if !ListAllows(k, allowed) then (TransitionIn(m, k, Unauthorized, Some(NotAllowed)), false)
    else if permission == Some(false) then (TransitionIn(m, k, Unauthorized, Some(PermissionDenied)), false)
    else (GrantIn(m, k, autoPromote), true)
  }

  /** The table and the answer of an authorization request; `permission` is the optional checker's answer. */
  function AuthorizeIn(
      m: Machine, name: string, allowed: Option<set<string>>, permission: Option<bool>,
      autoPromote: bool, probe: Probe): (Machine, bool)
  {
    var k := Strip(name);
    var m1 := KnownIn(m, k);
    var m2 := ClearIn(m1, k, probe);
    if !Cleared(m1, k, probe) then (m2, false) else DecideIn(m2, k, allowed, permission, autoPromote)
  }

  /** Names reported by a registry or server, one after the other. */
  function ReportIn(m: Machine, names: seq<string>, source: string): Machine
    decreases |names|
  {
    if names == [] then m
    else
      var m1 := if names[0] in m then m else DeclareIn(m, names[0], source);
      ReportIn(TransitionIn(m1, names[0], Discovered, None), names[1..], source)
  }

  /** Tools still only declared and reported by nobody become discovered or missing. */
  function SweepIn(m: Machine, reported: set<string>, resolvable: set<string>): Machine {
    map k | k in m :: Swept(m[k], k, reported, resolvable)
  }

  function Swept(t: Tool, k: string, reported: set<string>, resolvable: set<string>): Tool {
    if t.state != Declared || k in reported then t
    else if k in resolvable then Move(t, Discovered, None)
    else Move(t, Missing, Some(NotDiscovered))
  }

  /** What discovery finds: registry names, server names (empty names skipped), known builtins. */
  datatype World = World(registry: seq<string>, servers: seq<string>, resolvable: set<string>)

  function NonEmpty(names: seq<string>): seq<string> {
    if names == [] then []
    else if names[0] == "" then NonEmpty(names[1..]) else [names[0]] + NonEmpty(names[1..])
  }

  function Reported(w: World): set<string> {
    (set n | n in w.registry) + (set n | n in NonEmpty(w.servers))
  }

  function DiscoverToolsIn(m: Machine, w: World): Machine {
    SweepIn(ReportIn(ReportIn(m, w.registry, "builtin"), NonEmpty(w.servers), "mcp"), Reported(w), w.resolvable)
  }

  /** The router's treatment of one browser tool. */
  function BrowserIn(m: Machine, name: string, available: bool, probe: Probe): Machine {
    var m1 := if name in m then m else DeclareIn(m, name, "browser_mcp");
    if !available then TransitionIn(m1, name, Missing, Some(NoBrowserServer))
    else
      var m2 := TransitionIn(m1, name, Discovered, None);
      var m3 := VerifyIn(m2, name, probe);
      if VerifyOk(m2, name, probe)
      then TransitionIn(TransitionIn(m3, name, Authorized, None), name, Executable, None)
      else m3
  }

  function ExecutableNames(m: Machine): set<string> {
    set k | k in m && m[k].state == Executable
  }

  // ---------- Provenance ----------

  /** 2: probed, then authorized, neither undone since; 1: probed; 0: neither. */
  function Stage(history: seq<Event>): nat {
    if history == [] then 0
    else
      var before := Stage(history[..|history| - 1]);
      match history[|history| - 1]
      case ProbePassed => 1
      case Moved(Authorized) => if before >= 1 then 2 else 0
      case Moved(Unauthorized) => if before >= 1 then 1 else 0
      case Moved(Healthy) => before
      case Moved(Executable) => before
      case Moved(_) => 0
  }

  /** An event that starts the lifecycle over. */
  predicate Resets(e: Event) {
    e == Moved(Declared) || e == Moved(Discovered) || e == Moved(Missing) || e == Moved(Unhealthy)
  }

  /** Event `i` is a passed probe, the last one, and nothing after it starts over. */
  ghost predicate ProbedAt(h: seq<Event>, i: nat) {
    i < |h| && h[i] == ProbePassed && forall l :: i < l < |h| ==> h[l] != ProbePassed && !Resets(h[l])
  }

  /** Event `j` is an authorization that is not withdrawn later. */
  ghost predicate AuthorizedAt(h: seq<Event>, j: nat) {
    j < |h| && h[j] == Moved(Authorized) && forall l :: j < l < |h| ==> h[l] != Moved(Unauthorized)
  }

  ghost predicate Earned(h: seq<Event>) {
    exists i: nat, j: nat :: i < j && ProbedAt(h, i) && AuthorizedAt(h, j)
  }

  lemma {:induction false} StageProbed(h: seq<Event>)
    ensures Stage(h) >= 1 <==> exists i: nat :: ProbedAt(h, i)
  {
    if h != [] {
      var n := |h| - 1;
      var before := h[..n];
      StageProbed(before);
      if h[n] == ProbePassed {
        assert ProbedAt(h, n);
      } else {
        forall i: nat ensures ProbedAt(h, i) <==> ProbedAt(before, i) && !Resets(h[n]) {
          assert forall l :: i < l < |h| ==> l == n || h[l] == before[l];
        }
      }
    }
  }

  lemma {:induction false} StageTwoHas(h: seq<Event>)
    requires Stage(h) == 2
    ensures Earned(h)
  {
    var n := |h| - 1;
    var before := h[..n];
    if h[n] == Moved(Authorized) {
      StageProbed(h);
      var i: nat :| ProbedAt(h, i);
      assert i < n && AuthorizedAt(h, n);
    } else {
      StageTwoHas(before);
      var i: nat, j: nat :| i < j && ProbedAt(before, i) && AuthorizedAt(before, j);
      assert ProbedAt(h, i) && AuthorizedAt(h, j);
    }
  }

  lemma {:induction false} EarnedIsStageTwo(h: seq<Event>, i: nat, j: nat)
    requires i < j && ProbedAt(h, i) && AuthorizedAt(h, j)
    ensures Stage(h) == 2
  {
    var n := |h| - 1;
    var before := h[..n];
    assert ProbedAt(before, i);
    StageProbed(before);
    if j < n {
      assert AuthorizedAt(before, j);
      EarnedIsStageTwo(before, i, j);
    }
  }

  /** Stage two means what it says: a probe passed, an authorization followed, and both still stand. */
  lemma StageTwoIsEarned(h: seq<Event>)
    ensures Stage(h) == 2 <==> Earned(h)
  {
    hide Stage, ProbedAt, AuthorizedAt;
    if Stage(h) == 2 {
      StageTwoHas(h);
    }
    if Earned(h) {
      var i: nat, j: nat :| i < j && ProbedAt(h, i) && AuthorizedAt(h, j);
      EarnedIsStageTwo(h, i, j);
    }
  }

  // ---------- The invariant ----------

  /** The stage a tool is at, told from its state alone. */
  function StageFor(s: Life): nat {
    match s
    case Authorized => 2
    case Executable => 2
    case Healthy => 1
    case Unauthorized => 1
    case _ => 0
  }

  /** The rule for one tool: its state has been earned, and its error goes with it. */
  ghost predicate FollowsRule(k: string, t: Tool) {
    && t.name == k && Strip(k) == k
    && (t.state == Healthy ==> Stage(t.history) >= 1)
    && (t.state == Authorized || t.state == Executable ==> Stage(t.history) == 2)
    && (SkipsProbe(t.state) ==> t.error == None)
    && (t.state == Missing || t.state == Unhealthy || t.state == Unauthorized ==> t.error.Some?)
  }

  /** What every operation keeps: the rule, and a stage that can be told from the state. */
  ghost predicate ToolOk(k: string, t: Tool) {
    FollowsRule(k, t) && Stage(t.history) == StageFor(t.state)
  }

  ghost predicate MachineOk(m: Machine) {
    forall k :: k in m ==> ToolOk(k, m[k])
  }

  ghost predicate MachineFollowsRule(m: Machine) {
    forall k :: k in m ==> FollowsRule(k, m[k])
  }

  lemma StageAfter(h: seq<Event>, e: Event)
    ensures (h + [e])[..|h|] == h
  {
  }

  /** A move may not end in success with a reason, or in failure without one. */
  predicate ReasonFits(t: Tool, to: Life, reason: Option<Reason>) {
    && (SkipsProbe(to) ==> reason == None)
    && (to == Missing || to == Unhealthy || to == Unauthorized ==> reason.Some? || t.error.Some?)
  }

  /** A move whose target has been earned: always for the failures and fresh starts, else from these states. */
  predicate MoveAllowed(t: Tool, to: Life, reason: Option<Reason>) {
    && (to == Healthy || to == Authorized ==> t.state in {Healthy, Unauthorized, Authorized, Executable})
    && (to == Executable ==> t.state in {Authorized, Executable})
    && ReasonFits(t, to, reason)
  }

  /** The moves that do not skip or forget a step either, the only ones the operations make. */
  predicate MoveInOrder(t: Tool, to: Life, reason: Option<Reason>) {
    && MoveAllowed(t, to, reason)
    && (to == Healthy ==> t.state in {Healthy, Unauthorized})
    && (to == Unauthorized ==> t.state in {Healthy, Unauthorized, Authorized, Executable})
  }

  lemma MoveKeepsIff(k: string, t: Tool, to: Life, reason: Option<Reason>)
    requires ToolOk(k, t)
    ensures FollowsRule(k, Move(t, to, reason)) <==> MoveAllowed(t, to, reason)
    ensures ToolOk(k, Move(t, to, reason)) <==> MoveInOrder(t, to, reason)
  {
    hide Strip;
    StageAfter(t.history, Moved(to));
  }

  /** The entry a raw transition moves: the known one, or a new one. */
  function Target(m: Machine, name: string): Tool {
    if Strip(name) in m then m[Strip(name)] else NewTool(Strip(name), "builtin")
  }

  lemma TargetIsOk(m: Machine, name: string)
    requires MachineOk(m)
    ensures ToolOk(Strip(name), Target(m, name))
  {
    hide Strip;
    StripIdempotent(name);
  }

  lemma TransitionIsMove(m: Machine, name: string, to: Life, reason: Option<Reason>)
    ensures TransitionIn(m, name, to, reason) == m[Strip(name) := Move(Target(m, name), to, reason)]
  {
    hide Strip, Move;
  }

  /** When one entry of a table in order is replaced, that entry decides. */
  lemma OneEntryDecides(m: Machine, k: string, t: Tool)
    requires MachineOk(m)
    ensures MachineOk(m[k := t]) <==> ToolOk(k, t)
    ensures MachineFollowsRule(m[k := t]) <==> FollowsRule(k, t)
  {
    assert forall x :: x in m && x != k ==> ToolOk(x, m[x]) && FollowsRule(x, m[x]);
    hide FollowsRule, Stage, StageFor;
    assert m[k := t][k] == t;
  }

  /**
   A raw transition keeps the rule exactly when the state it leaves has already earned the one it
   goes to: HEALTHY and AUTHORIZED from any state that a passed probe leads to, EXECUTABLE only from
   AUTHORIZED or EXECUTABLE. It keeps stage and state in step exactly when the move is in order.
   */
  lemma TransitionKeepsIff(m: Machine, name: string, to: Life, reason: Option<Reason>)
    requires MachineOk(m)
    ensures MachineFollowsRule(TransitionIn(m, name, to, reason)) <==> MoveAllowed(Target(m, name), to, reason)
    ensures MachineOk(TransitionIn(m, name, to, reason)) <==> MoveInOrder(Target(m, name), to, reason)
  {
    hide *;
    TargetIsOk(m, name);
    TransitionIsMove(m, name, to, reason);
    MoveKeepsIff(Strip(name), Target(m, name), to, reason);
    OneEntryDecides(m, Strip(name), Move(Target(m, name), to, reason));
  }

  /** The public `transition` can break the rule: it makes an unknown tool executable. */
  lemma RawTransitionBreaksRule()
    ensures MachineOk(map[]) && !MachineFollowsRule(TransitionIn(map[], "x", Executable, None))
  {
    TransitionKeepsIff(map[], "x", Executable, None);
  }

  lemma DeclareKeeps(m: Machine, name: string, source: string)
    requires MachineOk(m)
    ensures MachineOk(DeclareIn(m, name, source))
  {
    StripIdempotent(name);
  }

  lemma DiscoverKeeps(m: Machine, name: string, source: string)
    requires MachineOk(m)
    ensures MachineOk(DiscoverIn(m, name, source))
  {
    var k := Strip(name);
    StripIdempotent(name);
    DeclareKeeps(m, k, source);
    TransitionKeepsIff(if k in m then m else DeclareIn(m, k, source), k, Discovered, None);
  }

  lemma PassKeeps(m: Machine, k: string, probe: Probe)
    requires MachineOk(m) && Strip(k) == k && VerifyOk(m, k, probe)
    ensures var m' := VerifyIn(m, k, probe);
      && MachineOk(m') && m'.Keys == m.Keys
      && (forall x :: x in m && x != k ==> m'[x] == m[x])
      && m'[k].state == Healthy && Stage(m'[k].history) == 1
  {
    hide Strip;
    assert ToolOk(k, m[k]);
    var t := m[k].(history := m[k].history + [ProbePassed]);
    StageAfter(m[k].history, ProbePassed);
    assert Stage(t.history) == 1;
    StageAfter(t.history, Moved(Healthy));
    assert Stage(Move(t, Healthy, None).history) == 1;
    assert ToolOk(k, Move(t, Healthy, None));
    assert VerifyIn(m, k, probe) == m[k := Move(t, Healthy, None)];
  }

  lemma FailKeeps(m: Machine, k: string, probe: Probe)
    requires MachineOk(m) && Strip(k) == k && Probeable(m, k) && !VerifyOk(m, k, probe)
    ensures var m' := VerifyIn(m, k, probe);
      && MachineOk(m') && m'.Keys == m.Keys
      && (forall x :: x in m && x != k ==> m'[x] == m[x])
      && (m'[k].state == Missing || m'[k].state == Unhealthy)
  {
    hide Strip, Stage;
    var to := if probe.primary || !ViaServer(m[k]) then Unhealthy else Missing;
    TransitionKeepsIff(m, k, to, Some(if probe.primary then CheckerFailed else ProbeFailed));
  }

  /** A probe touches only its own tool; a passed one makes it healthy and starts its proof over. */
  lemma VerifyKeeps(m: Machine, name: string, probe: Probe)
    requires MachineOk(m)
    ensures var m' := VerifyIn(m, name, probe); var k := Strip(name);
      && MachineOk(m')
      && m'.Keys == m.Keys
      && (forall x :: x in m && x != k ==> m'[x] == m[x])
      && (VerifyOk(m, name, probe) ==> m'[k].state == Healthy && Stage(m'[k].history) == 1)
      && (!VerifyOk(m, name, probe) && k in m ==> m'[k].state in {Declared, Missing, Unhealthy})
  {
    var k := Strip(name);
    StripIdempotent(name);
    hide Strip, MachineOk, TransitionIn;
    assert VerifyIn(m, k, probe) == VerifyIn(m, name, probe);
    if Probeable(m, k) {
      if VerifyOk(m, k, probe) {
        PassKeeps(m, k, probe);
      } else {
        FailKeeps(m, k, probe);
      }
    }
  }

  lemma PromoteKeeps(m: Machine, name: string)
    requires MachineOk(m)
    ensures MachineOk(PromoteIn(m, name))
  {
    var k := Strip(name);
    StripIdempotent(name);
    DeclareKeeps(m, k, "builtin");
    TransitionKeepsIff(m, k, Executable, None);
  }

  lemma MarkHealthyKeeps(m: Machine, name: string, probe: Probe)
    requires MachineOk(m)
    ensures MachineOk(MarkHealthyIn(m, name, probe))
  {
    VerifyKeeps(m, Strip(name), probe);
    DeclareKeeps(VerifyIn(m, Strip(name), probe), Strip(name), "builtin");
  }

  ghost predicate SameElsewhere(m: Machine, m': Machine, k: string) {
    m'.Keys == m.Keys + {k} && forall x :: x in m && x != k ==> m'[x] == m[x]
  }

  lemma TransitionTouches(m: Machine, k: string, to: Life, reason: Option<Reason>)
    requires Strip(k) == k
    ensures SameElsewhere(m, TransitionIn(m, k, to, reason), k) && TransitionIn(m, k, to, reason)[k].state == to
  {
  }

  lemma EarnedStates(m: Machine, k: string)
    requires MachineOk(m) && k in m && Stage(m[k].history) >= 1
    ensures Strip(k) == k && m[k].state in {Healthy, Unauthorized, Authorized, Executable}
  {
    assert ToolOk(k, m[k]);
  }

  /** Authorizing and promoting a tool that has just been probed. */
  lemma GrantKeeps(m: Machine, k: string)
    requires MachineOk(m) && k in m && Stage(m[k].history) >= 1
    ensures var m1 := TransitionIn(m, k, Authorized, None);
      && MachineOk(m1) && m1[k].state == Authorized && m1.Keys == m.Keys
      && (forall x :: x in m && x != k ==> m1[x] == m[x])
      && var m2 := TransitionIn(m1, k, Executable, None);
      && MachineOk(m2) && m2[k].state == Executable && m2.Keys == m.Keys
      && (forall x :: x in m && x != k ==> m2[x] == m[x])
  {
    hide MachineOk, TransitionIn, Stage, Strip;
    EarnedStates(m, k);
    var m1 := MoveOn(m, k, Authorized);
    var m2 := MoveOn(m1, k, Executable);
  }

  lemma MoveOn(m: Machine, k: string, to: Life) returns (m': Machine)
    requires MachineOk(m) && k in m && Strip(k) == k && MoveInOrder(m[k], to, None)
    ensures m' == TransitionIn(m, k, to, None) && MachineOk(m') && SameElsewhere(m, m', k) && m'[k].state == to
  {
    hide MachineOk, TransitionIn, MoveInOrder, Strip;
    m' := TransitionIn(m, k, to, None);
    TransitionKeepsIff(m, k, to, None);
    TransitionTouches(m, k, to, None);
  }

  lemma RegisterKeeps(
      m: Machine, name: string, source: string, isAuthorized: bool, hasChecker: bool, probe: Probe)
    requires MachineOk(m)
    ensures MachineOk(RegisterIn(m, name, source, isAuthorized, hasChecker, probe))
  {
    var k := Strip(name);
    StripIdempotent(name);
    DeclareKeeps(m, k, source);
    var m1 := WithChecker(DeclareIn(m, k, source), k, hasChecker);
    assert MachineOk(m1);
    TransitionKeepsIff(m1, k, Discovered, None);
    var m2 := TransitionIn(m1, k, Discovered, None);
    VerifyKeeps(m2, k, probe);
    if VerifyOk(m2, k, probe) {
      GrantKeeps(VerifyIn(m2, k, probe), k);
    }
  }

  lemma KnownKeeps(m: Machine, k: string)
    requires MachineOk(m) && Strip(k) == k
    ensures var m' := KnownIn(m, k);
      MachineOk(m') && m'.Keys == m.Keys + {k} && forall x :: x in m && x != k ==> m'[x] == m[x]
  {
    hide MachineOk, TransitionIn, Strip;
    if k !in m {
      var declared := DeclareIn(m, k, "builtin");
      DeclareKeeps(m, k, "builtin");
      DiscoverKeeps(declared, k, "builtin");
      TransitionTouches(declared, k, Discovered, None);
    }
  }

  lemma ClearKeeps(m: Machine, k: string, probe: Probe)
    requires MachineOk(m) && k in m
    ensures var m' := ClearIn(m, k, probe);
      && MachineOk(m') && m'.Keys == m.Keys
      && (forall x :: x in m && x != k ==> m'[x] == m[x])
      && (Cleared(m, k, probe) ==> Stage(m'[k].history) >= 1)
      && (!Cleared(m, k, probe) ==> !SkipsProbe(m'[k].state))
  {
    assert ToolOk(k, m[k]);
    VerifyKeeps(m, k, probe);
  }

  lemma PromoteAuthorized(m: Machine, k: string)
    requires MachineOk(m) && k in m && Strip(k) == k && m[k].state == Authorized
    ensures var m' := PromoteIn(m, k);
      MachineOk(m') && SameElsewhere(m, m', k) && m'[k].state == Executable
  {
    PromoteKeeps(m, k);
  }

  lemma RefuseKeeps(m: Machine, k: string, reason: Reason)
    requires MachineOk(m) && k in m && Stage(m[k].history) >= 1
    ensures var m' := TransitionIn(m, k, Unauthorized, Some(reason));
      MachineOk(m') && SameElsewhere(m, m', k) && m'[k].state == Unauthorized
  {
    TransitionKeepsIff(m, k, Unauthorized, Some(reason));
    assert ToolOk(k, m[k]);
  }

  /** A cleared tool is granted or refused by the list and the permission checker. */
  lemma DecideKeeps(
      m: Machine, k: string, allowed: Option<set<string>>, permission: Option<bool>, autoPromote: bool)
    requires MachineOk(m) && k in m && Stage(m[k].history) >= 1
    ensures var (m', ok) := DecideIn(m, k, allowed, permission, autoPromote);
      && MachineOk(m') && SameElsewhere(m, m', k)
      && (ok <==> ListAllows(k, allowed) && permission != Some(false))
      && (if ok then m'[k].state == (if autoPromote then Executable else Authorized)
          else m'[k].state == Unauthorized)
  {
    hide ListAllows, TransitionIn, MachineOk, Stage, Strip;
    if !ListAllows(k, allowed) {
      RefuseKeeps(m, k, NotAllowed);
    } else if permission == Some(false) {
      RefuseKeeps(m, k, PermissionDenied);
    } else {
      GrantKeeps(m, k);
    }
  }

  /**
   What an authorization request does: it touches only its own tool, and it answers yes exactly
   when the tool is cleared by state or by a probe, is on the list, and is not refused.
   */
  lemma AuthorizeKeeps(
      m: Machine, name: string, allowed: Option<set<string>>, permission: Option<bool>,
      autoPromote: bool, probe: Probe)
    requires MachineOk(m)
    ensures var (m', ok) := AuthorizeIn(m, name, allowed, permission, autoPromote, probe); var k := Strip(name);
      && MachineOk(m') && SameElsewhere(m, m', k)
      && (ok <==> Cleared(KnownIn(m, k), k, probe) && ListAllows(k, allowed) && permission != Some(false))
      && (ok ==> m'[k].state == if autoPromote then Executable else Authorized)
      && (!ok ==> !SkipsProbe(m'[k].state))
  {
    var k := Strip(name);
    StripIdempotent(name);
    KnownKeeps(m, k);
    var m1 := KnownIn(m, k);
    ClearKeeps(m1, k, probe);
    var m2 := ClearIn(m1, k, probe);
    assert SameElsewhere(m, m2, k);
    if Cleared(m1, k, probe) {
      DecideKeeps(m2, k, allowed, permission, autoPromote);
    }
  }

  lemma {:induction false} ReportKeeps(m: Machine, names: seq<string>, source: string)
    requires MachineOk(m)
    ensures MachineOk(ReportIn(m, names, source))
    decreases |names|
  {
    if names != [] {
      DeclareKeeps(m, names[0], source);
      var m1 := if names[0] in m then m else DeclareIn(m, names[0], source);
      TransitionKeepsIff(m1, names[0], Discovered, None);
      ReportKeeps(TransitionIn(m1, names[0], Discovered, None), names[1..], source);
    }
  }

  lemma SweepKeeps(m: Machine, reported: set<string>, resolvable: set<string>)
    requires MachineOk(m)
    ensures MachineOk(SweepIn(m, reported, resolvable))
  {
    forall k | k in m ensures ToolOk(k, Swept(m[k], k, reported, resolvable)) {
      MoveKeepsIff(k, m[k], Discovered, None);
      MoveKeepsIff(k, m[k], Missing, Some(NotDiscovered));
    }
  }

  lemma DiscoverToolsKeeps(m: Machine, w: World)
    requires MachineOk(m)
    ensures MachineOk(DiscoverToolsIn(m, w))
  {
    ReportKeeps(m, w.registry, "builtin");
    var m1 := ReportIn(m, w.registry, "builtin");
    ReportKeeps(m1, NonEmpty(w.servers), "mcp");
    SweepKeeps(ReportIn(m1, NonEmpty(w.servers), "mcp"), Reported(w), w.resolvable);
  }

  lemma BrowserKeeps(m: Machine, name: string, available: bool, probe: Probe)
    requires MachineOk(m)
    ensures MachineOk(BrowserIn(m, name, available, probe))
  {
    hide VerifyIn, VerifyOk, MachineOk, Strip, Stage;
    var k := Strip(name);
    StripIdempotent(name);
    DeclareKeeps(m, name, "browser_mcp");
    var m1 := if name in m then m else DeclareIn(m, name, "browser_mcp");
    TransitionKeepsIff(m1, name, Missing, Some(NoBrowserServer));
    TransitionKeepsIff(m1, name, Discovered, None);
    var m2 := TransitionIn(m1, name, Discovered, None);
    VerifyKeeps(m2, name, probe);
    if VerifyOk(m2, name, probe) {
      GrantKeeps(VerifyIn(m2, name, probe), k);
    }
  }
}
