/** Sequences of operations on a new tool machine: what every executable tool has behind it. */
module ToolRuns {
  import opened ToolMachine
  import opened Wrappers

  /** The public operations and the router's browser step, with what the outside world answers. */
  datatype Op =
    | DeclareOp(name: string, source: string)
    | DiscoverOp(name: string, source: string)
    | MarkHealthyOp(name: string, probe: Probe)
    | VerifyOp(name: string, probe: Probe)
    | PromoteOp(name: string)
    | RegisterOp(name: string, source: string, isAuthorized: bool, hasChecker: bool, probe: Probe)
    | AuthorizeOp(name: string, allowed: Option<set<string>>, permission: Option<bool>, autoPromote: bool, probe: Probe)
    | DiscoverToolsOp(world: World)
    | BrowserOp(name: string, available: bool, probe: Probe)

  function AuthorizeOnly(
      m: Machine, name: string, allowed: Option<set<string>>, permission: Option<bool>,
      autoPromote: bool, probe: Probe): Machine
  {
    AuthorizeIn(m, name, allowed, permission, autoPromote, probe).0
  }

  function Apply(m: Machine, op: Op): Machine {
    match op
    case DeclareOp(name, source) => DeclareIn(m, name, source)
    case DiscoverOp(name, source) => DiscoverIn(m, name, source)
    case MarkHealthyOp(name, probe) => MarkHealthyIn(m, name, probe)
    case VerifyOp(name, probe) => VerifyIn(m, name, probe)
    case PromoteOp(name) => PromoteIn(m, name)
    case RegisterOp(name, source, auth, checker, probe) => RegisterIn(m, name, source, auth, checker, probe)
    case AuthorizeOp(name, allowed, permission, auto, probe) =>
      AuthorizeOnly(m, name, allowed, permission, auto, probe)
    case DiscoverToolsOp(w) => DiscoverToolsIn(m, w)
    case BrowserOp(name, available, probe) => BrowserIn(m, name, available, probe)
  }

  function ApplyAll(m: Machine, ops: seq<Op>): Machine {
    if ops == [] then m else Apply(ApplyAll(m, ops[..|ops| - 1]), ops[|ops| - 1])
  }

  lemma AuthorizeOnlyKeeps(
      m: Machine, name: string, allowed: Option<set<string>>, permission: Option<bool>,
      autoPromote: bool, probe: Probe)
    requires MachineOk(m)
    ensures MachineOk(AuthorizeOnly(m, name, allowed, permission, autoPromote, probe))
  {
    AuthorizeKeeps(m, name, allowed, permission, autoPromote, probe);
  }

  lemma ApplyKeeps(m: Machine, op: Op)
    requires MachineOk(m)
    ensures MachineOk(Apply(m, op))
  {
    hide DeclareIn, DiscoverIn, MarkHealthyIn, VerifyIn, PromoteIn, RegisterIn, AuthorizeOnly;
    hide DiscoverToolsIn, BrowserIn, MachineOk;
    match op
    case DeclareOp(name, source) => DeclareKeeps(m, name, source);
    case DiscoverOp(name, source) => DiscoverKeeps(m, name, source);
    case MarkHealthyOp(name, probe) => MarkHealthyKeeps(m, name, probe);
    case VerifyOp(name, probe) => VerifyKeeps(m, name, probe);
    case PromoteOp(name) => PromoteKeeps(m, name);
    case RegisterOp(name, source, auth, checker, probe) => RegisterKeeps(m, name, source, auth, checker, probe);
    case AuthorizeOp(name, allowed, permission, auto, probe) =>
      AuthorizeOnlyKeeps(m, name, allowed, permission, auto, probe);
    case DiscoverToolsOp(w) => DiscoverToolsKeeps(m, w);
    case BrowserOp(name, available, probe) => BrowserKeeps(m, name, available, probe);
  }

  lemma {:induction false} RunKeeps(ops: seq<Op>)
    ensures MachineOk(ApplyAll(map[], ops))
  {
    if ops != [] {
      RunKeeps(ops[..|ops| - 1]);
      ApplyKeeps(ApplyAll(map[], ops[..|ops| - 1]), ops[|ops| - 1]);
    }
  }

  /**
   After any sequence of operations on a new machine, every key is its tool's name, and every
   executable tool has earned it: a passed probe and a later authorization, both still standing.
   */
  lemma ExecutableIsEarned(ops: seq<Op>, k: string)
    requires k in ApplyAll(map[], ops)
    ensures var t := ApplyAll(map[], ops)[k];
      && t.name == k
      && (t.state == Executable ==> Earned(t.history) && t.error == None)
  {
    RunKeeps(ops);
    StageTwoIsEarned(ApplyAll(map[], ops)[k].history);
  }

  /**
   A raw transition after any sequence of operations keeps the rule exactly when the state it leaves
   has already earned the one it goes to, which its caller can read off the tool.
   */
  lemma TransitionAfterRunKeepsIff(ops: seq<Op>, name: string, to: Life, reason: Option<Reason>)
    ensures var m := ApplyAll(map[], ops);
      MachineFollowsRule(TransitionIn(m, name, to, reason)) <==> MoveAllowed(Target(m, name), to, reason)
  {
    RunKeeps(ops);
    hide *;
    TransitionKeepsIff(ApplyAll(map[], ops), name, to, reason);
  }
}
