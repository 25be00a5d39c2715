/**
 Which tools a task request exposes to the model. One router keeps one machine over many
 requests: each request discovers tools, files known inventory tools, handles the browser
 tools, authorizes what the task's policy allows, and exposes whatever is executable then.
 */
module SchemaRouter {
  import opened Wrappers
  import opened Text
  import opened ToolMachine
  import opened ToolObjects

  const BROWSER_TOOLS: seq<string> := ["browser_console", "browser_inspect", "browser_network", "browser_snapshot"]

  /**
   One request. `order` is the order in which the allowed set is walked; the functions are
   the world's answers, by position in the walk.
   */
  datatype Request = Request(
    allowed: set<string>,
    order: seq<string>,
    wantsBrowser: bool,
    inventory: set<string>,
    world: World,
    available: nat -> bool,
    browserProbes: nat -> Probe,
    probes: nat -> Probe)

  /** The allowed names carry no blanks and include the browser tools when those are wanted. */
  ghost predicate Proper(r: Request) {
    && (forall k :: k in r.order <==> k in r.allowed)
    && (forall k :: k in r.allowed ==> Strip(k) == k)
    && (r.wantsBrowser ==> forall b :: b in BROWSER_TOOLS ==> b in r.allowed)
  }

  // ---------- A request, on values ----------

  function IngestIn(m: Machine, order: seq<string>, inventory: set<string>, n: nat): Machine
    requires n <= |order|
  {
    if n == 0 then m
    else
      var m1, name := IngestIn(m, order, inventory, n - 1), order[n - 1];
      if name !in m1 && name in inventory
      then TransitionIn(DeclareIn(m1, name, "inventory"), name, Discovered, None)
      else m1
  }

  function BrowsersIn(m: Machine, names: seq<string>, available: nat -> bool, probes: nat -> Probe, n: nat): Machine
    requires n <= |names|
  {
    if n == 0 then m
    else BrowserIn(BrowsersIn(m, names, available, probes, n - 1), names[n - 1], available(n - 1), probes(n - 1))
  }

  function GrantOneIn(m: Machine, name: string, allowed: set<string>, probe: Probe): Machine {
    var (m', ok) := AuthorizeIn(m, name, Some(allowed), None, false, probe);
    if ok then PromoteIn(m', name) else m'
  }

  function GrantAllIn(m: Machine, order: seq<string>, allowed: set<string>, probes: nat -> Probe, n: nat): Machine
    requires n <= |order|
  {
    if n == 0 then m
    else GrantOneIn(GrantAllIn(m, order, allowed, probes, n - 1), order[n - 1], allowed, probes(n - 1))
  }

  function RequestIn(m: Machine, r: Request): Machine {
    var m1 := DiscoverToolsIn(m, r.world);
    var m2 := IngestIn(m1, r.order, r.inventory, |r.order|);
    var m3 :=
      if r.wantsBrowser then BrowsersIn(m2, BROWSER_TOOLS, r.available, r.browserProbes, |BROWSER_TOOLS|) else m2;
    GrantAllIn(m3, r.order, r.allowed, r.probes, |r.order|)
  }

  /** The names discovery reports, as they are filed. */
  function Found(w: World): set<string> {
    set n | n in w.registry + NonEmpty(w.servers) :: Strip(n)
  }

  // ---------- What stays the same ----------

  /** `m'` is a proper table that treats every name outside `names` as `m` does. */
  ghost predicate SameOutside(m: Machine, m': Machine, names: set<string>) {
    && MachineOk(m')
    && forall k :: k !in names ==> (k in m' <==> k in m) && (k in m ==> m'[k] == m[k])
  }

  lemma SameOutsideTrans(m1: Machine, m2: Machine, m3: Machine, names: set<string>)
    requires SameOutside(m1, m2, names) && SameOutside(m2, m3, names)
    ensures SameOutside(m1, m3, names)
  {
  }

  lemma {:induction false} IngestKeeps(
      m: Machine, order: seq<string>, inventory: set<string>, n: nat, names: set<string>)
    requires MachineOk(m) && n <= |order| && forall k :: k in order ==> k in names && Strip(k) == k
    ensures SameOutside(m, IngestIn(m, order, inventory, n), names)
  {
    if n > 0 {
      IngestKeeps(m, order, inventory, n - 1, names);
      var m1, name := IngestIn(m, order, inventory, n - 1), order[n - 1];
      DeclareKeeps(m1, name, "inventory");
      TransitionKeepsIff(DeclareIn(m1, name, "inventory"), name, Discovered, None);
    }
  }

  lemma BrowserTouchesOne(m: Machine, name: string, available: bool, probe: Probe, names: set<string>)
    requires MachineOk(m) && name in names && Strip(name) == name
    ensures SameOutside(m, BrowserIn(m, name, available, probe), names)
  {
    BrowserKeeps(m, name, available, probe);
  }

  lemma {:induction false} BrowsersKeep(
      m: Machine, bs: seq<string>, available: nat -> bool, probes: nat -> Probe, n: nat, names: set<string>)
    requires MachineOk(m) && n <= |bs| && forall b :: b in bs ==> b in names && Strip(b) == b
    ensures SameOutside(m, BrowsersIn(m, bs, available, probes, n), names)
  {
    hide BrowserIn, Strip;
    if n > 0 {
      BrowsersKeep(m, bs, available, probes, n - 1, names);
      var m1 := BrowsersIn(m, bs, available, probes, n - 1);
      BrowserTouchesOne(m1, bs[n - 1], available(n - 1), probes(n - 1), names);
      SameOutsideTrans(m, m1, BrowserIn(m1, bs[n - 1], available(n - 1), probes(n - 1)), names);
    }
  }

  /** A grant exposes its tool exactly when the authorization succeeds. */
  lemma GrantOneKeeps(m: Machine, name: string, allowed: set<string>, probe: Probe)
    requires MachineOk(m) && Strip(name) == name
    ensures var m' := GrantOneIn(m, name, allowed, probe);
      && MachineOk(m') && SameElsewhere(m, m', name)
      && (m'[name].state == Executable <==> AuthorizeIn(m, name, Some(allowed), None, false, probe).1)
  {
    hide AuthorizeIn, ListAllows, Cleared, KnownIn, PromoteIn, MachineOk, Strip;
    AuthorizeKeeps(m, name, Some(allowed), None, false, probe);
    var (granted, ok) := AuthorizeIn(m, name, Some(allowed), None, false, probe);
    if ok {
      PromoteAuthorized(granted, name);
    }
  }

  lemma {:induction false} GrantAllKeeps(
      m: Machine, order: seq<string>, allowed: set<string>, probes: nat -> Probe, n: nat, names: set<string>)
    requires MachineOk(m) && n <= |order| && forall k :: k in order ==> k in names && Strip(k) == k
    ensures SameOutside(m, GrantAllIn(m, order, allowed, probes, n), names)
  {
    hide GrantOneIn, Strip;
    if n > 0 {
      GrantAllKeeps(m, order, allowed, probes, n - 1, names);
      var m1 := GrantAllIn(m, order, allowed, probes, n - 1);
      GrantOneKeeps(m1, order[n - 1], allowed, probes(n - 1));
      SameOutsideTrans(m, m1, GrantAllIn(m, order, allowed, probes, n), names);
    }
  }

  // ---------- Discovery takes executable tools back ----------

  /** Reported names end discovered; the rest is untouched. */
  lemma {:induction false} ReportState(m: Machine, names: seq<string>, source: string, k: string)
    requires MachineOk(m)
    ensures var m' := ReportIn(m, names, source);
      if exists n :: n in names && Strip(n) == k then k in m' && m'[k].state == Discovered
      else (k in m' <==> k in m) && (k in m ==> m'[k] == m[k])
    decreases |names|
  {
    if names != [] {
      DeclareKeeps(m, names[0], source);
      var m1 := if names[0] in m then m else DeclareIn(m, names[0], source);
      TransitionKeepsIff(m1, names[0], Discovered, None);
      var m2 := TransitionIn(m1, names[0], Discovered, None);
      ReportState(m2, names[1..], source, k);
      assert forall n :: n in names <==> n == names[0] || n in names[1..];
    }
  }

  lemma FoundIs(w: World, k: string)
    ensures k in Found(w) <==>
      (exists n :: n in w.registry && Strip(n) == k) || (exists n :: n in NonEmpty(w.servers) && Strip(n) == k)
  {
    assert forall n :: n in w.registry + NonEmpty(w.servers) <==> n in w.registry || n in NonEmpty(w.servers);
  }

  /** After discovery a tool is executable exactly when it was before and was not reported. */
  lemma DiscoveryDemotes(m: Machine, w: World, k: string)
    requires MachineOk(m)
    ensures var m' := DiscoverToolsIn(m, w);
      k in ExecutableNames(m') <==> k in ExecutableNames(m) && k !in Found(w)
  {
    hide ReportIn, Found, Strip, Reported, NonEmpty, MachineOk;
    var m1 := ReportIn(m, w.registry, "builtin");
    ReportKeeps(m, w.registry, "builtin");
    ReportState(m, w.registry, "builtin", k);
    ReportState(m1, NonEmpty(w.servers), "mcp", k);
    FoundIs(w, k);
  }

  // ---------- What a request exposes ----------

  lemma RequestKeepsOutside(m: Machine, r: Request)
    requires MachineOk(m) && Proper(r)
    ensures SameOutside(DiscoverToolsIn(m, r.world), RequestIn(m, r), r.allowed)
  {
    DiscoverToolsKeeps(m, r.world);
    var m1 := DiscoverToolsIn(m, r.world);
    IngestKeeps(m1, r.order, r.inventory, |r.order|, r.allowed);
    var m2 := IngestIn(m1, r.order, r.inventory, |r.order|);
    var m3 := m2;
    if r.wantsBrowser {
      BrowsersKeep(m2, BROWSER_TOOLS, r.available, r.browserProbes, |BROWSER_TOOLS|, r.allowed);
      m3 := BrowsersIn(m2, BROWSER_TOOLS, r.available, r.browserProbes, |BROWSER_TOOLS|);
    }
    SameOutsideTrans(m1, m2, m3, r.allowed);
    GrantAllKeeps(m3, r.order, r.allowed, r.probes, |r.order|, r.allowed);
    SameOutsideTrans(m1, m3, RequestIn(m, r), r.allowed);
  }

  /**
   The exposed tools outside the allowed list are exactly the tools left executable by earlier
   requests that discovery does not report again.
   */
  lemma ExposedOutsideAllowed(m: Machine, r: Request, k: string)
    requires MachineOk(m) && Proper(r) && k !in r.allowed
    ensures k in ExecutableNames(RequestIn(m, r)) <==> k in ExecutableNames(m) && k !in Found(r.world)
  {
    RequestKeepsOutside(m, r);
    DiscoveryDemotes(m, r.world, k);
  }

  /** A tool reported by discovery in this request is exposed only if this request allows it. */
  lemma ReportedIsScoped(m: Machine, r: Request, k: string)
    requires MachineOk(m) && Proper(r)
    ensures k in ExecutableNames(RequestIn(m, r)) && k in Found(r.world) ==> k in r.allowed
  {
    if k !in r.allowed {
      ExposedOutsideAllowed(m, r, k);
    }
  }

  /**
   A request exposes only what it allows exactly when every other tool that was executable
   before it is reported by discovery again.
   */
  lemma ScopedIff(m: Machine, r: Request)
    requires MachineOk(m) && Proper(r)
    ensures ExecutableNames(RequestIn(m, r)) <= r.allowed <==>
      forall k :: k in ExecutableNames(m) ==> k in r.allowed || k in Found(r.world)
  {
    forall k | k !in r.allowed
      ensures k in ExecutableNames(RequestIn(m, r)) <==> k in ExecutableNames(m) && k !in Found(r.world)
    {
      ExposedOutsideAllowed(m, r, k);
    }
  }

  function RunIn(m: Machine, rs: seq<Request>): Machine {
    if rs == [] then m else RequestIn(RunIn(m, rs[..|rs| - 1]), rs[|rs| - 1])
  }

  function EverAllowed(rs: seq<Request>): set<string> {
    if rs == [] then {} else EverAllowed(rs[..|rs| - 1]) + rs[|rs| - 1].allowed
  }

  /** Over any requests to a new router, every exposed tool was allowed by one of them, and earned it. */
  lemma {:induction false} ExposedWasAllowed(rs: seq<Request>)
    requires forall i :: 0 <= i < |rs| ==> Proper(rs[i])
    ensures var m := RunIn(map[], rs);
      && MachineOk(m)
      && ExecutableNames(m) <= EverAllowed(rs)
  {
    if rs != [] {
      var n := |rs| - 1;
      ExposedWasAllowed(rs[..n]);
      var m := RunIn(map[], rs[..n]);
      RequestKeepsOutside(m, rs[n]);
      forall k | k in ExecutableNames(RequestIn(m, rs[n])) ensures k in EverAllowed(rs) {
        if k !in rs[n].allowed {
          ExposedOutsideAllowed(m, rs[n], k);
        }
      }
    }
  }

  // ---------- A run that exposes too much ----------

  function Quiet(allowed: string): Request {
    Request(
      {allowed}, [allowed], false, {}, World([], [], {}),
      _ => false, _ => Probe(true, true), _ => Probe(true, true))
  }

  lemma QuietIs(m: Machine, k: string)
    ensures DiscoverToolsIn(m, Quiet(k).world).Keys == m.Keys
    ensures RequestIn(m, Quiet(k)) == GrantOneIn(DiscoverToolsIn(m, Quiet(k).world), k, {k}, Probe(true, true))
  {
    hide GrantOneIn, Reported;
    var r := Quiet(k);
    var m1 := DiscoverToolsIn(m, r.world);
    assert NonEmpty([]) == [];
    assert IngestIn(m1, [k], {}, 0) == m1;
    assert IngestIn(m1, [k], {}, 1) == m1;
    assert GrantAllIn(m1, [k], {k}, r.probes, 0) == m1;
  }

  /** A request for one healthy builtin tool, not reported by any registry, makes it executable. */
  lemma QuietExposes(m: Machine, k: string)
    requires MachineOk(m) && Strip(k) == k && k !in m
    ensures k in ExecutableNames(RequestIn(m, Quiet(k)))
  {
    QuietIs(m, k);
    var m1 := DiscoverToolsIn(m, Quiet(k).world);
    DiscoverToolsKeeps(m, Quiet(k).world);
    hide DiscoverToolsIn, RequestIn, Quiet, MachineOk;
    GrantOneKeeps(m1, k, {k}, Probe(true, true));
    NewIsGranted(m1, k);
  }

  lemma NewIsGranted(m: Machine, k: string)
    requires MachineOk(m) && Strip(k) == k && k !in m
    ensures GrantOneIn(m, k, {k}, Probe(true, true))[k].state == Executable
  {
    AuthorizeKeeps(m, k, Some({k}), None, false, Probe(true, true));
    KnownKeeps(m, k);
    assert KnownIn(m, k)[k].state == Discovered && !KnownIn(m, k)[k].hasChecker;
  }

  /** After that, a request for another tool still exposes it. */
  lemma QuietKeepsExposed(m: Machine, k: string, other: string)
    requires MachineOk(m) && k in ExecutableNames(m) && k != other && Strip(other) == other
    ensures k in ExecutableNames(RequestIn(m, Quiet(other)))
  {
    assert NonEmpty([]) == [];
    ExposedOutsideAllowed(m, Quiet(other), k);
  }

  lemma RunOfTwo(first: Request, second: Request)
    ensures RunIn(map[], [first, second]) == RequestIn(RequestIn(map[], first), second)
  {
    hide RequestIn;
    assert [first, second][..1] == [first] && [first][..0] == [];
    assert RunIn(map[], [first][..0]) == map[];
  }

  /** The second of two requests for single tools exposes the tool that only the first one allowed. */
  lemma StaleToolIsExposed(k: string, other: string)
    requires Strip(k) == k && Strip(other) == other && k != other
    ensures k in ExecutableNames(RunIn(map[], [Quiet(k), Quiet(other)]))
  {
    hide RequestIn, RunIn, ExecutableNames, Strip;
    QuietExposes(map[], k);
    assert Proper(Quiet(k));
    RequestKeepsOutside(map[], Quiet(k));
    QuietKeepsExposed(RequestIn(map[], Quiet(k)), k, other);
    RunOfTwo(Quiet(k), Quiet(other));
  }

  // ---------- The request, on objects ----------

  method IngestInventory(machine: ToolStateMachine, order: seq<string>, inventory: set<string>)
    requires machine.Valid()
    modifies machine, machine.tools.Values
    ensures machine.Valid() && fresh(machine.tools.Values - old(machine.tools.Values))
    ensures machine.Model() == IngestIn(old(machine.Model()), order, inventory, |order|)
  {
    hide TransitionIn, DeclareIn, Strip;
    ghost var start := machine.Model();
    for i := 0 to |order|
      invariant machine.Valid() && fresh(machine.tools.Values - old(machine.tools.Values))
      invariant Some(machine.Model()) == Some(IngestIn(start, order, inventory, i))
    {
      var name := order[i];
      if name !in machine.tools && name in inventory {
        var declared := machine.DeclareTool(name, "inventory");
        machine.Transition(name, Discovered, None);
      }
    }
  }

  /** Declares one browser tool, and makes it executable only if its server answers. */
  method OfferBrowserTool(machine: ToolStateMachine, name: string, available: bool, probe: Probe)
    requires machine.Valid()
    modifies machine, machine.tools.Values
    ensures machine.Valid() && fresh(machine.tools.Values - old(machine.tools.Values))
    ensures machine.Model() == BrowserIn(old(machine.Model()), name, available, probe)
  {
    hide TransitionIn, VerifyIn, VerifyOk, DeclareIn, Strip;
    StripIdempotent(name);
    if name !in machine.tools {
      var declared := machine.DeclareTool(name, "browser_mcp");
    }
    if available {
      machine.Transition(name, Discovered, None);
      var healthy := machine.VerifyHealth(name, probe);
      if healthy {
        machine.Transition(name, Authorized, None);
        machine.Transition(name, Executable, None);
      }
    } else {
      machine.Transition(name, Missing, Some(NoBrowserServer));
    }
    assert Some(machine.Model()) == Some(BrowserIn(old(machine.Model()), name, available, probe));
  }

  method OfferBrowserTools(
      machine: ToolStateMachine, names: seq<string>, available: nat -> bool, probes: nat -> Probe)
    requires machine.Valid()
    modifies machine, machine.tools.Values
    ensures machine.Valid() && fresh(machine.tools.Values - old(machine.tools.Values))
    ensures machine.Model() == BrowsersIn(old(machine.Model()), names, available, probes, |names|)
  {
    hide BrowserIn;
    ghost var start := machine.Model();
    for i := 0 to |names|
      invariant machine.Valid() && fresh(machine.tools.Values - old(machine.tools.Values))
      invariant Some(machine.Model()) == Some(BrowsersIn(start, names, available, probes, i))
    {
      OfferNext(machine, names, available, probes, i, start);
    }
  }

  method OfferNext(
      machine: ToolStateMachine, names: seq<string>, available: nat -> bool, probes: nat -> Probe,
      i: nat, ghost start: Machine)
    requires machine.Valid() && i < |names| && machine.Model() == BrowsersIn(start, names, available, probes, i)
    modifies machine, machine.tools.Values
    ensures machine.Valid() && fresh(machine.tools.Values - old(machine.tools.Values))
    ensures machine.Model() == BrowsersIn(start, names, available, probes, i + 1)
  {
    hide BrowserIn;
    OfferBrowserTool(machine, names[i], available(i), probes(i));
  }

  method GrantAllowed(machine: ToolStateMachine, order: seq<string>, allowed: set<string>, probes: nat -> Probe)
    requires machine.Valid()
    modifies machine, machine.tools.Values
    ensures machine.Valid() && fresh(machine.tools.Values - old(machine.tools.Values))
    ensures machine.Model() == GrantAllIn(old(machine.Model()), order, allowed, probes, |order|)
  {
    hide GrantOneIn;
    ghost var start := machine.Model();
    for i := 0 to |order|
      invariant machine.Valid() && fresh(machine.tools.Values - old(machine.tools.Values))
      invariant Some(machine.Model()) == Some(GrantAllIn(start, order, allowed, probes, i))
    {
      GrantNext(machine, order, allowed, probes, i, start);
    }
  }

  method GrantNext(
      machine: ToolStateMachine, order: seq<string>, allowed: set<string>, probes: nat -> Probe,
      i: nat, ghost start: Machine)
    requires machine.Valid() && i < |order| && machine.Model() == GrantAllIn(start, order, allowed, probes, i)
    modifies machine, machine.tools.Values
    ensures machine.Valid() && fresh(machine.tools.Values - old(machine.tools.Values))
    ensures machine.Model() == GrantAllIn(start, order, allowed, probes, i + 1)
  {
    hide GrantOneIn;
    GrantTool(machine, order[i], allowed, probes(i));
  }

  method GrantTool(machine: ToolStateMachine, name: string, allowed: set<string>, probe: Probe)
    requires machine.Valid()
    modifies machine, machine.tools.Values
    ensures machine.Valid() && fresh(machine.tools.Values - old(machine.tools.Values))
    ensures machine.Model() == GrantOneIn(old(machine.Model()), name, allowed, probe)
  {
    hide AuthorizeIn, PromoteIn;
    var ok := machine.Authorize(name, Some(allowed), None, false, probe);
    if ok {
      machine.PromoteToExecutable(name);
    }
  }

  /** The whole request; the result is what the model is shown. */
  method GetToolSchemas(machine: ToolStateMachine, r: Request) returns (exposed: set<string>)
    requires machine.Valid()
    modifies machine, machine.tools.Values
    ensures machine.Valid() && fresh(machine.tools.Values - old(machine.tools.Values))
    ensures machine.Model() == RequestIn(old(machine.Model()), r)
    ensures exposed == ExecutableNames(machine.Model())
  {
    hide DiscoverToolsIn, IngestIn, BrowsersIn, GrantAllIn, ExecutableNames;
    machine.DiscoverTools(r.world);
    IngestInventory(machine, r.order, r.inventory);
    if r.wantsBrowser {
      OfferBrowserTools(machine, BROWSER_TOOLS, r.available, r.browserProbes);
    }
    GrantAllowed(machine, r.order, r.allowed, r.probes);
    assert Some(machine.Model()) == Some(RequestIn(old(machine.Model()), r));
    exposed := machine.GetExecutableTools();
  }
}
