/**
 The tool state machine as the program runs it: a table of shared, mutable tool objects.
 Every method is proved against the value-level function of the same operation, so what is
 proved about those functions holds of the objects.
 */
module ToolObjects {
  import opened Wrappers
  import opened Text
  import opened ToolMachine

  class ManagedTool {
    const name: string
    const source: string
    var state: Life
    var error: Option<Reason>
    var hasChecker: bool
    ghost var history: seq<Event>

    constructor (name: string, source: string)
      ensures View() == NewTool(name, source)
    {
      this.name, this.source := name, source;
      state, error, hasChecker, history := Declared, None, false, [];
    }

    ghost function View(): Tool
      reads this
    {
      Tool(name, state, source, error, hasChecker, history)
    }
  }

  /** A sweep under way: the names in `left` are still as they were. */
  ghost predicate SweptSoFar(
    m: Machine, now: Machine, left: set<string>, reported: set<string>, resolvable: set<string>)
  {
    && now.Keys == m.Keys
    && forall k :: k in m ==> now[k] == (if k in left then m[k] else Swept(m[k], k, reported, resolvable))
  }

  lemma NothingSwept(m: Machine, reported: set<string>, resolvable: set<string>)
    ensures SweptSoFar(m, m, m.Keys, reported, resolvable)
  {
  }

  lemma SweptNext(
      m: Machine, now: Machine, left: set<string>, reported: set<string>, resolvable: set<string>, k: string)
    requires SweptSoFar(m, now, left, reported, resolvable) && k in left && k in m
    ensures k in now
    ensures SweptSoFar(m, now[k := Swept(now[k], k, reported, resolvable)], left - {k}, reported, resolvable)
  {
    hide Swept;
  }

  lemma AllSwept(m: Machine, now: Machine, reported: set<string>, resolvable: set<string>)
    requires SweptSoFar(m, now, {}, reported, resolvable)
    ensures now == SweepIn(m, reported, resolvable)
  {
    hide Swept;
  }

  class ToolStateMachine {
    var tools: map<string, ManagedTool>

    /** Each object is filed under its own name, so no two names share an object. */
    ghost predicate Valid()
      reads this, tools.Values
    {
      forall k :: k in tools ==> tools[k].name == k
    }

    ghost function Model(): Machine
      reads this, tools.Values
    {
      map k | k in tools :: tools[k].View()
    }

    constructor ()
      ensures Valid() && Model() == map[] && tools == map[]
    {
      tools := map[];
    }

    method DeclareTool(name: string, source: string) returns (tool: ManagedTool)
      requires Valid()
      modifies this
      ensures Valid() && fresh(tool) && tools == old(tools)[Strip(name) := tool]
      ensures tool.View() == NewTool(Strip(name), source)
      ensures Model() == DeclareIn(old(Model()), name, source)
    {
      hide Strip;
      var cleanName := Strip(name);
      StripIdempotent(name);
      tool := new ManagedTool(cleanName, source);
      tools := tools[cleanName := tool];
    }

    lemma ModelAt(k: string)
      requires k in tools
      ensures k in Model() && Model()[k] == tools[k].View()
    {
    }

    /** When one filed object has changed and no other, the table has changed at its name. */
    twostate lemma OneChanged(k: string)
      requires old(Valid()) && k in tools && tools == old(tools)
      requires forall x :: x in tools && tools[x] != tools[k] ==> unchanged(tools[x])
      ensures Valid() && Model() == old(Model())[k := tools[k].View()]
    {
      forall x | x in tools && x != k ensures tools[x].View() == old(tools[x].View()) {
        assert tools[x].name != tools[k].name;
      }
    }

    /** Changes the state of one filed tool, and of no other. */
    method MoveTool(k: string, target: Life, reason: Option<Reason>)
      requires Valid() && k in tools
      modifies tools[k]
      ensures Valid()
      ensures Model() == old(Model())[k := Move(old(Model())[k], target, reason)]
    {
      hide Model, Valid;
      ModelAt(k);
      var tool := tools[k];
      ghost var before := tool.View();
      tool.state := target;
      if reason.Some? {
        tool.error := reason;
      } else if target == Healthy || target == Authorized || target == Executable {
        tool.error := None;
      }
      tool.history := tool.history + [Moved(target)];
      assert tool.View() == Move(before, target, reason);
      hide Move;
      OneChanged(k);
    }

    /** Records a passed probe in the history of one tool. */
    ghost method RecordProbe(k: string)
      requires Valid() && k in tools
      modifies tools[k]
      ensures Valid()
      ensures var t := old(Model())[k];
        Model() == old(Model())[k := t.(history := t.history + [ProbePassed])]
    {
      var tool := tools[k];
      tool.history := tool.history + [ProbePassed];
      OneChanged(k);
    }

    /** Moves one tool, filing a new one first when the name is unknown. */
    method Transition(name: string, target: Life, reason: Option<Reason>)
      requires Valid()
      modifies this, tools.Values
      ensures Valid() && fresh(tools.Values - old(tools.Values))
      ensures Strip(name) in tools && forall k :: k in old(tools) ==> k in tools && tools[k] == old(tools[k])
      ensures Strip(name) in old(tools) ==> tools == old(tools)
      ensures Model() == TransitionIn(old(Model()), name, target, reason)
    {
      hide Move, Strip;
      var cleanName := Strip(name);
      if cleanName !in tools {
        StripIdempotent(name);
        var created := DeclareTool(cleanName, "builtin");
      }
      MoveTool(cleanName, target, reason);
    }

    method Discover(name: string, source: string)
      requires Valid()
      modifies this, tools.Values
      ensures Valid() && fresh(tools.Values - old(tools.Values))
      ensures Strip(name) in tools && Model() == DiscoverIn(old(Model()), name, source)
    {
      hide TransitionIn, DeclareIn;
      var cleanName := Strip(name);
      StripIdempotent(name);
      if cleanName !in tools {
        var created := DeclareTool(cleanName, source);
      }
      Transition(cleanName, Discovered, None);
    }

    /** Probes a tool; the answers of the outside world are `probe`. */
    method VerifyHealth(toolName: string, probe: Probe) returns (ok: bool)
      requires Valid()
      modifies this, tools.Values
      ensures Valid() && tools == old(tools)
      ensures ok == VerifyOk(old(Model()), toolName, probe)
      ensures Model() == VerifyIn(old(Model()), toolName, probe)
    {
      hide TransitionIn, Contains, Strip;
      var cleanName := Strip(toolName);
      if cleanName !in tools {
        return false;
      }
      StripIdempotent(toolName);
      var tool := tools[cleanName];
      assert Model()[cleanName] == tool.View();
      if tool.state == Declared || tool.state == Missing {
        return false;
      }
      if tool.source == "mcp" || Contains(cleanName, "browser") {
        if !probe.primary {
          Transition(cleanName, Missing, Some(ProbeFailed));
          return false;
        }
      } else if !probe.primary {
        Transition(cleanName, Unhealthy, Some(ProbeFailed));
        return false;
      }
      if tool.hasChecker && !probe.checker {
        Transition(cleanName, Unhealthy, Some(CheckerFailed));
        return false;
      }
      RecordProbe(cleanName);
      Transition(cleanName, Healthy, None);
      ok := true;
    }

    method MarkHealthy(name: string, probe: Probe)
      requires Valid()
      modifies this, tools.Values
      ensures Valid() && fresh(tools.Values - old(tools.Values))
      ensures Model() == MarkHealthyIn(old(Model()), name, probe)
    {
      hide VerifyIn, DeclareIn;
      var cleanName := Strip(name);
      var healthy := VerifyHealth(cleanName, probe);
      if cleanName !in tools {
        var created := DeclareTool(cleanName, "builtin");
      }
    }

    method PromoteToExecutable(name: string)
      requires Valid()
      modifies this, tools.Values
      ensures Valid() && fresh(tools.Values - old(tools.Values))
      ensures tools.Keys == old(tools.Keys) + {Strip(name)}
      ensures forall k :: k in old(tools) ==> tools[k] == old(tools[k])
      ensures Model() == PromoteIn(old(Model()), name)
    {
      hide TransitionIn, DeclareIn;
      var cleanName := Strip(name);
      StripIdempotent(name);
      if cleanName !in tools {
        var created := DeclareTool(cleanName, "builtin");
        return;
      }
      assert Model()[cleanName] == tools[cleanName].View();
      if tools[cleanName].state != Authorized {
        return;
      }
      Transition(cleanName, Executable, None);
    }

    method EnsureKnown(k: string)
      requires Valid() && Strip(k) == k
      modifies this, tools.Values
      ensures Valid() && fresh(tools.Values - old(tools.Values))
      ensures k in old(tools) ==> tools == old(tools)
      ensures k in tools && Model() == KnownIn(old(Model()), k)
    {
      hide DeclareIn, DiscoverIn;
      if k !in tools {
        var created := DeclareTool(k, "builtin");
        Discover(k, "builtin");
      }
    }

    method EnsureCleared(k: string, probe: Probe) returns (ok: bool)
      requires Valid() && Strip(k) == k && k in tools
      modifies this, tools.Values
      ensures Valid() && tools == old(tools)
      ensures ok == Cleared(old(Model()), k, probe) && Model() == ClearIn(old(Model()), k, probe)
    {
      var tool := tools[k];
      assert Model()[k] == tool.View();
      if tool.state != Healthy && tool.state != Authorized && tool.state != Executable {
        ok := VerifyHealth(k, probe);
      } else {
        ok := true;
      }
    }

    method Decide(k: string, allowed: Option<set<string>>, permission: Option<bool>, autoPromote: bool)
      returns (ok: bool)
      requires Valid() && Strip(k) == k && k in tools
      modifies this, tools.Values
      ensures Valid() && tools == old(tools)
      ensures (Model(), ok) == DecideIn(old(Model()), k, allowed, permission, autoPromote)
    {
      hide TransitionIn, AuthorizeAlias, Strip;
      if allowed.Some? && k !in allowed.value {
        if AuthorizeAlias(k) !in allowed.value {
          Transition(k, Unauthorized, Some(NotAllowed));
          return false;
        }
      }
      if permission.Some? && !permission.value {
        Transition(k, Unauthorized, Some(PermissionDenied));
        return false;
      }
      Transition(k, Authorized, None);
      if autoPromote {
        Transition(k, Executable, None);
      }
      ok := true;
    }

    /** An authorization request; `permission` is the optional permission checker's answer. */
    method Authorize(
        toolName: string, allowed: Option<set<string>>, permission: Option<bool>, autoPromote: bool, probe: Probe)
      returns (ok: bool)
      requires Valid()
      modifies this, tools.Values
      ensures Valid() && fresh(tools.Values - old(tools.Values))
      ensures (Model(), ok) == AuthorizeIn(old(Model()), toolName, allowed, permission, autoPromote, probe)
      ensures Strip(toolName) in old(tools) ==> tools == old(tools)
    {
      var cleanName := Strip(toolName);
      StripIdempotent(toolName);
      EnsureKnown(cleanName);
      ok := EnsureCleared(cleanName, probe);
      if ok {
        ok := Decide(cleanName, allowed, permission, autoPromote);
      }
    }

    method Report(names: seq<string>, source: string)
      requires Valid()
      modifies this, tools.Values
      ensures Valid() && fresh(tools.Values - old(tools.Values))
      ensures Model() == ReportIn(old(Model()), names, source)
    {
      hide TransitionIn, DeclareIn;
      ghost var start := Model();
      for i := 0 to |names|
        invariant Valid() && fresh(tools.Values - old(tools.Values))
        invariant ReportIn(Model(), names[i..], source) == ReportIn(start, names, source)
      {
        if names[i] !in tools {
          var created := DeclareTool(names[i], source);
        }
        Transition(names[i], Discovered, None);
        assert names[i..][1..] == names[i + 1..];
      }
    }

    /** Every tool still only declared and not reported becomes discovered or missing. */
    method Sweep(reported: set<string>, resolvable: set<string>)
      requires Valid()
      modifies tools.Values
      ensures Valid() && Model() == SweepIn(old(Model()), reported, resolvable)
    {
      hide Model, Swept, SweptSoFar, SweepIn, Valid;
      var left := tools.Keys;
      NothingSwept(Model(), reported, resolvable);
      ModelKeys();
      while left != {}
        invariant Valid() && left <= tools.Keys
        invariant SweptSoFar(old(Model()), Model(), left, reported, resolvable)
        decreases left
      {
        var name :| name in left;
        SweptNext(old(Model()), Model(), left, reported, resolvable, name);
        SweepOne(name, reported, resolvable);
        left := left - {name};
      }
      AllSwept(old(Model()), Model(), reported, resolvable);
    }

    lemma ModelKeys()
      ensures Model().Keys == tools.Keys
    {
    }

    method SweepOne(name: string, reported: set<string>, resolvable: set<string>)
      requires Valid() && name in tools
      modifies tools[name]
      ensures Valid() && Model() == old(Model())[name := Swept(old(Model())[name], name, reported, resolvable)]
    {
      hide Model, Valid, Move;
      ModelAt(name);
      if tools[name].state == Declared && name !in reported {
        if name in resolvable {
          MoveTool(name, Discovered, None);
        } else {
          MoveTool(name, Missing, Some(NotDiscovered));
        }
      } else {
        assert Model() == Model()[name := Model()[name]];
      }
    }

    method DiscoverTools(world: World)
      requires Valid()
      modifies this, tools.Values
      ensures Valid() && fresh(tools.Values - old(tools.Values))
      ensures Model() == DiscoverToolsIn(old(Model()), world)
    {
      hide ReportIn, SweepIn, Reported;
      Report(world.registry, "builtin");
      Report(NonEmpty(world.servers), "mcp");
      Sweep(Reported(world), world.resolvable);
    }

    method SetChecker(k: string, hasChecker: bool)
      requires Valid() && k in tools
      modifies tools[k]
      ensures Valid() && Model() == WithChecker(old(Model()), k, hasChecker)
    {
      var tool := tools[k];
      if hasChecker {
        tool.hasChecker := true;
      }
      OneChanged(k);
    }

    method RegisterAndVerify(
        name: string, source: string, isAuthorized: bool, hasChecker: bool, probe: Probe)
      requires Valid()
      modifies this, tools.Values
      ensures Valid() && fresh(tools.Values - old(tools.Values))
      ensures Model() == RegisterIn(old(Model()), name, source, isAuthorized, hasChecker, probe)
    {
      hide TransitionIn, VerifyIn, VerifyOk, DeclareIn, WithChecker;
      var cleanName := Strip(name);
      StripIdempotent(name);
      var tool := DeclareTool(cleanName, source);
      SetChecker(cleanName, hasChecker);
      Transition(cleanName, Discovered, None);
      var healthy := VerifyHealth(cleanName, probe);
      if healthy && isAuthorized {
        Transition(cleanName, Authorized, None);
        Transition(cleanName, Executable, None);
      }
    }

    /** The tools a model may be shown. */
    method GetExecutableTools() returns (names: set<string>)
      requires Valid()
      ensures names == ExecutableNames(Model())
    {
      names := set k | k in tools && tools[k].state == Executable;
    }
  }
}
