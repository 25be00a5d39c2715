/**
 Where each operation of the tool machine leaves its tool, told from what a caller sees before it:
 the tool's state, its checker and source, the list, and the answers of the outside world.
 */
module ToolOutcomes {
  import opened Text
  import opened ToolMachine
  import opened Wrappers

  /** The probe passes for a tool that has a checker or not. */
  predicate ProbePasses(hasChecker: bool, probe: Probe) {
    probe.primary && (hasChecker ==> probe.checker)
  }

  /** The state after a failed probe: gone, for tools on a server that does not answer; else unhealthy. */
  function FailState(name: string, source: string, probe: Probe): Life {
    if !probe.primary && (source == "mcp" || Contains(name, "browser")) then Missing else Unhealthy
  }

  /** A probe: who is probed at all, what passes, and where a tool goes. */
  lemma VerifyOutcome(m: Machine, name: string, probe: Probe)
    requires MachineOk(m)
    ensures var k, ok, m' := Strip(name), VerifyOk(m, name, probe), VerifyIn(m, name, probe);
      && (ok <==> k in m && m[k].state !in {Declared, Missing} && ProbePasses(m[k].hasChecker, probe))
      && (k !in m || m[k].state in {Declared, Missing} ==> m' == m)
      && (k in m && m[k].state !in {Declared, Missing} ==>
            && k in m' && m'[k].state == (if ok then Healthy else FailState(k, m[k].source, probe))
            && (ok <==> m'[k].error == None)
            && m'[k].source == m[k].source && m'[k].hasChecker == m[k].hasChecker)
  {
    hide Strip, Contains, Stage;
    StripIdempotent(name);
    var k := Strip(name);
    if k in m {
      assert ToolOk(k, m[k]);
    }
  }

  /** Who is cleared for authorization: by its state, or by a probe that it may have and passes. */
  predicate Clears(m: Machine, k: string, probe: Probe) {
    if k !in m then probe.primary
    else
      || m[k].state in {Healthy, Authorized, Executable}
      || (m[k].state in {Discovered, Unhealthy, Unauthorized} && ProbePasses(m[k].hasChecker, probe))
  }

  lemma ClearedIff(m: Machine, k: string, probe: Probe)
    requires MachineOk(m) && Strip(k) == k
    ensures Cleared(KnownIn(m, k), k, probe) <==> Clears(m, k, probe)
  {
    hide Strip, Stage;
    StripIdempotent(k);
  }

  /** An authorization request, for known and unknown tools: the answer, and the state it leaves. */
  lemma AuthorizeOutcome(
      m: Machine, name: string, allowed: Option<set<string>>, permission: Option<bool>,
      autoPromote: bool, probe: Probe)
    requires MachineOk(m)
    ensures var k := Strip(name); var (m', ok) := AuthorizeIn(m, name, allowed, permission, autoPromote, probe);
      var listed := allowed == None || k in allowed.value || AuthorizeAlias(k) in allowed.value;
      && (ok <==> Clears(m, k, probe) && listed && permission != Some(false))
      && k in m' && m'[k].state == (
           if ok then (if autoPromote then Executable else Authorized)
           else if Clears(m, k, probe) then Unauthorized
           else if k !in m then FailState(k, "builtin", probe)
           else if m[k].state in {Declared, Missing} then m[k].state
           else FailState(k, m[k].source, probe))
  {
    hide Strip, Stage, MachineOk, AuthorizeAlias, VerifyIn, VerifyOk, SkipsProbe, GrantIn, TransitionIn;
    hide Contains, Clears;
    var k := Strip(name);
    StripIdempotent(name);
    AuthorizeKeeps(m, name, allowed, permission, autoPromote, probe);
    ClearedIff(m, k, probe);
    KnownKeeps(m, k);
    KnownIs(m, k);
    var m1 := KnownIn(m, k);
    if Cleared(m1, k, probe) {
      ClearKeeps(m1, k, probe);
      DecideKeeps(ClearIn(m1, k, probe), k, allowed, permission, autoPromote);
    } else {
      NotCleared(m1, k, probe);
    }
  }

  lemma KnownIs(m: Machine, k: string)
    requires Strip(k) == k
    ensures k in KnownIn(m, k)
    ensures if k in m then KnownIn(m, k) == m
      else KnownIn(m, k)[k].state == Discovered && KnownIn(m, k)[k].source == "builtin" && !KnownIn(m, k)[k].hasChecker
  {
  }

  lemma NotCleared(m: Machine, k: string, probe: Probe)
    requires MachineOk(m) && Strip(k) == k && k in m && !Cleared(m, k, probe)
    ensures ClearIn(m, k, probe) == VerifyIn(m, k, probe) && k in VerifyIn(m, k, probe)
    ensures VerifyIn(m, k, probe)[k].state
      == if m[k].state in {Declared, Missing} then m[k].state else FailState(k, m[k].source, probe)
  {
    hide Contains, Stage, VerifyIn, VerifyOk;
    VerifyOutcome(m, k, probe);
  }

  /** Marking a tool healthy is a probe; an unknown tool is only declared by it. */
  lemma MarkHealthyOutcome(m: Machine, name: string, probe: Probe)
    requires MachineOk(m)
    ensures var k, m' := Strip(name), MarkHealthyIn(m, name, probe);
      k in m' && m'[k].state == (
        if k !in m then Declared
        else if m[k].state in {Declared, Missing} then m[k].state
        else if ProbePasses(m[k].hasChecker, probe) then Healthy
        else FailState(k, m[k].source, probe))
  {
    hide Strip, Stage, Contains, VerifyIn, VerifyOk, MachineOk;
    StripIdempotent(name);
    VerifyOutcome(m, Strip(name), probe);
  }

  /** Promotion moves an authorized tool and no other; an unknown one is only declared. */
  lemma PromoteOutcome(m: Machine, name: string)
    ensures var k, m' := Strip(name), PromoteIn(m, name);
      && k in m' && (k in m && m[k].state != Authorized ==> m' == m)
      && m'[k].state == if k !in m then Declared else if m[k].state == Authorized then Executable else m[k].state
  {
    StripIdempotent(name);
  }

  /** Registration starts over, whatever was known: only a passed probe and the flag make the tool executable. */
  lemma RegisterOutcome(
      m: Machine, name: string, source: string, isAuthorized: bool, hasChecker: bool, probe: Probe)
    requires MachineOk(m)
    ensures var k, m' := Strip(name), RegisterIn(m, name, source, isAuthorized, hasChecker, probe);
      k in m' && m'[k].state == (
        if !ProbePasses(hasChecker, probe) then FailState(k, source, probe)
        else if isAuthorized then Executable else Healthy)
  {
    hide Strip, Stage, Contains, VerifyIn, VerifyOk, MachineOk;
    var k := Strip(name);
    StripIdempotent(name);
    DeclareKeeps(m, k, source);
    var m1 := WithChecker(DeclareIn(m, k, source), k, hasChecker);
    CheckerKeeps(DeclareIn(m, k, source), k, hasChecker);
    TransitionKeepsIff(m1, k, Discovered, None);
    VerifyOutcome(TransitionIn(m1, k, Discovered, None), k, probe);
  }

  lemma CheckerKeeps(m: Machine, k: string, hasChecker: bool)
    requires MachineOk(m) && k in m
    ensures MachineOk(WithChecker(m, k, hasChecker))
  {
  }

  /** A browser tool: missing without a server; with one, executable exactly when its probe passes. */
  lemma BrowserOutcome(m: Machine, name: string, available: bool, probe: Probe)
    requires MachineOk(m) && Strip(name) == name
    ensures var m' := BrowserIn(m, name, available, probe);
      var known, checker := name in m, name in m && m[name].hasChecker;
      && name in m' && (m'[name].hasChecker <==> checker)
      && m'[name].state == (
        if !available then Missing
        else if ProbePasses(checker, probe) then Executable
        else FailState(name, if known then m[name].source else "browser_mcp", probe))
  {
    hide Strip, Stage, Contains, VerifyIn, VerifyOk, MachineOk;
    DeclareKeeps(m, name, "browser_mcp");
    var m1 := if name in m then m else DeclareIn(m, name, "browser_mcp");
    TransitionKeepsIff(m1, name, Discovered, None);
    VerifyOutcome(TransitionIn(m1, name, Discovered, None), name, probe);
  }

  // ---------- Aliases ----------

  /** A part whose first mark does not occur leaves the front of a text alone. */
  lemma {:induction false} ReplaceSkips(front: string, s: string, part: string, sub: string)
    requires part != [] && part[0] !in front
    ensures Replace(front + s, part, sub) == front + Replace(s, part, sub)
  {
    if front == [] {
      assert front + s == s;
    } else {
      assert (front + s)[1..] == front[1..] + s;
      ReplaceSkips(front[1..], s, part, sub);
    }
  }

  /** Whatever stands in the front of a text stands in the text. */
  lemma FrontHolds(s: string, front: string, c: char)
    ensures front <= s && c in front ==> c in s
  {
    if front <= s {
      assert forall i :: 0 <= i < |front| ==> s[i] == front[i];
    }
  }

  lemma {:induction false} ReplaceDotless(s: string, part: string, sub: string)
    requires '.' in part && '.' !in s
    ensures Replace(s, part, sub) == s
  {
    if s != [] {
      assert forall c :: c in s[1..] ==> c in s;
      FrontHolds(s, part, '.');
      ReplaceDotless(s[1..], part, sub);
    }
  }

  lemma ReplaceFront(s: string, part: string, sub: string)
    requires part != []
    ensures Replace(part + s, part, sub) == sub + Replace(s, part, sub)
  {
    assert (part + s)[|part|..] == s;
  }

  /** An empty replacement takes a part away. */
  lemma ReplaceTakes(s: string, part: string)
    requires '.' in part && '.' !in s
    ensures Replace(part + s, part, "") == s && Replace(s, part, "") == s
  {
    ReplaceDotless(s, part, "");
    ReplaceFront(s, part, "");
    assert "" + s == s;
  }

  /** On the list, a tool answers to its own name behind one of three prefixes. */
  lemma AliasDropsPrefix(tool: string)
    requires '.' !in tool
    ensures AuthorizeAlias(tool) == tool
    ensures AuthorizeAlias("filesystem." + tool) == tool
    ensures AuthorizeAlias("terminal." + tool) == tool
    ensures AuthorizeAlias("codebase." + tool) == tool
  {
    hide Replace;
    assert '.' in "filesystem." && '.' in "terminal." && '.' in "codebase.";
    ReplaceTakes(tool, "filesystem.");
    ReplaceTakes(tool, "terminal.");
    ReplaceTakes(tool, "codebase.");
    ReplaceSkips("terminal.", tool, "filesystem.", "");
    ReplaceSkips("codebase.", tool, "filesystem.", "");
    ReplaceSkips("codebase.", tool, "terminal.", "");
  }
}
