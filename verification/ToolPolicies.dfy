/**
 Capability policies: which tool names a task may use. A policy is built from capabilities
 by a fixed catalog, checked name by name, and merged with another.
 */
module ToolPolicies {
  import opened SchemaRouter
  import opened Text
  import opened ToolCatalog
  import opened ToolMachine

  datatype ToolPolicy = ToolPolicy(
    allowed: set<string>,
    forbidden: set<string>,
    capabilities: set<string>,
    aliases: map<string, string>,
    readOnly: bool)

  function Resolve(p: ToolPolicy, name: string): string {
    if name == "" then ""
    else
      var clean := Strip(name);
      if clean in p.aliases then p.aliases[clean]
      else
        var normalized := Replace(clean, ":", ".");
        if normalized in p.aliases then p.aliases[normalized] else clean
  }

  /** `name` itself or what it resolves to is in `names`. */
  predicate Names(name: string, resolved: string, names: set<string>) {
    name in names || resolved in names
  }

  /** What a policy forbids, by name or because it only reads. */
  function Banned(p: ToolPolicy): set<string> {
    p.forbidden + if p.readOnly then FILESYSTEM_WRITE + GIT_MUTATE else {}
  }

  predicate Open(p: ToolPolicy) {
    p.allowed == {} && p.capabilities == {}
  }

  predicate ListedAs(p: ToolPolicy, name: string, resolved: string) {
    Names(name, resolved, p.allowed) || exists cap :: cap in p.capabilities && Names(name, resolved, GroupTools(cap))
  }

  predicate Blocked(p: ToolPolicy, name: string) {
    Names(name, Resolve(p, name), Banned(p))
  }

  predicate Listed(p: ToolPolicy, name: string) {
    ListedAs(p, name, Resolve(p, name))
  }

  method IsToolAllowed(p: ToolPolicy, name: string) returns (ok: bool)
    ensures ok <==> name != "" && !Blocked(p, name) && (Open(p) || Listed(p, name))
  {
    if name == "" {
      return false;
    }
    var resolved := Resolve(p, name);
    if name in p.forbidden || resolved in p.forbidden {
      return false;
    }
    if p.readOnly {
      var writeTools := FILESYSTEM_WRITE + GIT_MUTATE;
      if resolved in writeTools || name in writeTools {
        return false;
      }
    }
    if p.allowed == {} && p.capabilities == {} {
      return true;
    }
    if name in p.allowed || resolved in p.allowed {
      return true;
    }
    var left := p.capabilities;
    while left != {}
      invariant left <= p.capabilities
      invariant forall cap :: cap in p.capabilities - left ==> !Names(name, resolved, GroupTools(cap))
      decreases left
    {
      var cap :| cap in left;
      var capTools := GroupTools(cap);
      if resolved in capTools || name in capTools {
        return true;
      }
      left := left - {cap};
    }
    ok := false;
  }

  ghost predicate Allows(p: ToolPolicy, name: string) {
    name != "" && !Blocked(p, name) && (Open(p) || Listed(p, name))
  }

  /** A name is looked up without surrounding blanks, then with its colons as dots; else it stands for itself. */
  lemma ResolveMeans(p: ToolPolicy, name: string)
    requires name != ""
    ensures var clean := Strip(name); var dotted := Replace(clean, ":", ".");
      && (clean in p.aliases ==> Resolve(p, name) == p.aliases[clean])
      && (clean !in p.aliases && dotted in p.aliases ==> Resolve(p, name) == p.aliases[dotted])
      && (clean !in p.aliases && dotted !in p.aliases ==> Resolve(p, name) == clean)
  {
    hide Strip, Replace;
  }

  /** Which names a policy allows, in full: both spellings are looked up in every set. */
  lemma AllowsMeans(p: ToolPolicy, name: string)
    ensures Allows(p, name) <==>
      && name != ""
      && (forall n :: n in [name, Resolve(p, name)] ==>
            && n !in p.forbidden
            && (p.readOnly ==> n !in GroupTools("filesystem.write") && n !in GroupTools("git.mutate")))
      && (|| (p.allowed == {} && p.capabilities == {})
          || exists n :: n in [name, Resolve(p, name)] &&
               (n in p.allowed || exists cap :: cap in p.capabilities && n in GroupTools(cap)))
  {
    assert GroupTools("filesystem.write") == FILESYSTEM_WRITE && GroupTools("git.mutate") == GIT_MUTATE;
    hide GroupTools, Resolve;
    var resolved := Resolve(p, name);
    assert name in [name, resolved] && resolved in [name, resolved];
    assert Listed(p, name) <==>
      exists n :: n in [name, resolved] &&
        (n in p.allowed || exists cap :: cap in p.capabilities && n in GroupTools(cap));
  }

  /**
   Reading only takes away exactly the writing tools, called by their own names or by others: no
   list and no capability brings them back.
   */
  lemma ReadOnlyBansWrites(p: ToolPolicy, name: string)
    ensures var writes := GroupTools("filesystem.write") + GroupTools("git.mutate");
      Allows(p.(readOnly := true), name) <==>
        Allows(p.(readOnly := false), name) && name !in writes && Resolve(p, name) !in writes
  {
    var strict, free := p.(readOnly := true), p.(readOnly := false);
    assert Resolve(strict, name) == Resolve(p, name) == Resolve(free, name);
    assert GroupTools("filesystem.write") == FILESYSTEM_WRITE && GroupTools("git.mutate") == GIT_MUTATE;
    hide GroupTools, Resolve;
    assert forall resolved :: ListedAs(strict, name, resolved) == ListedAs(free, name, resolved);
  }

  // ---------- Building a policy from capabilities ----------

  /** What one capability brings in: its group, and the tool it is an alias of. */
  ghost predicate Brings(cap: string, tool: string) {
    var norm := Strip(cap);
    tool in GroupTools(norm) || (norm in TOOL_ALIASES && tool == TOOL_ALIASES[norm])
  }

  /** `allowed` holds the extra names and what the capabilities bring in. */
  ghost predicate Gathered(allowed: set<string>, extra: set<string>, caps: seq<string>) {
    forall t :: t in allowed <==> t in extra || exists cap :: cap in caps && Brings(cap, t)
  }

  lemma GatherNext(allowed: set<string>, extra: set<string>, caps: seq<string>, cap: string, brought: set<string>)
    requires Gathered(allowed, extra, caps) && forall t :: t in brought <==> Brings(cap, t)
    ensures Gathered(allowed + brought, extra, caps + [cap])
  {
    hide Brings;
    forall t ensures t in allowed + brought <==> t in extra || exists c :: c in caps + [cap] && Brings(c, t) {
      assert forall c :: c in caps + [cap] <==> c in caps || c == cap;
    }
  }

  method FromCapabilities(
      capabilities: seq<string>, readOnly: bool, extraAllowed: set<string>, extraForbidden: set<string>)
    returns (p: ToolPolicy)
    ensures Gathered(p.allowed, extraAllowed, capabilities)
    ensures p.forbidden == extraForbidden && p.readOnly == readOnly && p.aliases == TOOL_ALIASES
    ensures p.capabilities == set cap | cap in capabilities
  {
    hide GroupTools, Strip;
    var allowed := extraAllowed;
    assert Gathered(allowed, extraAllowed, capabilities[..0]);
    for i := 0 to |capabilities|
      invariant Gathered(allowed, extraAllowed, capabilities[..i])
    {
      var cap := capabilities[i];
      ghost var before := allowed;
      var norm := Strip(cap);
      allowed := allowed + GroupTools(norm);
      if norm in TOOL_ALIASES {
        allowed := allowed + {TOOL_ALIASES[norm]};
      }
      ghost var brought := if norm in TOOL_ALIASES then GroupTools(norm) + {TOOL_ALIASES[norm]} else GroupTools(norm);
      GatherNext(before, extraAllowed, capabilities[..i], cap, brought);
      assert allowed == before + brought && capabilities[..i] + [cap] == capabilities[..i + 1];
    }
    assert capabilities[..|capabilities|] == capabilities;
    p := ToolPolicy(allowed, extraForbidden, (set cap | cap in capabilities), TOOL_ALIASES, readOnly);
  }

  /** A policy the router builds: from capabilities alone, nothing allowed besides. */
  ghost predicate BuiltFrom(p: ToolPolicy, caps: seq<string>) {
    && Gathered(p.allowed, {}, caps)
    && p.capabilities == (set cap | cap in caps) && p.aliases == TOOL_ALIASES
  }

  lemma CleanIsStripped(tool: string)
    requires CleanEnds(tool)
    ensures Strip(tool) == tool
  {
  }

  lemma BroughtIsPlain(cap: string, tool: string)
    requires Brings(cap, tool)
    ensures Plain(tool) && Strip(tool) == tool
  {
    hide CleanEnds, Marked, GroupTools;
    var norm := Strip(cap);
    if tool in GroupTools(norm) {
      GroupToolIsPlain(norm, tool);
    } else {
      var group := AliasLeadsToTool(norm);
      GroupToolIsPlain(group, tool);
    }
    CleanIsStripped(tool);
  }

  lemma BrowserIsBrought(tool: string)
    requires tool in BROWSER_TOOLS
    ensures Brings("browser.inspect", tool)
  {
    CleanIsStripped("browser.inspect");
    assert GroupTools("browser.inspect") == BROWSER;
    hide GroupTools, Strip;
  }

  /** The requests the router makes from a capability policy meet what `Proper` asks. */
  lemma RouterRequestIsProper(caps: seq<string>, p: ToolPolicy, r: Request)
    requires BuiltFrom(p, caps)
    requires r.allowed == p.allowed && (forall k :: k in r.order <==> k in r.allowed)
    requires r.wantsBrowser ==> "browser.inspect" in p.capabilities
    ensures Proper(r)
  {
    forall k | k in r.allowed ensures Strip(k) == k {
      hide Brings;
      var cap :| cap in caps && Brings(cap, k);
      BroughtIsPlain(cap, k);
    }
    if r.wantsBrowser {
      forall t | t in BROWSER_TOOLS ensures t in r.allowed {
        hide Brings;
        BrowserIsBrought(t);
      }
    }
  }

  /** A capability that is only an alias brings in one tool. */
  lemma AliasBringsOne(p: ToolPolicy, cap: string)
    requires BuiltFrom(p, [cap]) && cap in TOOL_ALIASES && Strip(cap) == cap && GroupTools(cap) == {}
    ensures p.allowed == {TOOL_ALIASES[cap]}
  {
    hide GroupTools;
    assert forall c :: c in [cap] <==> c == cap;
    forall t ensures t in p.allowed <==> t == TOOL_ALIASES[cap] {
      assert Brings(cap, t) <==> t == TOOL_ALIASES[cap];
    }
  }

  lemma ListIsFileAlias()
    ensures "filesystem.list" in FILE_ALIASES && FILE_ALIASES["filesystem.list"] == "list_directory"
  {
  }

  lemma StatusIsGitAlias()
    ensures "git.status" in GIT_ALIASES && GIT_ALIASES["git.status"] == "git_status"
  {
  }

  lemma ListIsAlias()
    ensures "filesystem.list" in TOOL_ALIASES && TOOL_ALIASES["filesystem.list"] == "list_directory"
  {
    NoGitAlias("filesystem.list");
    NoTerminalAlias("filesystem.list");
    NoSearchAlias("filesystem.list");
    ListIsFileAlias();
  }

  lemma StatusIsAlias()
    ensures "git.status" in TOOL_ALIASES && TOOL_ALIASES["git.status"] == "git_status"
  {
    NoTerminalAlias("git.status");
    NoSearchAlias("git.status");
    StatusIsGitAlias();
  }

  lemma AliasesAreNoGroups()
    ensures GroupTools("filesystem.list") == {} && GroupTools("git.status") == {}
    ensures Strip("filesystem.list") == "filesystem.list" && Strip("git.status") == "git.status"
  {
    CleanIsStripped("filesystem.list");
    CleanIsStripped("git.status");
  }

  lemma ListBringsOne(p: ToolPolicy)
    requires BuiltFrom(p, ["filesystem.list"])
    ensures p.allowed == {"list_directory"}
  {
    hide BuiltFrom, GroupTools, Strip;
    ListIsAlias();
    AliasesAreNoGroups();
    AliasBringsOne(p, "filesystem.list");
  }

  lemma StatusBringsOne(p: ToolPolicy)
    requires BuiltFrom(p, ["git.status"])
    ensures p.allowed == {"git_status"}
  {
    hide BuiltFrom, GroupTools, Strip;
    StatusIsAlias();
    AliasesAreNoGroups();
    AliasBringsOne(p, "git.status");
  }

  /**
   Two tasks whose skills need a directory listing and then a git status, and nothing else: the
   router's own policies allow one tool each, and the second request exposes the first one's tool.
   */
  lemma RouterExposesStaleTool(p: ToolPolicy, q: ToolPolicy)
    requires BuiltFrom(p, ["filesystem.list"]) && BuiltFrom(q, ["git.status"])
    ensures var first, second := Quiet("list_directory"), Quiet("git_status");
      && first.allowed == p.allowed && Proper(first) && second.allowed == q.allowed && Proper(second)
      && "list_directory" !in q.allowed
      && "list_directory" in ExecutableNames(RunIn(map[], [first, second]))
  {
    hide *;
    ListBringsOne(p);
    StatusBringsOne(q);
    assert |"list_directory"| != |"git_status"|;
    OneToolEach(p, q, "filesystem.list", "git.status", "list_directory", "git_status");
  }

  lemma OneToolEach(p: ToolPolicy, q: ToolPolicy, cap: string, otherCap: string, tool: string, other: string)
    requires BuiltFrom(p, [cap]) && p.allowed == {tool}
    requires BuiltFrom(q, [otherCap]) && q.allowed == {other} && tool != other
    ensures var first, second := Quiet(tool), Quiet(other);
      && first.allowed == p.allowed && Proper(first) && second.allowed == q.allowed && Proper(second)
      && tool !in q.allowed && tool in ExecutableNames(RunIn(map[], [first, second]))
  {
    hide *;
    QuietIsProper(p, cap, tool);
    QuietIsProper(q, otherCap, other);
    StaleToolIsExposed(tool, other);
  }

  lemma QuietIsProper(p: ToolPolicy, cap: string, tool: string)
    requires BuiltFrom(p, [cap]) && p.allowed == {tool}
    ensures Proper(Quiet(tool)) && Quiet(tool).allowed == p.allowed && Strip(tool) == tool
  {
    hide BuiltFrom, Strip;
    RouterRequestIsProper([cap], p, Quiet(tool));
    assert tool in Quiet(tool).allowed;
  }

  // ---------- Merging ----------

  /** The program's merge: every set is united, the flags are or-ed, the other's aliases win. */
  function Merge(p: ToolPolicy, q: ToolPolicy): ToolPolicy {
    ToolPolicy(
      p.allowed + q.allowed, p.forbidden + q.forbidden, p.capabilities + q.capabilities,
      p.aliases + q.aliases, p.readOnly || q.readOnly)
  }

  /** The name is resolved by the other policy's aliases, which go before the own ones. */
  predicate Overridden(p: ToolPolicy, q: ToolPolicy, name: string) {
    var clean := Strip(name);
    clean in q.aliases || (clean !in p.aliases && Replace(clean, ":", ".") in q.aliases)
  }

  lemma MergeResolves(p: ToolPolicy, q: ToolPolicy, name: string)
    ensures Resolve(Merge(p, q), name) == Resolve(if Overridden(p, q, name) then q else p, name)
  {
  }

  lemma MergeBans(p: ToolPolicy, q: ToolPolicy)
    ensures Banned(Merge(p, q)) == Banned(p) + Banned(q)
  {
  }

  lemma MergeLists(p: ToolPolicy, q: ToolPolicy, name: string, resolved: string)
    ensures ListedAs(Merge(p, q), name, resolved) <==> ListedAs(p, name, resolved) || ListedAs(q, name, resolved)
  {
    var m := Merge(p, q);
    assert forall cap :: cap in m.capabilities <==> cap in p.capabilities || cap in q.capabilities;
    hide GroupTools;
    assert Names(name, resolved, m.allowed) <==> Names(name, resolved, p.allowed) || Names(name, resolved, q.allowed);
  }

  /** What a merge allows, for any two policies; names mean what they mean to the merge. */
  lemma MergeAllows(p: ToolPolicy, q: ToolPolicy, name: string)
    ensures var resolved := Resolve(Merge(p, q), name);
      Allows(Merge(p, q), name) <==>
        && name != "" && !Names(name, resolved, Banned(p) + Banned(q))
        && (ListedAs(p, name, resolved) || ListedAs(q, name, resolved) || (Open(p) && Open(q)))
  {
    MergeBans(p, q);
    MergeLists(p, q, name, Resolve(Merge(p, q), name));
    hide Resolve, ListedAs, Banned;
  }

  /** The policy whose aliases give a name its meaning in the merge, and the other one. */
  function Standing(p: ToolPolicy, q: ToolPolicy, name: string): ToolPolicy {
    if Overridden(p, q, name) then q else p
  }

  function Outvoted(p: ToolPolicy, q: ToolPolicy, name: string): ToolPolicy {
    if Overridden(p, q, name) then p else q
  }

  /** The name is banned by its own sake, or by what it means to the policy whose alias stands. */
  predicate StaysBanned(p: ToolPolicy, q: ToolPolicy, name: string) {
    Names(name, Resolve(Standing(p, q, name), name), Banned(p) + Banned(q))
  }

  /** The two policies agree on listing a name that has its standing meaning. */
  predicate ListingsAgree(p: ToolPolicy, q: ToolPolicy, name: string) {
    var standing, outvoted := Standing(p, q, name), Outvoted(p, q, name);
    && (Listed(standing, name) ==> Open(outvoted) || Listed(outvoted, name))
    && (ListedAs(outvoted, name, Resolve(standing, name)) ==>
          (Open(standing) || Listed(standing, name)) && Listed(outvoted, name))
  }

  /**
   On one name a merge is at least as restrictive as both policies exactly when the name stays banned,
   or the policies agree on its listing and no ban is lost: only the outvoted policy can lose one, on
   what its own alias makes of the name, and only where the name is then listed.
   */
  lemma MergeRestrictsNameIff(p: ToolPolicy, q: ToolPolicy, name: string)
    ensures var standing, outvoted := Standing(p, q, name), Outvoted(p, q, name);
      (Allows(Merge(p, q), name) ==> Allows(p, name) && Allows(q, name)) <==>
        || name == "" || StaysBanned(p, q, name)
        || (&& ListingsAgree(p, q, name)
            && (Resolve(outvoted, name) in Banned(outvoted) ==>
                  && !Listed(standing, name) && !ListedAs(outvoted, name, Resolve(standing, name))
                  && !(Open(p) && Open(q))))
  {
    MergeAllows(p, q, name);
    MergeResolves(p, q, name);
    OpenListsNothing(p, name, Resolve(q, name));
    OpenListsNothing(q, name, Resolve(p, name));
    hide Resolve, ListedAs, Banned, Overridden, Open;
  }

  lemma OpenListsNothing(p: ToolPolicy, name: string, resolved: string)
    ensures Open(p) ==> !ListedAs(p, name, resolved) && !Listed(p, name)
  {
    hide Resolve, GroupTools;
  }

  /** With the same aliases: a ban of either stands, and otherwise the policies have to agree on the name. */
  lemma MergeOfAlikeRestrictsIff(p: ToolPolicy, q: ToolPolicy, name: string)
    requires p.aliases == q.aliases
    ensures (Allows(Merge(p, q), name) ==> Allows(p, name) && Allows(q, name)) <==>
      || name == "" || Blocked(p, name) || Blocked(q, name)
      || ((Listed(p, name) ==> Listed(q, name) || Open(q)) && (Listed(q, name) ==> Listed(p, name) || Open(p)))
  {
    MergeAllows(p, q, name);
    assert Merge(p, q).aliases == p.aliases;
    assert Resolve(Merge(p, q), name) == Resolve(p, name) == Resolve(q, name);
    hide Resolve, ListedAs, Banned;
  }

  // ---------- Merging, over all names ----------

  /** A name that has to be decided by the listings, because neither policy bans it. */
  ghost predicate Unbanned(p: ToolPolicy, q: ToolPolicy, name: string) {
    name != "" && !Blocked(p, name) && !Blocked(q, name)
  }

  /**
   For policies with the same aliases, over all names: a merge is as restrictive as both exactly when
   one of them restricts nothing but bans, or every unbanned name is listed by both or by neither.
   */
  lemma MergeOfAlikeRestrictsAllIff(p: ToolPolicy, q: ToolPolicy)
    requires p.aliases == q.aliases
    ensures (forall name :: Allows(Merge(p, q), name) ==> Allows(p, name) && Allows(q, name)) <==>
      || Open(p) || Open(q)
      || forall name :: Unbanned(p, q, name) ==> (Listed(p, name) <==> Listed(q, name))
  {
    hide Resolve, ListedAs, Banned, Open, Allows, Listed, Blocked, Merge;
    forall name
      ensures (Allows(Merge(p, q), name) ==> Allows(p, name) && Allows(q, name)) <==>
        (Unbanned(p, q, name) ==>
          (Listed(p, name) ==> Listed(q, name) || Open(q)) && (Listed(q, name) ==> Listed(p, name) || Open(p)))
      ensures (Open(p) ==> !Listed(p, name)) && (Open(q) ==> !Listed(q, name))
    {
      MergeOfAlikeRestrictsIff(p, q, name);
      OpenListsNothing(p, name, "");
      OpenListsNothing(q, name, "");
    }
  }

  /** Every tool a policy lists, by name or by capability. */
  ghost function Tools(p: ToolPolicy): set<string> {
    p.allowed + set cap, tool | cap in p.capabilities && tool in GroupTools(cap) :: tool
  }

  /** Every listed tool has a name, and goes by it. */
  ghost predicate Tidy(p: ToolPolicy) {
    forall tool :: tool in Tools(p) ==> tool != "" && Resolve(p, tool) == tool
  }

  lemma ListedIff(p: ToolPolicy, name: string)
    requires Tidy(p)
    ensures Listed(p, name) <==> Resolve(p, name) in Tools(p)
  {
    hide Resolve, GroupTools;
    var resolved := Resolve(p, name);
    if cap :| cap in p.capabilities && Names(name, resolved, GroupTools(cap)) {
      assert name in GroupTools(cap) ==> name in Tools(p);
    }
  }

  /** The tools a policy lists and neither of two policies bans. */
  ghost function Free(p: ToolPolicy, q: ToolPolicy, listing: ToolPolicy): set<string> {
    Tools(listing) - Banned(p) - Banned(q)
  }

  /**
   For policies with the same aliases the documented promise, that a merge is as restrictive as both
   policies, holds for all names exactly when one of them restricts nothing but bans, or both list the
   same tools apart from banned ones.
   */
  lemma MergeRestrictsIff(p: ToolPolicy, q: ToolPolicy)
    requires p.aliases == q.aliases && Tidy(p) && Tidy(q)
    ensures (forall name :: Allows(Merge(p, q), name) ==> Allows(p, name) && Allows(q, name)) <==>
      Open(p) || Open(q) || Free(p, q, p) == Free(p, q, q)
  {
    if forall name :: Allows(Merge(p, q), name) ==> Allows(p, name) && Allows(q, name) {
      if !Open(p) && !Open(q) {
        forall tool ensures tool in Free(p, q, p) <==> tool in Free(p, q, q) {
          FreeToolIsShared(p, q, tool);
        }
      }
    }
    if Open(p) || Open(q) || Free(p, q, p) == Free(p, q, q) {
      forall name ensures Allows(Merge(p, q), name) ==> Allows(p, name) && Allows(q, name) {
        SharedToolsRestrict(p, q, name);
      }
    }
  }

  lemma SameMeaning(p: ToolPolicy, q: ToolPolicy, name: string)
    requires p.aliases == q.aliases
    ensures Resolve(p, name) == Resolve(q, name)
  {
  }

  lemma FreeToolIsShared(p: ToolPolicy, q: ToolPolicy, tool: string)
    requires p.aliases == q.aliases && Tidy(p) && Tidy(q) && !Open(p) && !Open(q)
    requires Allows(Merge(p, q), tool) ==> Allows(p, tool) && Allows(q, tool)
    ensures tool in Free(p, q, p) <==> tool in Free(p, q, q)
  {
    MergeOfAlikeRestrictsIff(p, q, tool);
    SameMeaning(p, q, tool);
    ListedIff(p, tool);
    ListedIff(q, tool);
    hide Resolve, Listed, Banned, Open, Tools, Allows;
  }

  lemma SharedToolsRestrict(p: ToolPolicy, q: ToolPolicy, name: string)
    requires p.aliases == q.aliases && Tidy(p) && Tidy(q)
    requires Open(p) || Open(q) || Free(p, q, p) == Free(p, q, q)
    ensures Allows(Merge(p, q), name) ==> Allows(p, name) && Allows(q, name)
  {
    hide Resolve, Listed, Banned, Open, Tools, Allows, Tidy, Merge, ListedAs;
    MergeOfAlikeRestrictsIff(p, q, name);
    SameMeaning(p, q, name);
    ListedIff(p, name);
    ListedIff(q, name);
    OpenListsNothing(p, name, Resolve(p, name));
    OpenListsNothing(q, name, Resolve(q, name));
    assert Resolve(p, name) in Free(p, q, p) <==>
      Resolve(p, name) in Tools(p) && Resolve(p, name) !in Banned(p) + Banned(q);
    assert Resolve(p, name) in Free(p, q, q) <==>
      Resolve(p, name) in Tools(q) && Resolve(p, name) !in Banned(p) + Banned(q);
  }

  lemma {:induction false} ReplaceAbsent(s: string)
    requires ':' !in s
    ensures Replace(s, ":", ".") == s
  {
    if s != "" {
      assert s[0] in s && forall c :: c in s[1..] ==> c in s;
      ReplaceAbsent(s[1..]);
    }
  }

  lemma PlainIsOwnName(p: ToolPolicy, tool: string)
    requires p.aliases == TOOL_ALIASES && Plain(tool)
    ensures Resolve(p, tool) == tool
  {
    CleanIsStripped(tool);
    ReplaceAbsent(tool);
    hide Strip, CleanEnds, Marked;
    if tool in TOOL_ALIASES {
      AliasIsMarked(tool);
    }
  }

  /** The policies the router builds meet what the theorem asks. */
  lemma BuiltIsTidy(p: ToolPolicy, caps: seq<string>)
    requires BuiltFrom(p, caps)
    ensures Tidy(p) && (Open(p) <==> caps == [])
  {
    hide Brings, GroupTools, Resolve, Marked, IsSpace;
    forall tool | tool in Tools(p) ensures tool != "" && Resolve(p, tool) == tool {
      if tool in p.allowed {
        var cap :| cap in caps && Brings(cap, tool);
        BroughtIsPlain(cap, tool);
      } else {
        var cap :| cap in p.capabilities && tool in GroupTools(cap);
        GroupToolIsPlain(cap, tool);
      }
      PlainIsOwnName(p, tool);
    }
    if caps != [] {
      assert caps[0] in p.capabilities;
    }
  }

  /**
   A merge lifts a ban of the first policy exactly when the ban is only on what the policy's alias
   leads to, and neither policy bans the name itself or what the other's alias makes of it.
   */
  lemma MergeLiftsBanIff(p: ToolPolicy, q: ToolPolicy, name: string)
    ensures Blocked(p, name) && !Blocked(Merge(p, q), name) <==>
      && Resolve(p, name) in Banned(p) && Overridden(p, q, name)
      && !Names(name, Resolve(q, name), Banned(p) + Banned(q))
  {
    MergeBans(p, q);
    MergeResolves(p, q, name);
    hide Resolve, Banned, Overridden;
  }

  /** It lifts one of the other policy only where the first policy's alias is the one that stands. */
  lemma MergeLiftsOtherBanIff(p: ToolPolicy, q: ToolPolicy, name: string)
    ensures Blocked(q, name) && !Blocked(Merge(p, q), name) <==>
      && Resolve(q, name) in Banned(q) && !Overridden(p, q, name)
      && !Names(name, Resolve(p, name), Banned(p) + Banned(q))
  {
    MergeBans(p, q);
    MergeResolves(p, q, name);
    hide Resolve, Banned, Overridden;
  }

  /** Two policies whose merge allows a tool that the first one does not list. */
  lemma MergeCanWiden()
    ensures var p, q := ToolPolicy({"a"}, {}, {}, map[], false), ToolPolicy({"b"}, {}, {}, map[], false);
      !Allows(p, "b") && Allows(Merge(p, q), "b")
  {
    var p, q := ToolPolicy({"a"}, {}, {}, map[], false), ToolPolicy({"b"}, {}, {}, map[], false);
    assert Strip("b") == "b" && Replace("b", ":", ".") == "b";
    assert "a"[0] != "b"[0];
    MergeAllows(p, q, "b");
  }

  /** Two policies whose merge allows a name that the first one bans. */
  lemma MergeCanLiftBan()
    ensures
      var p, q := ToolPolicy({}, {"r"}, {}, map["x" := "r"], false), ToolPolicy({}, {}, {}, map["x" := "l"], false);
      Blocked(p, "x") && Allows(Merge(p, q), "x")
  {
    var p, q := ToolPolicy({}, {"r"}, {}, map["x" := "r"], false), ToolPolicy({}, {}, {}, map["x" := "l"], false);
    assert Strip("x") == "x";
    assert "x"[0] != "r"[0] && "l"[0] != "r"[0];
    MergeAllows(p, q, "x");
  }
}
