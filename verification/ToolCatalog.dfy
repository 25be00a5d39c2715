/** The program's catalog of tools: aliases, the tools of each capability, and what their names look like. */
module ToolCatalog {
  import opened Text

  const FILE_ALIASES: map<string, string> := map[
    "filesystem.read" := "read_file", "filesystem.write" := "write_file",
    "filesystem.list" := "list_directory", "filesystem.delete" := "delete_file",
    "filesystem.rename" := "rename_file", "filesystem.move" := "move_file",
    "filesystem.replace" := "replace_file_content", "filesystem.diff" := "apply_diff_blocks",
    "filesystem.patch" := "apply_patch"]

  const GIT_ALIASES: map<string, string> := map[
    "git.status" := "git_status", "git.diff" := "git_diff", "git.log" := "git_log",
    "git.show" := "git_show", "git.blame" := "git_blame", "git.commit" := "git_commit",
    "git.branch" := "git_branch", "git.checkout" := "git_checkout", "git.restore" := "git_restore",
    "git.patch" := "git_patch", "git.init" := "git_init"]

  const TERMINAL_ALIASES: map<string, string> := map[
    "terminal.execute" := "terminal_execute", "terminal.run" := "terminal_execute",
    "terminal.test" := "run_tests", "terminal.environment" := "check_environment",
    "shell.run" := "terminal_execute", "run_command" := "terminal_execute"]

  const SEARCH_ALIASES: map<string, string> := map[
    "browser.console" := "browser_console", "browser.inspect" := "browser_inspect",
    "browser.network" := "browser_network", "browser.snapshot" := "browser_snapshot",
    "codebase.symbols" := "find_symbol", "codebase.references" := "find_references",
    "codebase.dependencies" := "get_dependencies", "codebase.map" := "get_codebase_map",
    "memory.store" := "store_memory", "memory.search" := "search_memory"]

  const TOOL_ALIASES: map<string, string> := FILE_ALIASES + GIT_ALIASES + TERMINAL_ALIASES + SEARCH_ALIASES

  const FILESYSTEM_READ: set<string> := {"read_file", "list_directory", "get_file_info"}

  const FILESYSTEM_WRITE: set<string> := {
    "write_file", "replace_file_content", "insert_lines", "delete_lines", "apply_diff_blocks",
    "rename_file", "move_file", "delete_file", "apply_patch"}

  const GIT_INSPECT: set<string> := {"git_status", "git_diff", "git_log", "git_show", "git_blame"}

  const GIT_MUTATE: set<string> := {
    "git_commit", "git_branch", "git_checkout", "git_restore", "git_patch", "git_init"}

  const TERMINAL: set<string> := {"terminal_execute", "run_tests", "check_environment"}

  const BROWSER: set<string> := {"browser_console", "browser_inspect", "browser_network", "browser_snapshot"}

  const SEARCH: set<string> := {
    "find_symbol", "find_references", "get_dependencies", "get_codebase_map", "search_memory", "query_symbols"}

  const MEMORY: set<string> := {"search_memory", "query_symbols"}

  const STORE: set<string> := {"store_memory"}

  const TESTS: set<string> := {"run_tests", "terminal_execute", "ast_syntax_check"}

  /** The tools of a capability; none for a name that is no capability. */
  function GroupTools(cap: string): set<string> {
    if cap == "filesystem.read" then FILESYSTEM_READ
    else if cap == "filesystem.write" then FILESYSTEM_WRITE
    else if cap == "git.inspect" then GIT_INSPECT
    else if cap == "git.mutate" then GIT_MUTATE
    else if cap == "terminal.run" then TERMINAL
    else if cap == "browser.inspect" then BROWSER
    else if cap == "codebase.search" then SEARCH
    else if cap == "memory.read" then MEMORY
    else if cap == "memory.write" then STORE
    else if cap == "verification.test" then TESTS
    else {}
  }

  // ---------- Names ----------

  /** A name with no blank at either end. */
  predicate CleanEnds(tool: string) {
    tool != "" && !IsSpace(tool[0]) && !IsSpace(tool[|tool| - 1])
  }

  /** A name with a mark that parts a capability from a tool, as every alias but one has. */
  predicate Marked(name: string) {
    '.' in name || ':' in name || name == "run_command"
  }

  lemma AliasIsMarked(alias: string)
    requires alias in TOOL_ALIASES
    ensures Marked(alias)
  {
    if alias in FILE_ALIASES {
      FileAliasIsMarked(alias);
    } else if alias in GIT_ALIASES {
      GitAliasIsMarked(alias);
    } else if alias in SEARCH_ALIASES {
      SearchAliasIsMarked(alias);
    } else {
      TerminalAliasIsMarked(alias);
    }
  }

  lemma FileAliasIsMarked(alias: string)
    requires alias in FILE_ALIASES
    ensures '.' in alias
  {
  }

  lemma GitAliasIsMarked(alias: string)
    requires alias in GIT_ALIASES
    ensures '.' in alias
  {
  }

  lemma TerminalAliasIsMarked(alias: string)
    requires alias in TERMINAL_ALIASES
    ensures '.' in alias || alias == "run_command"
  {
  }

  lemma SearchAliasIsMarked(alias: string)
    requires alias in SEARCH_ALIASES
    ensures '.' in alias
  {
  }

  lemma NoGitAlias(name: string)
    requires name != "" && name[0] != 'g'
    ensures name !in GIT_ALIASES
  {
  }

  lemma NoTerminalAlias(name: string)
    requires name != "" && name[0] !in {'t', 's', 'r'}
    ensures name !in TERMINAL_ALIASES
  {
  }

  lemma NoSearchAlias(name: string)
    requires name != "" && name[0] !in {'b', 'c', 'm'}
    ensures name !in SEARCH_ALIASES
  {
  }

  /** Every alias leads to a tool of some capability. */
  lemma AliasLeadsToTool(alias: string) returns (cap: string)
    requires alias in TOOL_ALIASES
    ensures TOOL_ALIASES[alias] in GroupTools(cap)
  {
    var tool := TOOL_ALIASES[alias];
    hide GroupTools;
    if alias in SEARCH_ALIASES {
      cap := SearchAliasLeads(alias);
    } else if alias in TERMINAL_ALIASES {
      cap := "terminal.run";
      TerminalAliasLeads(alias);
    } else if alias in GIT_ALIASES {
      cap := GitAliasLeads(alias);
    } else {
      cap := FileAliasLeads(alias);
    }
  }

  lemma FileAliasLeads(alias: string) returns (cap: string)
    requires alias in FILE_ALIASES
    ensures FILE_ALIASES[alias] in GroupTools(cap)
  {
    assert GroupTools("filesystem.read") == FILESYSTEM_READ && GroupTools("filesystem.write") == FILESYSTEM_WRITE;
    hide GroupTools;
    cap := if FILE_ALIASES[alias] in FILESYSTEM_READ then "filesystem.read" else "filesystem.write";
  }

  lemma GitAliasLeads(alias: string) returns (cap: string)
    requires alias in GIT_ALIASES
    ensures GIT_ALIASES[alias] in GroupTools(cap)
  {
    assert GroupTools("git.inspect") == GIT_INSPECT && GroupTools("git.mutate") == GIT_MUTATE;
    hide GroupTools;
    cap := if GIT_ALIASES[alias] in GIT_INSPECT then "git.inspect" else "git.mutate";
  }

  lemma TerminalAliasLeads(alias: string)
    requires alias in TERMINAL_ALIASES
    ensures TERMINAL_ALIASES[alias] in GroupTools("terminal.run")
  {
    assert GroupTools("terminal.run") == TERMINAL;
    hide GroupTools;
  }

  lemma SearchAliasLeads(alias: string) returns (cap: string)
    requires alias in SEARCH_ALIASES
    ensures SEARCH_ALIASES[alias] in GroupTools(cap)
  {
    assert GroupTools("browser.inspect") == BROWSER && GroupTools("codebase.search") == SEARCH;
    assert GroupTools("memory.read") == MEMORY && GroupTools("memory.write") == STORE;
    hide GroupTools;
    var tool := SEARCH_ALIASES[alias];
    cap := if tool in BROWSER then "browser.inspect" else if tool in SEARCH then "codebase.search" else "memory.write";
  }

  /** A tool of a capability goes by its own name: clean, and no alias. */
  predicate Plain(tool: string) {
    CleanEnds(tool) && !Marked(tool)
  }

  lemma FileToolIsPlain(tool: string)
    requires tool in FILESYSTEM_READ
    ensures Plain(tool)
  {
  }

  lemma WriteToolIsPlain(tool: string)
    requires tool in FILESYSTEM_WRITE
    ensures Plain(tool)
  {
    WriteToolIsClean(tool);
    hide CleanEnds;
  }

  lemma WriteToolIsClean(tool: string)
    requires tool in FILESYSTEM_WRITE
    ensures CleanEnds(tool)
  {
  }

  lemma GitToolIsPlain(tool: string)
    requires tool in GIT_INSPECT
    ensures Plain(tool)
  {
  }

  lemma MutatingToolIsPlain(tool: string)
    requires tool in GIT_MUTATE
    ensures Plain(tool)
  {
  }

  lemma RunToolIsPlain(tool: string)
    requires tool in TERMINAL + TESTS
    ensures Plain(tool)
  {
  }

  lemma BrowserToolIsPlain(tool: string)
    requires tool in BROWSER
    ensures Plain(tool)
  {
  }

  lemma SearchToolIsPlain(tool: string)
    requires tool in SEARCH
    ensures Plain(tool)
  {
    SearchToolIsClean(tool);
    hide CleanEnds;
  }

  lemma SearchToolIsClean(tool: string)
    requires tool in SEARCH
    ensures CleanEnds(tool)
  {
  }

  lemma StoreToolIsPlain(tool: string)
    requires tool in STORE
    ensures Plain(tool)
  {
  }

  lemma GroupToolIsPlain(cap: string, tool: string)
    requires tool in GroupTools(cap)
    ensures Plain(tool)
  {
    hide Plain;
    if tool in FILESYSTEM_READ {
      FileToolIsPlain(tool);
    } else if tool in FILESYSTEM_WRITE {
      WriteToolIsPlain(tool);
    } else if tool in GIT_INSPECT {
      GitToolIsPlain(tool);
    } else if tool in GIT_MUTATE {
      MutatingToolIsPlain(tool);
    } else if tool in TERMINAL + TESTS {
      RunToolIsPlain(tool);
    } else if tool in BROWSER {
      BrowserToolIsPlain(tool);
    } else if tool in SEARCH {
      SearchToolIsPlain(tool);
    } else {
      StoreToolIsPlain(tool);
    }
  }
}
