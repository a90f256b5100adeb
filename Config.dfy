/**
 * Runtime configuration (internal/config/config.go): the default values, the
 * validation chain and `~` expansion. The home directory, `filepath.Join` and
 * regular-expression compilation (with its error text) are parameters.
 */
module Config {
  import opened Wrappers
  import opened Text

  datatype Config = Config(
    serverName: string,
    dbPath: string,
    logLevel: string,
    namespacePattern: string,
    defaultShortTtlHours: int,
    ttlCheckIntervalSeconds: int,
    maxContextPackItems: int,
    defaultSearchK: int)

  const DefaultNamespacePattern: string := "^[a-zA-Z0-9_.-]+(/[a-zA-Z0-9_.-]+){1,7}$"

  /** `os.UserHomeDir`, falling back to "." when it fails (None). */
  function UserHomeDir(home: Option<string>): (r: string)
    ensures home.Some? ==> r == home.value
    ensures home.None? ==> r == "."
  {
    home.GetOr(".")
  }

  function Default(home: string, join: seq<string> -> string): (c: Config)
    ensures c.serverName == "memory-mcp" && c.logLevel == "info"
    ensures c.dbPath == join([home, ".memory-mcp", "memories.db"])
    ensures c.namespacePattern == DefaultNamespacePattern
    ensures c.defaultShortTtlHours == 48 && c.ttlCheckIntervalSeconds == 60
    ensures c.maxContextPackItems == 8 && c.defaultSearchK == 10
  {
    Config("memory-mcp", join([home, ".memory-mcp", "memories.db"]), "info",
           DefaultNamespacePattern, 48, 60, 8, 10)
  }

  /** The numeric settings the memory service relies on. */
  predicate PositiveLimits(c: Config) {
    c.defaultShortTtlHours > 0 && c.ttlCheckIntervalSeconds > 0 &&
    c.maxContextPackItems > 0 && c.defaultSearchK > 0
  }

  /**
   * `Validate`: the first failing check, in source order, or None.
   * `compile` stands for `regexp.Compile`: None when the pattern compiles,
   * otherwise the text of its error, which the message wraps.
   */
  function Validate(c: Config, compile: string -> Option<string>): (r: Option<string>)
    ensures r.None? <==> c.serverName != [] && c.dbPath != [] && PositiveLimits(c) && compile(c.namespacePattern).None?
    ensures c.serverName == [] ==> r == Some("server_name must not be empty")
    ensures c.serverName != [] && c.dbPath == [] ==> r == Some("db_path must not be empty")
    ensures c.serverName != [] && c.dbPath != [] ==>
      && (c.defaultShortTtlHours <= 0 ==> r == Some("default_short_ttl_hours must be > 0"))
      && (c.defaultShortTtlHours > 0 && c.ttlCheckIntervalSeconds <= 0 ==> r == Some("ttl_check_interval_seconds must be > 0"))
      && (c.defaultShortTtlHours > 0 && c.ttlCheckIntervalSeconds > 0 && c.maxContextPackItems <= 0 ==>
            r == Some("max_context_pack_items must be > 0"))
      && (c.defaultShortTtlHours > 0 && c.ttlCheckIntervalSeconds > 0 && c.maxContextPackItems > 0 && c.defaultSearchK <= 0 ==>
            r == Some("default_search_k must be > 0"))
    ensures c.serverName != [] && c.dbPath != [] && PositiveLimits(c) && compile(c.namespacePattern).Some? ==>
      r == Some("invalid namespace_pattern: " + compile(c.namespacePattern).value)
  {
    if c.serverName == [] then Some("server_name must not be empty")
    else if c.dbPath == [] then Some("db_path must not be empty")
    else if c.defaultShortTtlHours <= 0 then Some("default_short_ttl_hours must be > 0")
    else if c.ttlCheckIntervalSeconds <= 0 then Some("ttl_check_interval_seconds must be > 0")
    else if c.maxContextPackItems <= 0 then Some("max_context_pack_items must be > 0")
    else if c.defaultSearchK <= 0 then Some("default_search_k must be > 0")
    else match compile(c.namespacePattern)
      case Some(err) => Some("invalid namespace_pattern: " + err)
      case None => None
  }

  /** The defaults pass validation whenever the joined path is non-empty and the pattern compiles. */
  lemma DefaultIsValid(home: string, join: seq<string> -> string, compile: string -> Option<string>)
    requires join([home, ".memory-mcp", "memories.db"]) != []
    requires compile(DefaultNamespacePattern).None?
    ensures Validate(Default(home, join), compile) == None
    ensures PositiveLimits(Default(home, join))
  {
  }

  /** `ExpandPath`: "~" and a "~/" prefix name the home directory. */
  function ExpandPath(p: string, home: string, join: seq<string> -> string): (r: string)
    ensures p == [] ==> r == []
    ensures p == "~" ==> r == home
    ensures HasPrefix(p, "~/") ==> r == join([home, p[2..]])
    ensures p != "~" && !HasPrefix(p, "~/") ==> r == p
  {
    if p == [] then p
    else if p == "~" then home
    else if HasPrefix(p, "~/") then join([home, p[2..]])
    else p
  }

  /** Expanding an already expanded path changes nothing, given a home that is not itself a `~` path. */
  lemma ExpandPathIdempotent(p: string, home: string, join: seq<string> -> string)
    requires home != "~" && !HasPrefix(home, "~/")
    requires forall x :: var j := join([home, x]); j != "~" && !HasPrefix(j, "~/")
    ensures ExpandPath(ExpandPath(p, home, join), home, join) == ExpandPath(p, home, join)
  {
    if HasPrefix(p, "~/") {
      var j := join([home, p[2..]]);
      assert j != "~" && !HasPrefix(j, "~/");
    }
  }
}
