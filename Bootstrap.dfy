/**
 * internal/bootstrap/bootstrap.go: the command list that registers the memory
 * server with the agent CLIs (codex, claude, gemini) that are installed, and
 * the option defaults `Bootstrap` applies first. Whether a CLI is on the PATH
 * (`exec.LookPath`) is a parameter.
 */
module Bootstrap {
  import opened Wrappers
  import opened Text

  datatype Options = Options(
    configPath: string,
    scope: string,
    serverName: string,
    serveCmd: string,
    all: bool,
    codex: bool,
    claude: bool,
    gemini: bool,
    dryRun: bool)

  /** An executable and its arguments. */
  datatype Command = Command(name: string, args: seq<string>)

  datatype BuildError = InvalidScope(scope: string) | ConfigPathRequired | ServeCommandRequired

  /** The errors of `Bootstrap` before it writes or runs anything. */
  datatype PlanError = Build(error: BuildError) | NoCommands

  /** The agent CLIs, in the order their commands are generated. */
  datatype Cli = Codex | Claude | Gemini

  const DefaultScope: string := "user"
  const DefaultServerName: string := "shared-memory"
  const DefaultServeCmd: string := "memory-mcp serve"
  const DefaultServeFields: seq<string> := ["memory-mcp", "serve"]

  function CliName(cli: Cli): string {
    match cli
    case Codex => "codex"
    case Claude => "claude"
    case Gemini => "gemini"
  }

  /** A CLI is wanted when it is named or when all are. */
  predicate Selected(opts: Options, cli: Cli) {
    opts.all || match cli
      case Codex => opts.codex
      case Claude => opts.claude
      case Gemini => opts.gemini
  }

  /** The serve command, `memory-mcp serve` when it is blank. */
  function ServeCommand(opts: Options): (s: string)
    ensures !IsBlank(s)
    ensures !IsBlank(opts.serveCmd) ==> s == opts.serveCmd
  {
    if IsBlank(opts.serveCmd) then NotBlankOfWordStart(DefaultServeCmd); DefaultServeCmd else opts.serveCmd
  }

  /** The fields of the serve command; see ServeFieldsOfServeCommand. */
  function ServeFields(opts: Options): seq<string> {
    if IsBlank(opts.serveCmd) then DefaultServeFields else Fields(opts.serveCmd)
  }

  /** The serve command and its config flag, the tail of every add command. */
  function MemoryCmd(opts: Options): seq<string> {
    ServeFields(opts) + ["--config", opts.configPath]
  }

  function RemoveCommand(cli: Cli, opts: Options): Command {
    match cli
    case Codex => Command("codex", ["mcp", "remove", opts.serverName])
    case Claude => Command("claude", ["mcp", "remove", "-s", opts.scope, opts.serverName])
    case Gemini => Command("gemini", ["mcp", "remove", "-s", opts.scope, opts.serverName])
  }

  /** The arguments of an add command up to the serve command. */
  function AddPrefix(cli: Cli, opts: Options): seq<string> {
    match cli
    case Codex => ["mcp", "add", opts.serverName, "--"]
    case Claude => ["mcp", "add", "-s", opts.scope, opts.serverName, "--"]
    case Gemini => ["mcp", "add", "-s", opts.scope, opts.serverName]
  }

  function AddCommand(cli: Cli, opts: Options, memoryCmd: seq<string>): Command {
    Command(CliName(cli), AddPrefix(cli, opts) + memoryCmd)
  }

  /** The remove-then-add pair of one CLI, or nothing when it is not wanted or not installed. */
  function Pair(cli: Cli, opts: Options, memoryCmd: seq<string>, installed: string -> bool): seq<Command> {
    if Selected(opts, cli) && installed(CliName(cli)) then [RemoveCommand(cli, opts), AddCommand(cli, opts, memoryCmd)]
    else []
  }

  /** The commands for a given serve tail m: codex, then claude, then gemini. */
  function CommandsWith(opts: Options, m: seq<string>, installed: string -> bool): seq<Command> {
    Pair(Codex, opts, m, installed) + Pair(Claude, opts, m, installed) + Pair(Gemini, opts, m, installed)
  }

  /** The commands `BuildCommands` returns once its guards pass. */
  function Commands(opts: Options, installed: string -> bool): (cmds: seq<Command>)
    ensures |cmds| <= 6 && |cmds| % 2 == 0
    ensures cmds == [] <==> forall cli: Cli :: Selected(opts, cli) ==> !installed(CliName(cli))
  {
    CommandsBound(opts, MemoryCmd(opts), installed);
    CommandsPairs(opts, MemoryCmd(opts), installed);
    CommandsEmpty(opts, MemoryCmd(opts), installed);
    CommandsWith(opts, MemoryCmd(opts), installed)
  }

  /** `BuildCommands`; its error cases are BuildCommandsErrors. */
  function BuildCommands(opts: Options, installed: string -> bool): (r: Result<seq<Command>, BuildError>)
    ensures r.Success? ==> r.value == Commands(opts, installed)
  {
    if opts.scope != "user" && opts.scope != "project" then Failure(InvalidScope(opts.scope))
    else if IsBlank(opts.configPath) then Failure(ConfigPathRequired)
    else if ServeFields(opts) == [] then Failure(ServeCommandRequired)
    else Success(Commands(opts, installed))
  }

  /** The field defaults at the top of `Bootstrap`; with no CLI chosen, all of them are. */
  function Defaults(opts: Options): (o: Options)
    ensures o.scope != [] && o.serverName != [] && !IsBlank(o.serveCmd)
    ensures o.all || o.codex || o.claude || o.gemini
  {
    var o := opts.(
      scope := if opts.scope == "" then DefaultScope else opts.scope,
      serverName := if opts.serverName == "" then DefaultServerName else opts.serverName,
      serveCmd := ServeCommand(opts),
      all := opts.all || !(opts.codex || opts.claude || opts.gemini));
    o
  }

  /** What `Bootstrap` would run: the defaults, then the commands, of which there must be some. */
  function Plan(opts: Options, installed: string -> bool): (r: Result<seq<Command>, PlanError>)
    ensures r.Success? ==> r.value != [] && r.value == Commands(Defaults(opts), installed)
  {
    match BuildCommands(Defaults(opts), installed)
    case Failure(e) => Failure(Build(e))
    case Success(cmds) => if cmds == [] then Failure(NoCommands) else Success(cmds)
  }

  // ---------------------------------------------------------------------------
  // Properties

  /** A string that is not blank has at least one field. */
  lemma FieldsOfNotBlank(s: string)
    requires !IsBlank(s)
    ensures Fields(s) != []
  {
    BlankIffAllSpace(s);
    TrimLeftAllSpace(s);
  }

  /**
   * The guards: a scope other than user or project, then a blank config path.
   * The third guard never fires, since a serve command that is not blank has a field.
   */
  lemma BuildCommandsErrors(opts: Options, installed: string -> bool)
    ensures BuildCommands(opts, installed).Failure? <==> (opts.scope != "user" && opts.scope != "project") || IsBlank(opts.configPath)
    ensures opts.scope != "user" && opts.scope != "project" ==> BuildCommands(opts, installed) == Failure(InvalidScope(opts.scope))
    ensures opts.scope in {"user", "project"} && IsBlank(opts.configPath) ==> BuildCommands(opts, installed) == Failure(ConfigPathRequired)
  {
    FieldsOfNotBlank(ServeCommand(opts));
    ServeFieldsOfServeCommand(opts);
  }

  /** `strings.Fields` of the serve command after its default is applied. */
  lemma ServeFieldsOfServeCommand(opts: Options)
    ensures ServeFields(opts) == Fields(ServeCommand(opts))
  {
    if IsBlank(opts.serveCmd) {
      DefaultServeFieldsOk();
    }
  }

  lemma DefaultServeFieldsOk()
    ensures Fields(DefaultServeCmd) == DefaultServeFields
  {
    assert DefaultServeCmd == DefaultServeFields[0] + " " + DefaultServeFields[1];
    FieldsOfTwoWords(DefaultServeFields[0], DefaultServeFields[1]);
  }

  lemma FieldsOfTwoWords(a: string, b: string)
    requires a != [] && NoSpace(a) && b != [] && NoSpace(b)
    ensures Fields(a + " " + b) == [a, b]
  {
    FieldsOfWordSpace(a, b);
    FieldsOfWord(b);
  }

  /** A blank serve command means `memory-mcp serve`. */
  lemma DefaultMemoryCmd(opts: Options)
    requires IsBlank(opts.serveCmd)
    ensures MemoryCmd(opts) == ["memory-mcp", "serve", "--config", opts.configPath]
  {
  }

  /** With all three CLIs wanted and installed: six commands, remove then add for codex, claude and gemini. */
  lemma CommandsAll(opts: Options, m: seq<string>, installed: string -> bool)
    requires opts.all && installed("codex") && installed("claude") && installed("gemini")
    ensures var cmds := CommandsWith(opts, m, installed);
      && |cmds| == 6
      && cmds[0].name == "codex" && cmds[1].name == "codex"
      && cmds[2].name == "claude" && cmds[3].name == "claude"
      && cmds[4].name == "gemini" && cmds[5].name == "gemini"
      && (forall i :: 0 <= i < 6 ==> cmds[i].args[1] == if i % 2 == 0 then "remove" else "add")
  {
  }

  /** At most two commands for each of the three CLIs. */
  lemma CommandsBound(opts: Options, m: seq<string>, installed: string -> bool)
    ensures |CommandsWith(opts, m, installed)| <= 6
  {
  }

  /** A remove command, then the add command of the same CLI. */
  predicate RemoveThenAdd(c: Command, d: Command) {
    && c.name == d.name
    && |c.args| >= 2 && c.args[..2] == ["mcp", "remove"]
    && |d.args| >= 2 && d.args[..2] == ["mcp", "add"]
  }

  /** Remove commands at even positions, each followed by the add command of the same CLI. */
  predicate Paired(cmds: seq<Command>) {
    && |cmds| % 2 == 0
    && forall i :: 0 <= i < |cmds| && i % 2 == 0 ==> RemoveThenAdd(cmds[i], cmds[i + 1])
  }

  lemma PairPaired(cli: Cli, opts: Options, m: seq<string>, installed: string -> bool)
    ensures Paired(Pair(cli, opts, m, installed))
  {
    if Pair(cli, opts, m, installed) != [] {
      assert AddCommand(cli, opts, m).args[..2] == AddPrefix(cli, opts)[..2];
    }
  }

  lemma {:induction false} PairedAppend(a: seq<Command>, b: seq<Command>)
    requires Paired(a) && Paired(b)
    ensures Paired(a + b)
  {
    forall i | 0 <= i < |a + b| && i % 2 == 0 ensures RemoveThenAdd((a + b)[i], (a + b)[i + 1]) {
      if i < |a| {
        assert (a + b)[i] == a[i] && (a + b)[i + 1] == a[i + 1];
      } else {
        assert (a + b)[i] == b[i - |a|] && (a + b)[i + 1] == b[i - |a| + 1];
      }
    }
  }

  /** Every command comes in a pair: the remove of a CLI, then its add. */
  lemma CommandsPairs(opts: Options, m: seq<string>, installed: string -> bool)
    ensures Paired(CommandsWith(opts, m, installed))
  {
    PairPaired(Codex, opts, m, installed);
    PairPaired(Claude, opts, m, installed);
    PairPaired(Gemini, opts, m, installed);
    PairedAppend(Pair(Codex, opts, m, installed), Pair(Claude, opts, m, installed));
    PairedAppend(Pair(Codex, opts, m, installed) + Pair(Claude, opts, m, installed), Pair(Gemini, opts, m, installed));
  }

  /**
   * A CLI has commands in the list exactly when it is wanted and installed,
   * and then they are its remove command followed at once by its add command.
   */
  lemma CommandsSelect(opts: Options, m: seq<string>, installed: string -> bool, cli: Cli)
    ensures var cmds := CommandsWith(opts, m, installed);
      (exists i :: 0 <= i < |cmds| && cmds[i].name == CliName(cli)) <==> Selected(opts, cli) && installed(CliName(cli))
    ensures var cmds := CommandsWith(opts, m, installed);
      Selected(opts, cli) && installed(CliName(cli)) ==>
        exists i :: 0 <= i < |cmds| - 1 && cmds[i] == RemoveCommand(cli, opts) && cmds[i + 1] == AddCommand(cli, opts, m)
  {
    var cmds := CommandsWith(opts, m, installed);
    if Selected(opts, cli) && installed(CliName(cli)) {
      var i := match cli case Codex => 0 case Claude => |Pair(Codex, opts, m, installed)|
        case Gemini => |Pair(Codex, opts, m, installed)| + |Pair(Claude, opts, m, installed)|;
      assert cmds[i] == RemoveCommand(cli, opts) && cmds[i + 1] == AddCommand(cli, opts, m);
    }
  }

  /** No command at all exactly when no wanted CLI is installed. */
  lemma CommandsEmpty(opts: Options, m: seq<string>, installed: string -> bool)
    ensures CommandsWith(opts, m, installed) == [] <==> forall cli: Cli :: Selected(opts, cli) ==> !installed(CliName(cli))
  {
  }

  /**
   * Every add command ends with the serve tail m; codex and claude put `--`
   * before it, gemini the server name.
   */
  predicate AddsEndWith(cmds: seq<Command>, m: seq<string>, serverName: string) {
    forall i :: 0 <= i < |cmds| && |cmds[i].args| >= 2 && cmds[i].args[1] == "add" ==>
      && |m| < |cmds[i].args|
      && cmds[i].args[|cmds[i].args| - |m|..] == m
      && cmds[i].args[|cmds[i].args| - |m| - 1] == (if cmds[i].name == "gemini" then serverName else "--")
  }

  lemma PairAddsEndWith(cli: Cli, opts: Options, m: seq<string>, installed: string -> bool)
    ensures AddsEndWith(Pair(cli, opts, m, installed), m, opts.serverName)
  {
    if Pair(cli, opts, m, installed) != [] {
      var p := AddPrefix(cli, opts);
      assert AddCommand(cli, opts, m).args[|p| + |m| - |m|..] == m;
      assert (p + m)[|p| - 1] == p[|p| - 1];
    }
  }

  lemma {:induction false} AddsEndWithAppend(a: seq<Command>, b: seq<Command>, m: seq<string>, serverName: string)
    requires AddsEndWith(a, m, serverName) && AddsEndWith(b, m, serverName)
    ensures AddsEndWith(a + b, m, serverName)
  {
    forall i | 0 <= i < |a + b|
      ensures (a + b)[i] == if i < |a| then a[i] else b[i - |a|]
    {
    }
  }

  /** Every add command ends with the serve command's fields, `--config` and the config path. */
  lemma AddCommandsEndWithServeCmd(opts: Options, m: seq<string>, installed: string -> bool)
    ensures AddsEndWith(CommandsWith(opts, m, installed), m, opts.serverName)
  {
    PairAddsEndWith(Codex, opts, m, installed);
    PairAddsEndWith(Claude, opts, m, installed);
    PairAddsEndWith(Gemini, opts, m, installed);
    AddsEndWithAppend(Pair(Codex, opts, m, installed), Pair(Claude, opts, m, installed), m, opts.serverName);
    AddsEndWithAppend(Pair(Codex, opts, m, installed) + Pair(Claude, opts, m, installed), Pair(Gemini, opts, m, installed), m, opts.serverName);
  }

  /** After the defaults, with no CLI named, every installed CLI is registered. */
  lemma PlanWithoutFlags(opts: Options, installed: string -> bool)
    requires !opts.all && !opts.codex && !opts.claude && !opts.gemini
    requires opts.scope == "" && !IsBlank(opts.configPath)
    requires installed("codex") && installed("claude") && installed("gemini")
    ensures Plan(opts, installed).Success? && |Plan(opts, installed).value| == 6
  {
    BuildCommandsErrors(Defaults(opts), installed);
    CommandsAll(Defaults(opts), MemoryCmd(Defaults(opts)), installed);
  }

  /** `Bootstrap` gives up with no commands exactly when no wanted CLI is installed. */
  lemma PlanNoCommands(opts: Options, installed: string -> bool)
    requires BuildCommands(Defaults(opts), installed).Success?
    ensures Plan(opts, installed) == Failure(NoCommands) <==>
      forall cli: Cli :: Selected(Defaults(opts), cli) ==> !installed(CliName(cli))
  {
    CommandsEmpty(Defaults(opts), MemoryCmd(Defaults(opts)), installed);
  }

  /** The defaults change only empty fields, and applying them twice changes nothing more. */
  lemma DefaultsKeepSetFields(opts: Options)
    ensures var o := Defaults(opts);
      && (opts.scope != "" ==> o.scope == opts.scope)
      && (opts.serverName != "" ==> o.serverName == opts.serverName)
      && (!IsBlank(opts.serveCmd) ==> o.serveCmd == opts.serveCmd)
      && o.configPath == opts.configPath && o.dryRun == opts.dryRun
      && o.codex == opts.codex && o.claude == opts.claude && o.gemini == opts.gemini
      && (opts.all ==> o.all)
    ensures Defaults(Defaults(opts)) == Defaults(opts)
  {
  }
}
