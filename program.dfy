/**
 * Program.cs: scanning the command line for flags and their values, and the
 * decisions `Main` takes from it — which exit code it returns without
 * starting the daemon, and which settings the daemon is given otherwise.
 */
module CommandLine {
  import opened Wrappers
  import opened Text
  import D = DaemonConfig

  const HelpFlag: seq<string> := ["-h", "--help"]
  const VersionFlag: seq<string> := ["-V", "--version"]
  const DaemonFlag: seq<string> := ["-d", "--daemon"]
  const ServerFlag: seq<string> := ["-s", "--server"]
  const PortFlag: seq<string> := ["-p", "--port"]
  const LevelFlag: seq<string> := ["-l", "--level"]
  const TestFlag: seq<string> := ["-t", "--test"]
  const VerboseFlag: seq<string> := ["-v", "--verbose"]

  /** `Has`: some argument is exactly (ordinal, case-sensitive) one of the spellings. */
  predicate Has(args: seq<string>, spellings: seq<string>)
  {
    exists i :: 0 <= i < |args| && args[i] in spellings
  }

  /** `k` is the position of the first argument that is one of the spellings. */
  predicate IsFirstMatch(args: seq<string>, spellings: seq<string>, k: int)
  {
    0 <= k < |args| && args[k] in spellings && forall j :: 0 <= j < k ==> args[j] !in spellings
  }

  /** `SkipWhile`: the arguments from the first one that is a spelling on; empty if there is none. */
  function SkipWhile(args: seq<string>, spellings: seq<string>): (r: seq<string>)
    ensures |r| <= |args| && r == args[|args| - |r|..]
    ensures forall j :: 0 <= j < |args| - |r| ==> args[j] !in spellings
    ensures r != [] ==> r[0] in spellings
  {
    if args == [] then []
    else if args[0] in spellings then args
    else SkipWhile(args[1..], spellings)
  }

  /** `Has` holds exactly when there is a first match, i.e. when `SkipWhile` leaves something. */
  lemma HasFirstMatch(args: seq<string>, spellings: seq<string>)
    ensures Has(args, spellings) <==> SkipWhile(args, spellings) != []
    ensures Has(args, spellings) <==> IsFirstMatch(args, spellings, |args| - |SkipWhile(args, spellings)|)
  {
    var r := SkipWhile(args, spellings);
    var k := |args| - |r|;
    if r != [] {
      assert args[k] == r[0];
      assert IsFirstMatch(args, spellings, k);
    } else {
      forall i | 0 <= i < |args| ensures args[i] !in spellings {}
    }
  }

  /**
   * `HasStr`: the argument right after the first argument that is one of the
   * spellings; `None` (null) when there is no such argument, when it is the
   * last argument, or when the next argument starts with '-'.
   */
  function HasStr(args: seq<string>, spellings: seq<string>): (r: Option<string>)
    ensures r.Some? <==>
      exists k :: IsFirstMatch(args, spellings, k) && k + 1 < |args| && !StartsWith(args[k + 1], "-")
    ensures r.Some? ==> forall k :: IsFirstMatch(args, spellings, k) ==> k + 1 < |args| && r.value == args[k + 1]
  {
    var rest := SkipWhile(args, spellings);
    var taken := rest[..if |rest| < 2 then |rest| else 2];
    HasFirstMatch(args, spellings);
    var k := |args| - |rest|;
    assert rest != [] ==> IsFirstMatch(args, spellings, k);
    assert forall m :: IsFirstMatch(args, spellings, m) ==> m == k;
    assert |taken| == 2 ==> taken[1] == args[k + 1];
    if |taken| != 2 then None
    else if StartsWith(taken[1], "-") then None
    else Some(taken[1])
  }

  /** Only the first occurrence counts: arguments after the value do not change it. */
  lemma LaterOccurrencesIgnored(args: seq<string>, more: seq<string>, spellings: seq<string>, k: int)
    requires IsFirstMatch(args, spellings, k) && k + 1 < |args|
    ensures HasStr(args + more, spellings) == HasStr(args, spellings)
  {
    assert IsFirstMatch(args + more, spellings, k);
    assert (args + more)[k + 1] == args[k + 1];
  }

  /** What `HasUnique` returns, the `r` it writes, and whether it ran its action. */
  datatype Unique = Unique(found: bool, code: int, ranAction: bool)

  /**
   * `HasUnique`: absent gives false and 0; present beside other arguments
   * gives true and 1 without running the action; alone, it runs the action
   * and gives true and 0.
   */
  function HasUnique(args: seq<string>, v1: string, v2: string): (u: Unique)
    ensures u.found <==> Has(args, [v1, v2])
    ensures u.ranAction <==> args == [v1] || args == [v2]
    ensures u.code == if u.found && !u.ranAction then 1 else 0
  {
    assert args == [v1] || args == [v2] ==> args[0] in [v1, v2];
    if !Has(args, [v1, v2]) then Unique(false, 0, false)
    else if |args| != 1 then Unique(true, 1, false)
    else Unique(true, 0, true)
  }

  /** The settings the daemon is started with. */
  datatype Settings = Settings(test: bool, server: string, port: int, levels: seq<D.EntryType>, verbose: bool)

  /** The exceptions `Main` lets escape while building the configuration. */
  datatype Fault = BadPort | BadLevel

  /** How `Main` ends: an exit code, an escaping exception, or running the daemon. */
  datatype Outcome = Exit(code: int) | Crash(fault: Fault) | Daemon(settings: Settings)

  /** The daemon is configured: arguments given, neither help nor version asked for, `-d` present. */
  predicate Proceeds(args: seq<string>)
  {
    |args| > 0 && !Has(args, HelpFlag) && !Has(args, VersionFlag) && Has(args, DaemonFlag)
  }

  /** The default port text parses to 514. */
  lemma DefaultPort(s: string)
    requires s == "514"
    ensures ParseInt32(s) == Some(514)
  {
    assert AllDigits(s) && s[0] != '-' && s[0] != '+';
    assert s[..2][..1][..0] == [];
    assert DecimalValue(s[..2][..1]) == 5;
    assert DecimalValue(s[..2]) == 51;
    assert DecimalValue(s) == 514;
  }

  /** The port `int.Parse(HasStr(args, "-p", "--port") ?? "514")` gives, `None` where it throws. */
  function PortOf(args: seq<string>): Option<int>
  {
    match HasStr(args, PortFlag)
    case None => Some(514)
    case Some(text) => ParseInt32(text)
  }

  /** `Main` up to the point where it hands the configuration to the daemon. */
  method Startup(args: seq<string>) returns (outcome: Outcome)
    ensures |args| == 0 ==> outcome == Exit(0)
    ensures |args| > 0 && Has(args, HelpFlag) ==> outcome == Exit(if |args| == 1 then 0 else 1)
    ensures |args| > 0 && !Has(args, HelpFlag) && Has(args, VersionFlag) ==>
      outcome == Exit(if |args| == 1 then 0 else 1)
    ensures |args| > 0 && !Has(args, HelpFlag) && !Has(args, VersionFlag) && !Has(args, DaemonFlag) ==>
      outcome == Exit(1)
    ensures Proceeds(args) ==> !outcome.Exit?
    ensures outcome.Crash? <==> Proceeds(args) && Faulty(args)
    ensures outcome.Crash? ==> Proceeds(args) && Fails(args, outcome.fault)
    ensures outcome.Daemon? ==> Proceeds(args) && Configured(args, outcome.settings)
  {
    if |args| == 0 {
      return Exit(0);
    }
    assert [HelpFlag[0], HelpFlag[1]] == HelpFlag && [VersionFlag[0], VersionFlag[1]] == VersionFlag;
    var help := HasUnique(args, HelpFlag[0], HelpFlag[1]);
    if help.found {
      return Exit(help.code);
    }
    var version := HasUnique(args, VersionFlag[0], VersionFlag[1]);
    if version.found {
      return Exit(version.code);
    }
    if !Has(args, DaemonFlag) {
      return Exit(1);
    }
    outcome := Configure(args);
  }

  /** Building the configuration throws. */
  predicate Faulty(args: seq<string>)
  {
    PortOf(args).None? || D.ParseLevel(HasStr(args, LevelFlag)).None?
  }

  /**
   * The configuration step fails exactly when the port does not parse as a
   * 32-bit integer, and otherwise when the `-l` value is rejected.
   */
  predicate Fails(args: seq<string>, fault: Fault)
  {
    match fault
    case BadPort => PortOf(args).None?
    case BadLevel => PortOf(args).Some? && D.ParseLevel(HasStr(args, LevelFlag)).None?
  }

  /**
   * The daemon's settings: flags as given, "localhost" and 514 when absent,
   * every entry type without `-l`, and `Error` when `-l` names none.
   */
  predicate Configured(args: seq<string>, settings: Settings)
  {
    && settings.test == Has(args, TestFlag)
    && settings.verbose == Has(args, VerboseFlag)
    && settings.server == HasStr(args, ServerFlag).GetOr("localhost")
    && PortOf(args) == Some(settings.port)
    && settings.levels != []
    && (HasStr(args, LevelFlag).None? ==> settings.levels == D.AllEntryTypes)
    && D.ParseLevel(HasStr(args, LevelFlag)).Some?
    && var parsed := D.ParseLevel(HasStr(args, LevelFlag)).value;
       settings.levels == if parsed == [] then [D.Error] else parsed
  }

  /** `if (string.IsNullOrEmpty(config.Level)) config.Level = "Error"`. */
  method FallBackToError(configuration: D.DaemonConfiguration)
    modifies configuration
    ensures configuration.levels ==
      if old(configuration.levels) in {None, Some([])} then Some([D.Error]) else old(configuration.levels)
    ensures configuration.test == old(configuration.test) && configuration.port == old(configuration.port)
    ensures configuration.verbose == old(configuration.verbose) && configuration.server == old(configuration.server)
  {
    if configuration.Level() == "" {
      D.SingleName(D.Error);
      var ok := configuration.SetLevel(Some("Error"));
    }
  }

  /** The object initializer of `Main` and the fallback to `Error` after it. */
  method Configure(args: seq<string>) returns (outcome: Outcome)
    ensures !outcome.Exit?
    ensures outcome.Crash? <==> Faulty(args)
    ensures outcome.Crash? ==> Fails(args, outcome.fault)
    ensures outcome.Daemon? ==> Configured(args, outcome.settings)
  {
    var server := HasStr(args, ServerFlag).GetOr("localhost");
    var configuration := new D.DaemonConfiguration();
    var test := Has(args, TestFlag);
    configuration.test := test;
    var portText := HasStr(args, PortFlag);
    var portValue := portText.GetOr("514");
    if portText.None? {
      DefaultPort(portValue);
    }
    var port := ParseInt32(portValue);
    if port.None? {
      return Crash(BadPort);
    }
    configuration.port := port.value;
    var levelText := HasStr(args, LevelFlag);
    var ok := configuration.SetLevel(levelText);
    if !ok {
      return Crash(BadLevel);
    }
    var verbose := Has(args, VerboseFlag);
    configuration.verbose := verbose;
    ghost var parsed := D.ParseLevel(levelText).value;
    if levelText.None? {
      D.NullIsAll();
    }
    FallBackToError(configuration);
    var settings := Settings(configuration.test, server, configuration.port, configuration.levels.value,
                             configuration.verbose);
    assert settings.test == test && settings.verbose == verbose;
    assert PortOf(args) == Some(settings.port);
    assert settings.levels != [];
    outcome := Daemon(settings);
  }
}
