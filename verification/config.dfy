/** The agent's configuration after YAML decoding, the defaulting pass `LoadConfig` applies
    to it, and the logger settings `SetupLogger` derives from the configuration and the
    command-line flags. */
module Config {
  import opened Common
  import opened GoStrings

  /** One transfer definition. The field set is the union of the fields the agent's code
      reads: `Delay`, `ActionOnFail` and `FailDest` are used by the dispatcher, the
      post-actions and the validator although the struct shown in config/config.go lacks
      them. Pointer fields (`Streaming`, `Delay`) are `Option`s, `None` being nil. */
  datatype ConfigEntry = ConfigEntry(
    name: string,
    sourceDirectory: string,
    remotePath: string,
    streaming: Option<bool>,
    transferType: string,
    username: string,
    privateKey: string,
    password: string,
    server: string,
    port: string,
    filter: string,
    archiveDest: string,
    actionOnSuccess: string,
    actionOnFail: string,
    failDest: string,
    delay: Option<int>)

  /** The whole configuration file. `delay` is the single process-wide settle delay, in
      seconds, that the selector uses. */
  datatype ConfigData = ConfigData(
    logFile: string,
    logLevel: string,
    logToConsole: bool,
    delay: int,
    transfers: seq<ConfigEntry>)

  /** The command-line options. */
  datatype FlagOptions = FlagOptions(
    logFile: string,
    configFile: string,
    logLevel: string,
    logToConsole: bool,
    prtConf: bool)

  /** Go's zero value of `ConfigData`. */
  const ZeroConfig: ConfigData := ConfigData("", "", false, 0, [])

  /** What reading and decoding the configuration file produced; the file system and the
      YAML decoder are outside the model. */
  datatype ConfigSource =
    | Unreadable(reason: string)
    | Malformed(reason: string)
    | Decoded(cfg: ConfigData)

  datatype Loaded = Loaded(cfg: ConfigData, err: Option<string>)

  /** An entry with its `Streaming` pointer set, defaulting to false when it was nil. */
  function DefaultStreaming(e: ConfigEntry): (r: ConfigEntry)
    ensures r.streaming.Some?
    ensures e.streaming.Some? ==> r == e
    ensures e.streaming.None? ==> r == e.(streaming := Some(false))
  {
    if e.streaming.None? then e.(streaming := Some(false)) else e
  }

  function DefaultAllStreaming(ts: seq<ConfigEntry>): (r: seq<ConfigEntry>)
    ensures |r| == |ts|
    ensures forall i :: 0 <= i < |ts| ==> r[i] == DefaultStreaming(ts[i])
  {
    seq(|ts|, i requires 0 <= i < |ts| => DefaultStreaming(ts[i]))
  }

  /** How the agent reads a keyword-valued setting (an action, a transfer type, a level
      name): surrounding white space dropped, letters lowered. */
  function Keyword(s: string): string {
    ToLower(TrimSpace(s))
  }

  /** Only a blank setting reads as the empty keyword. */
  lemma KeywordEmptyIffBlank(s: string)
    ensures Keyword(s) == "" <==> IsBlank(s)
  {
    BlankIffTrimsToEmpty(s);
    assert |Keyword(s)| == |TrimSpace(s)|;
  }

  /** A keyword reads the same whatever the letter case and the surrounding white space. */
  lemma KeywordIgnoresCaseAndPadding(s: string)
    ensures Keyword(ToLower(s)) == Keyword(s)
    ensures Keyword(TrimSpace(s)) == Keyword(s)
  {
    TrimSpaceToLower(s);
    ToLowerIdempotent(TrimSpace(s));
    TrimSpaceIdempotent(s);
  }

  /** `LoadConfig` after the file has been read and decoded: a read or decode failure
      yields the zero configuration and an error; otherwise every transfer gets a
      non-nil `Streaming` and nothing else changes. */
  function LoadConfig(src: ConfigSource): (r: Loaded)
    ensures src.Unreadable? ==> r == Loaded(ZeroConfig, Some("can't read configuration file: " + src.reason))
    ensures src.Malformed? ==> r == Loaded(ZeroConfig, Some("failed to parse YAML config: " + src.reason))
    ensures src.Decoded? ==> r.err.None?
    ensures src.Decoded? ==> r.cfg == src.cfg.(transfers := r.cfg.transfers)
    ensures src.Decoded? ==> |r.cfg.transfers| == |src.cfg.transfers|
    ensures src.Decoded? ==> forall i :: 0 <= i < |r.cfg.transfers| ==>
      && r.cfg.transfers[i].streaming.Some?
      && r.cfg.transfers[i] == src.cfg.transfers[i].(streaming := r.cfg.transfers[i].streaming)
      && (src.cfg.transfers[i].streaming.Some? ==> r.cfg.transfers[i].streaming == src.cfg.transfers[i].streaming)
      && (src.cfg.transfers[i].streaming.None? ==> r.cfg.transfers[i].streaming == Some(false))
  {
    match src
    case Unreadable(reason) => Loaded(ZeroConfig, Some("can't read configuration file: " + reason))
    case Malformed(reason) => Loaded(ZeroConfig, Some("failed to parse YAML config: " + reason))
    case Decoded(cfg) => Loaded(cfg.(transfers := DefaultAllStreaming(cfg.transfers)), None)
  }

  /** Loading is stable: defaulting an already loaded configuration changes nothing. */
  lemma LoadConfigIdempotent(cfg: ConfigData)
    ensures LoadConfig(Decoded(LoadConfig(Decoded(cfg)).cfg)).cfg == LoadConfig(Decoded(cfg)).cfg
  {
  }

  /** The `log/slog` levels the agent can select. */
  datatype Level = LevelDebug | LevelInfo | LevelWarn | LevelError

  /** The level mapping of `SetupLogger`: case-insensitive, not trimmed, Info as fallback. */
  function ParseLevel(s: string): Level {
    match ToLower(s)
    case "debug" => LevelDebug
    case "info" => LevelInfo
    case "warn" => LevelWarn
    case "warning" => LevelWarn
    case "error" => LevelError
    case _ => LevelInfo
  }

  /** The mapping ignores case, and names every level by its own name. */
  lemma ParseLevelCaseInsensitive(s: string)
    ensures ParseLevel(s) == ParseLevel(ToLower(s))
    ensures ToLower(s) == "debug" <==> ParseLevel(s) == LevelDebug
    ensures ToLower(s) == "warn" || ToLower(s) == "warning" <==> ParseLevel(s) == LevelWarn
    ensures ToLower(s) == "error" <==> ParseLevel(s) == LevelError
  {
    ToLowerIdempotent(s);
  }

  /** Where log records go. */
  datatype Output = Stdout | File(path: string)

  /** The logger `SetupLogger` installs, and the file it hands back (`None` is nil). */
  datatype LoggerSetup = LoggerSetup(output: Output, level: Level, returned: Option<string>)

  /** `SetupLogger`: the flag's log file is used only when the configuration names none;
      the flag's level overrides only when it is not the flag default "info"; the console
      flag selects standard output. `openFile` is the outcome of opening the log file. */
  function SetupLogger(cfg: ConfigData, flags: FlagOptions, openFile: string -> Outcome): (r: Result<LoggerSetup>)
    ensures flags.logToConsole ==> r.Ok? && r.value.output == Stdout && r.value.returned == None
    ensures !flags.logToConsole ==>
      var path := if cfg.logFile == "" then flags.logFile else cfg.logFile;
      && (r.Err? <==> openFile(path).Fail?)
      && (r.Ok? ==> r.value.output == File(path))
    ensures r.Ok? ==> (r.value.returned.None? <==> cfg.logToConsole || flags.logToConsole)
    ensures r.Ok? && flags.logLevel != "info" ==> r.value.level == ParseLevel(flags.logLevel)
    ensures r.Ok? && flags.logLevel == "info" ==> r.value.level == ParseLevel(cfg.logLevel)
  {
    var logFile := if cfg.logFile == "" then flags.logFile else cfg.logFile;
    var logLevel := if flags.logLevel != "info" then flags.logLevel else cfg.logLevel;
    var console := cfg.logToConsole || flags.logToConsole;
    if flags.logToConsole then
      Ok(LoggerSetup(Stdout, ParseLevel(logLevel), None))
    else
      match openFile(logFile)
      case Fail(e) => Err(e)
      case Pass =>
        Ok(LoggerSetup(File(logFile), ParseLevel(logLevel), if console then None else Some(logFile)))
  }
}
