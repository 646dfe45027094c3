/**
 * The application configuration (`AppConfig`): its default, the ordered
 * validation rules, and the order of effects of loading, reloading,
 * resetting and importing a configuration.
 *
 * The configuration file is seen through its parsed content: `None` when
 * the file does not exist, `Some(Err(_))` when it cannot be read or parsed,
 * `Some(Ok(c))` otherwise. Writing the file may fail with a message.
 */
module Config {
  import opened Text

  type U8 = n: nat | n < 0x100
  type U16 = n: nat | n < 0x1_0000
  type U32 = n: nat | n < 0x1_0000_0000

  datatype ServerConfig = ServerConfig(port: U16, maxConnections: nat, enableDiscovery: bool, discoveryPort: U16)
  datatype ClientConfig = ClientConfig(autoConnect: bool, preferredQuality: string, fullscreenOnConnect: bool,
                                       showConnectionInfo: bool)
  datatype SecurityConfig = SecurityConfig(enableEncryption: bool, requireAuthentication: bool,
                                           sessionTimeoutMinutes: U32, maxFailedAttempts: U32)
  datatype CaptureConfig = CaptureConfig(fps: U32, quality: U8, captureCursor: bool, monitorIndex: nat)
  datatype CodecConfig = CodecConfig(format: string, quality: U8, enableHardwareAcceleration: bool)
  datatype NetworkConfig = NetworkConfig(bufferSize: nat, connectionTimeoutSeconds: U32, heartbeatIntervalSeconds: U32)
  datatype UiConfig = UiConfig(theme: string, windowWidth: U32, windowHeight: U32, minimizeToTray: bool,
                               startMinimized: bool)

  datatype AppConfig = AppConfig(
    server: ServerConfig,
    client: ClientConfig,
    security: SecurityConfig,
    capture: CaptureConfig,
    codec: CodecConfig,
    network: NetworkConfig,
    ui: UiConfig)

  const ValidFormats: seq<string> := ["jpeg", "png", "webp"]
  const ValidThemes: seq<string> := ["light", "dark", "system"]

  function Default(): AppConfig
  {
    AppConfig(
      ServerConfig(7878, 10, true, 7879),
      ClientConfig(false, "high", false, true),
      SecurityConfig(true, true, 60, 5),
      CaptureConfig(30, 80, true, 0),
      CodecConfig("jpeg", 80, true),
      NetworkConfig(65536, 30, 30),
      UiConfig("system", 1200, 800, true, false))
  }

  // ----------------------------------------------------------- validation rules

  /** The number of validation rules. */
  const RuleCount: nat := 12

  /** Rule i, in the order validate checks them. */
  predicate RuleHolds(c: AppConfig, i: nat)
  {
    match i
    case 0 => c.server.port != 0
    case 1 => c.server.maxConnections != 0
    case 2 => c.server.port != c.server.discoveryPort
    case 3 => 1 <= c.capture.fps <= 120
    case 4 => 1 <= c.capture.quality <= 100
    case 5 => 1 <= c.codec.quality <= 100
    case 6 => c.codec.format in ValidFormats
    case 7 => c.security.sessionTimeoutMinutes != 0
    case 8 => c.network.connectionTimeoutSeconds != 0
    case 9 => c.network.heartbeatIntervalSeconds != 0
    case 10 => c.ui.windowWidth >= 400 && c.ui.windowHeight >= 300
    case _ => c.ui.theme in ValidThemes
  }

  /** The message reported when rule i fails. */
  function RuleMessage(c: AppConfig, i: nat): string
  {
    match i
    case 0 => "Server port cannot be 0"
    case 1 => "Max connections must be greater than 0"
    case 2 => "Server port and discovery port cannot be the same"
    case 3 => "FPS must be between 1 and 120"
    case 4 => "Quality must be between 1 and 100"
    case 5 => "Codec quality must be between 1 and 100"
    case 6 => "Invalid codec format: " + c.codec.format
    case 7 => "Session timeout must be greater than 0"
    case 8 => "Connection timeout must be greater than 0"
    case 9 => "Heartbeat interval must be greater than 0"
    case 10 => "Window size must be at least 400x300"
    case _ => "Invalid theme: " + c.ui.theme
  }

  /** Every rule holds. */
  predicate Valid(c: AppConfig)
  { forall i: nat :: i < RuleCount ==> RuleHolds(c, i) }

  /** Rule i is the first rule that fails. */
  predicate FirstFailure(c: AppConfig, i: nat)
  { i < RuleCount && !RuleHolds(c, i) && forall j: nat :: j < i ==> RuleHolds(c, j) }

  /** validate: the guards in their source order, the first failing one reported. */
  function Validate(c: AppConfig): Result<()>
  {
    if c.server.port == 0 then Err("Server port cannot be 0")
    else if c.server.maxConnections == 0 then Err("Max connections must be greater than 0")
    else if c.server.port == c.server.discoveryPort then Err("Server port and discovery port cannot be the same")
    else if c.capture.fps == 0 || c.capture.fps > 120 then Err("FPS must be between 1 and 120")
    else if c.capture.quality == 0 || c.capture.quality > 100 then Err("Quality must be between 1 and 100")
    else if c.codec.quality == 0 || c.codec.quality > 100 then Err("Codec quality must be between 1 and 100")
    else if c.codec.format !in ValidFormats then Err("Invalid codec format: " + c.codec.format)
    else if c.security.sessionTimeoutMinutes == 0 then Err("Session timeout must be greater than 0")
    else if c.network.connectionTimeoutSeconds == 0 then Err("Connection timeout must be greater than 0")
    else if c.network.heartbeatIntervalSeconds == 0 then Err("Heartbeat interval must be greater than 0")
    else if c.ui.windowWidth < 400 || c.ui.windowHeight < 300 then Err("Window size must be at least 400x300")
    else if c.ui.theme !in ValidThemes then Err("Invalid theme: " + c.ui.theme)
    else Ok(())
  }

  /** validate accepts exactly the configurations satisfying every rule. */
  lemma ValidateAcceptsValid(c: AppConfig)
    ensures Validate(c).Ok? <==> Valid(c)
  {
    if Validate(c).Ok? {
      forall i: nat | i < RuleCount ensures RuleHolds(c, i) {
      }
    } else {
      var i := FirstFailing(c);
      assert !RuleHolds(c, i);
    }
  }

  /** The rule validate stops at, when it rejects. */
  function FirstFailing(c: AppConfig): (i: nat)
    requires Validate(c).Err?
    ensures FirstFailure(c, i) && Validate(c) == Err(RuleMessage(c, i))
  {
    if c.server.port == 0 then 0
    else if c.server.maxConnections == 0 then 1
    else if c.server.port == c.server.discoveryPort then 2
    else if c.capture.fps == 0 || c.capture.fps > 120 then 3
    else if c.capture.quality == 0 || c.capture.quality > 100 then 4
    else if c.codec.quality == 0 || c.codec.quality > 100 then 5
    else if c.codec.format !in ValidFormats then 6
    else if c.security.sessionTimeoutMinutes == 0 then 7
    else if c.network.connectionTimeoutSeconds == 0 then 8
    else if c.network.heartbeatIntervalSeconds == 0 then 9
    else if c.ui.windowWidth < 400 || c.ui.windowHeight < 300 then 10
    else 11
  }

  /** When several rules fail, validate reports the first of them in source order. */
  lemma ValidateReportsFirstFailure(c: AppConfig, i: nat)
    requires FirstFailure(c, i)
    ensures Validate(c) == Err(RuleMessage(c, i))
  {
    ValidateAcceptsValid(c);
    var k := FirstFailing(c);
    assert FirstFailure(c, k);
  }

  /** The default configuration passes validation. */
  lemma DefaultIsValid()
    ensures Validate(Default()) == Ok(())
    ensures Valid(Default())
  {
    ValidateAcceptsValid(Default());
  }

  /** A server sharing its port with discovery is rejected, whatever else it holds. */
  lemma SamePortsRejected(c: AppConfig)
    requires c.server.port != 0 && c.server.maxConnections != 0
    requires c.server.port == c.server.discoveryPort
    ensures Validate(c) == Err("Server port and discovery port cannot be the same")
  {
  }

  // ----------------------------------------------------------- effects

  /** The configuration held after an operation, the file written (if any), and the outcome. */
  datatype Outcome = Outcome(config: AppConfig, written: Option<AppConfig>, result: Result<()>)

  /** save: the configuration is written unless writing fails. */
  function Save(c: AppConfig, writeError: Option<string>): Result<()>
  { if writeError.Some? then Err(writeError.value) else Ok(()) }

  /**
   * load: a missing file yields the default, which is written first; an
   * existing file is parsed and returned without validation.
   */
  function Load(file: Option<Result<AppConfig>>, writeError: Option<string>): (r: (Result<AppConfig>, Option<AppConfig>))
    ensures file.None? && writeError.None? ==> r == (Ok(Default()), Some(Default()))
    ensures file.None? && writeError.Some? ==> r.0 == Err(writeError.value)
    ensures file.Some? ==> r == (file.value, None)
  {
    match file
    case None =>
      (if writeError.Some? then Err(writeError.value) else Ok(Default()),
       if writeError.Some? then None else Some(Default()))
    case Some(parsed) => (parsed, None)
  }

  /** A configuration file that parses is loaded as it is, even one validate would reject. */
  lemma LoadDoesNotValidate(c: AppConfig)
    ensures Load(Some(Ok(c)), None).0 == Ok(c)
  {
  }

  /** reload: self becomes the loaded configuration; it is left as it was when loading fails. */
  function Reload(self: AppConfig, file: Option<Result<AppConfig>>, writeError: Option<string>): (o: Outcome)
    ensures Load(file, writeError).0.Ok? ==> o.config == Load(file, writeError).0.value && o.result == Ok(())
    ensures Load(file, writeError).0.Err? ==> o.config == self && o.result.Err?
    ensures o.written == Load(file, writeError).1
  {
    var (loaded, written) := Load(file, writeError);
    if loaded.Err? then Outcome(self, written, Err(loaded.error))
    else Outcome(loaded.value, written, Ok(()))
  }

  /** reset_to_defaults: self becomes the default before saving, so a failed save still leaves the default. */
  function ResetToDefaults(self: AppConfig, writeError: Option<string>): (o: Outcome)
    ensures o.config == Default()
    ensures o.result == Save(Default(), writeError)
    ensures o.written == (if writeError.None? then Some(Default()) else None)
  {
    Outcome(Default(), if writeError.None? then Some(Default()) else None, Save(Default(), writeError))
  }

  /**
   * import_from_file: self is overwritten by the parsed file first, then
   * validated, then saved. A file that does not parse leaves self alone.
   */
  function ImportFromFile(self: AppConfig, parsed: Result<AppConfig>, writeError: Option<string>): (o: Outcome)
    ensures parsed.Err? ==> o == Outcome(self, None, Err(parsed.error))
    ensures parsed.Ok? ==> o.config == parsed.value
    ensures o.written.Some? <==> parsed.Ok? && Valid(parsed.value) && writeError.None?
    ensures o.written.Some? ==> o.written.value == parsed.value
    ensures o.result.Ok? <==> o.written.Some?
  {
    if parsed.Err? then Outcome(self, None, Err(parsed.error))
    else
      var c := parsed.value;
      ValidateAcceptsValid(c);
      match Validate(c)
      case Err(e) => Outcome(c, None, Err(e))
      case Ok(_) =>
        if writeError.Some? then Outcome(c, None, Err(writeError.value))
        else Outcome(c, Some(c), Ok(()))
  }

  /** An invalid file is not saved, yet the imported configuration replaces self. */
  lemma InvalidImportStillReplaces(self: AppConfig, c: AppConfig, writeError: Option<string>)
    requires !Valid(c)
    ensures ImportFromFile(self, Ok(c), writeError).config == c
    ensures ImportFromFile(self, Ok(c), writeError).written.None?
    ensures ImportFromFile(self, Ok(c), writeError).result == Validate(c)
  {
    ValidateAcceptsValid(c);
  }

  /** After a successful import, self and the saved file are the same valid configuration. */
  lemma ImportedIsValid(self: AppConfig, parsed: Result<AppConfig>, writeError: Option<string>)
    requires ImportFromFile(self, parsed, writeError).result.Ok?
    ensures Valid(ImportFromFile(self, parsed, writeError).config)
    ensures ImportFromFile(self, parsed, writeError).written == Some(ImportFromFile(self, parsed, writeError).config)
  {
  }
}
