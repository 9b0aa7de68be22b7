// The servers' settings file (src/shared/serversettings.cpp): every key is
// read from an INI store; a key that is missing is created empty, and a
// missing or empty key, a zero port or an unknown log-level name makes the
// settings invalid. The validity flag starts true and is only ever cleared.
// Where the store lives (the SERVER_SETTINGS_FILE environment variable or
// the per-user location) is outside the model: the constructor is given it.
module ServerSettings {

  import opened Wrappers
  import Logger
  import Decimal

  /** A stored setting: text, or the empty variant that a created key holds. */
  datatype Setting = Unset | Text(s: string)

  /** QVariant::value<QString>(): the text, or "" for the empty variant. */
  function AsString(v: Setting): (s: string)
    ensures v.Unset? ==> s == ""
    ensures v.Text? ==> s == v.s
  {
    match v
    case Unset => ""
    case Text(s) => s
  }

  /**
   * QVariant::value<quint16>(): the text read as an unsigned decimal and
   * cut to 16 bits, or 0 when it is not a number.
   */
  function AsPort(v: Setting): (p: nat)
    ensures p < 0x1_0000
    ensures v.Unset? ==> p == 0
  {
    match v
    case Unset => 0
    case Text(s) =>
      var digits := if |s| > 0 && s[0] == '+' then s[1..] else s;
      if digits == [] || !Decimal.AllDigits(digits) then 0
      else Decimal.DigitsValue(digits) % 0x1_0000
  }

  /** The name each log level is written with. */
  function LevelName(t: Logger.MsgType): (s: string)
    requires !t.Unknown?
    ensures s != ""
  {
    match t
    case InfoMsg => "info"
    case DebugMsg => "debug"
    case WarningMsg => "warning"
    case CriticalMsg => "critical"
    case FatalMsg => "fatal"
  }

  /**
   * convert<QtMsgType, QString>: the level a name stands for and whether
   * validity survives; any other text gives Fatal and clears it.
   */
  function ConvertLogLevel(str: string): (r: (Logger.MsgType, bool))
    ensures !r.0.Unknown?
    ensures !r.1 ==> r.0 == Logger.FatalMsg
  {
    match str
    case "info" => (Logger.InfoMsg, true)
    case "debug" => (Logger.DebugMsg, true)
    case "warning" => (Logger.WarningMsg, true)
    case "critical" => (Logger.CriticalMsg, true)
    case "fatal" => (Logger.FatalMsg, true)
    case _ => (Logger.FatalMsg, false)
  }

  /** Every level's name converts back to that level and keeps validity. */
  lemma ConvertLevelName(t: Logger.MsgType)
    requires !t.Unknown?
    ensures ConvertLogLevel(LevelName(t)) == (t, true)
  {
  }

  /** Validity survives exactly the five names, each naming the level it converts to. */
  lemma ConvertKeepsValidOnlyForNames(str: string)
    ensures ConvertLogLevel(str).1 <==> str in {"info", "debug", "warning", "critical", "fatal"}
    ensures ConvertLogLevel(str).1 ==> LevelName(ConvertLogLevel(str).0) == str
  {
  }

  /** The store's contents for a key, the empty variant when the key is absent. */
  function Lookup(values: map<string, Setting>, name: string): Setting
  {
    if name in values then values[name] else Unset
  }

  /**
   * A text key keeps the settings valid when it holds non-empty text. A
   * missing key reads as the empty variant, so it fails as well.
   */
  predicate StringOk(values: map<string, Setting>, name: string)
  {
    AsString(Lookup(values, name)) != ""
  }

  /** A port key keeps them valid when it reads as a port other than 0. */
  predicate PortOk(values: map<string, Setting>, name: string)
  {
    AsPort(Lookup(values, name)) != 0
  }

  /** A level key keeps them valid when it holds one of the level names. */
  predicate LevelOk(values: map<string, Setting>, name: string)
  {
    ConvertLogLevel(AsString(Lookup(values, name))).1
  }

  /** Every key the servers read, in the order they are read. */
  const AllKeys: seq<string> := [
    "MEDIA_BASE_URL", "MEDIA_BASE_DIR", "TEMP_DIR", "TOOLS_DIR",
    "LIBRARY_FILE", "LIBRARY_LOG_FILE", "LIBRARY_BACKUP_DIR",
    "DOWNLOADER_PORT", "DBSERVER_PORT", "DOWNLOADER_HOST", "DBSERVER_HOST",
    "CGI_LOG_FILE", "DBSERVER_LOG_FILE", "DOWNLOADER_LOG_FILE",
    "CGI_LOG_LEVEL", "DBSERVER_LOG_LEVEL", "DOWNLOADER_LOG_LEVEL"]

  /** What the constructor's validity flag ends up as for a given store: every key usable as its kind. */
  predicate SettingsValid(values: map<string, Setting>)
  {
    && StringOk(values, "MEDIA_BASE_URL") && StringOk(values, "MEDIA_BASE_DIR")
    && StringOk(values, "TEMP_DIR") && StringOk(values, "TOOLS_DIR")
    && StringOk(values, "LIBRARY_FILE") && StringOk(values, "LIBRARY_LOG_FILE") && StringOk(values, "LIBRARY_BACKUP_DIR")
    && PortOk(values, "DOWNLOADER_PORT") && PortOk(values, "DBSERVER_PORT")
    && StringOk(values, "DOWNLOADER_HOST") && StringOk(values, "DBSERVER_HOST")
    && StringOk(values, "CGI_LOG_FILE") && StringOk(values, "DBSERVER_LOG_FILE") && StringOk(values, "DOWNLOADER_LOG_FILE")
    && LevelOk(values, "CGI_LOG_LEVEL") && LevelOk(values, "DBSERVER_LOG_LEVEL") && LevelOk(values, "DOWNLOADER_LOG_LEVEL")
  }

  /** Only a store that already holds every key can be valid: a missing key always clears validity. */
  lemma ValidHasAllKeys(values: map<string, Setting>)
    requires SettingsValid(values)
    ensures forall i :: 0 <= i < |AllKeys| ==> AllKeys[i] in values
  {
  }

  /** The INI store the settings are read from; reading a missing key creates it. */
  class SettingsStore {
    var values: map<string, Setting>

    constructor (initial: map<string, Setting>)
      ensures values == initial
    {
      values := initial;
    }
  }

  /**
   * The untyped part of getOrCreate: a missing key is created with the
   * empty variant and clears validity; the stored value is returned.
   */
  method Fetch(settings: SettingsStore, valid: bool, name: string) returns (raw: Setting, validOut: bool)
    modifies settings
    ensures settings.values == if name in old(settings.values) then old(settings.values) else old(settings.values)[name := Unset]
    ensures forall k :: Lookup(settings.values, k) == Lookup(old(settings.values), k)
    ensures raw == Lookup(old(settings.values), name)
    ensures validOut <==> valid && name in old(settings.values)
  {
    validOut := valid;
    if name !in settings.values {
      settings.values := settings.values[name := Unset];
      validOut := false;
    }
    raw := settings.values[name];
  }

  /** getOrCreate<QString>: the text; an absent or empty key clears validity, and the identity conversion leaves it alone. */
  method GetOrCreateString(settings: SettingsStore, ghost orig: map<string, Setting>, valid: bool, name: string) returns (value: string, validOut: bool)
    requires forall k :: Lookup(settings.values, k) == Lookup(orig, k)
    modifies settings
    ensures forall k :: Lookup(settings.values, k) == Lookup(orig, k)
    ensures value == AsString(Lookup(orig, name))
    ensures validOut <==> valid && StringOk(orig, name)
  {
    var raw;
    raw, validOut := Fetch(settings, valid, name);
    value := AsString(raw);
    if value == "" {
      validOut := false;
    }
  }

  /** getOrCreate<quint16>: the port; an absent key or port 0 clears validity. */
  method GetOrCreatePort(settings: SettingsStore, ghost orig: map<string, Setting>, valid: bool, name: string) returns (value: nat, validOut: bool)
    requires forall k :: Lookup(settings.values, k) == Lookup(orig, k)
    modifies settings
    ensures forall k :: Lookup(settings.values, k) == Lookup(orig, k)
    ensures value == AsPort(Lookup(orig, name))
    ensures validOut <==> valid && PortOk(orig, name)
  {
    var raw;
    raw, validOut := Fetch(settings, valid, name);
    value := AsPort(raw);
    if value == 0 {
      validOut := false;
    }
  }

  /** getOrCreate<QtMsgType, QString>: the text read as a level; absent, empty or unknown text clears validity. */
  method GetOrCreateLevel(settings: SettingsStore, ghost orig: map<string, Setting>, valid: bool, name: string) returns (value: Logger.MsgType, validOut: bool)
    requires forall k :: Lookup(settings.values, k) == Lookup(orig, k)
    modifies settings
    ensures forall k :: Lookup(settings.values, k) == Lookup(orig, k)
    ensures value == ConvertLogLevel(AsString(Lookup(orig, name))).0
    ensures validOut <==> valid && LevelOk(orig, name)
  {
    var text;
    text, validOut := GetOrCreateString(settings, orig, valid, name);
    var converted := ConvertLogLevel(text);
    value := converted.0;
    validOut := validOut && converted.1;
  }

  class ServerSettings {
    var valid: bool
    var mediaBaseUrl: string
    var mediaBaseDir: string
    var tempDir: string
    var toolsDir: string
    var libraryFile: string
    var libraryLogFile: string
    var libraryBackupDir: string
    var downloaderPort: nat
    var dbserverPort: nat
    var downloaderHost: string
    var dbserverHost: string
    var cgiLogFile: string
    var dbserverLogFile: string
    var downloaderLogFile: string
    var cgiLogLevel: Logger.MsgType
    var dbserverLogLevel: Logger.MsgType
    var downloaderLogLevel: Logger.MsgType

    /**
     * The settings are read key by key, in the order the source reads
     * them; the object is valid exactly when every key was present and
     * usable, and the keys created on the way read as they did before.
     */
    constructor (settings: SettingsStore)
      modifies settings
      ensures valid <==> SettingsValid(old(settings.values))
      ensures forall k :: Lookup(settings.values, k) == Lookup(old(settings.values), k)
      ensures mediaBaseUrl == AsString(Lookup(old(settings.values), "MEDIA_BASE_URL"))
      ensures mediaBaseDir == AsString(Lookup(old(settings.values), "MEDIA_BASE_DIR"))
      ensures tempDir == AsString(Lookup(old(settings.values), "TEMP_DIR"))
      ensures toolsDir == AsString(Lookup(old(settings.values), "TOOLS_DIR"))
      ensures libraryFile == AsString(Lookup(old(settings.values), "LIBRARY_FILE"))
      ensures libraryLogFile == AsString(Lookup(old(settings.values), "LIBRARY_LOG_FILE"))
      ensures libraryBackupDir == AsString(Lookup(old(settings.values), "LIBRARY_BACKUP_DIR"))
      ensures downloaderPort == AsPort(Lookup(old(settings.values), "DOWNLOADER_PORT"))
      ensures dbserverPort == AsPort(Lookup(old(settings.values), "DBSERVER_PORT"))
      ensures downloaderHost == AsString(Lookup(old(settings.values), "DOWNLOADER_HOST"))
      ensures dbserverHost == AsString(Lookup(old(settings.values), "DBSERVER_HOST"))
      ensures cgiLogFile == AsString(Lookup(old(settings.values), "CGI_LOG_FILE"))
      ensures dbserverLogFile == AsString(Lookup(old(settings.values), "DBSERVER_LOG_FILE"))
      ensures downloaderLogFile == AsString(Lookup(old(settings.values), "DOWNLOADER_LOG_FILE"))
      ensures cgiLogLevel == ConvertLogLevel(AsString(Lookup(old(settings.values), "CGI_LOG_LEVEL"))).0
      ensures dbserverLogLevel == ConvertLogLevel(AsString(Lookup(old(settings.values), "DBSERVER_LOG_LEVEL"))).0
      ensures downloaderLogLevel == ConvertLogLevel(AsString(Lookup(old(settings.values), "DOWNLOADER_LOG_LEVEL"))).0
    {
      ghost var v0 := settings.values;
      var ok := true;
      var mediaBaseUrl;
      mediaBaseUrl, ok := GetOrCreateString(settings, v0, ok, "MEDIA_BASE_URL");
      var mediaBaseDir;
      mediaBaseDir, ok := GetOrCreateString(settings, v0, ok, "MEDIA_BASE_DIR");
      var tempDir;
      tempDir, ok := GetOrCreateString(settings, v0, ok, "TEMP_DIR");
      var toolsDir;
      toolsDir, ok := GetOrCreateString(settings, v0, ok, "TOOLS_DIR");
      var libraryFile;
      libraryFile, ok := GetOrCreateString(settings, v0, ok, "LIBRARY_FILE");
      var libraryLogFile;
      libraryLogFile, ok := GetOrCreateString(settings, v0, ok, "LIBRARY_LOG_FILE");
      var libraryBackupDir;
      libraryBackupDir, ok := GetOrCreateString(settings, v0, ok, "LIBRARY_BACKUP_DIR");
      var downloaderPort;
      downloaderPort, ok := GetOrCreatePort(settings, v0, ok, "DOWNLOADER_PORT");
      var dbserverPort;
      dbserverPort, ok := GetOrCreatePort(settings, v0, ok, "DBSERVER_PORT");
      var downloaderHost;
      downloaderHost, ok := GetOrCreateString(settings, v0, ok, "DOWNLOADER_HOST");
      var dbserverHost;
      dbserverHost, ok := GetOrCreateString(settings, v0, ok, "DBSERVER_HOST");
      var cgiLogFile;
      cgiLogFile, ok := GetOrCreateString(settings, v0, ok, "CGI_LOG_FILE");
      var dbserverLogFile;
      dbserverLogFile, ok := GetOrCreateString(settings, v0, ok, "DBSERVER_LOG_FILE");
      var downloaderLogFile;
      downloaderLogFile, ok := GetOrCreateString(settings, v0, ok, "DOWNLOADER_LOG_FILE");
      var cgiLogLevel;
      cgiLogLevel, ok := GetOrCreateLevel(settings, v0, ok, "CGI_LOG_LEVEL");
      var dbserverLogLevel;
      dbserverLogLevel, ok := GetOrCreateLevel(settings, v0, ok, "DBSERVER_LOG_LEVEL");
      var downloaderLogLevel;
      downloaderLogLevel, ok := GetOrCreateLevel(settings, v0, ok, "DOWNLOADER_LOG_LEVEL");
      this.mediaBaseUrl := mediaBaseUrl;
      this.mediaBaseDir := mediaBaseDir;
      this.tempDir := tempDir;
      this.toolsDir := toolsDir;
      this.libraryFile := libraryFile;
      this.libraryLogFile := libraryLogFile;
      this.libraryBackupDir := libraryBackupDir;
      this.downloaderPort := downloaderPort;
      this.dbserverPort := dbserverPort;
      this.downloaderHost := downloaderHost;
      this.dbserverHost := dbserverHost;
      this.cgiLogFile := cgiLogFile;
      this.dbserverLogFile := dbserverLogFile;
      this.downloaderLogFile := downloaderLogFile;
      this.cgiLogLevel := cgiLogLevel;
      this.dbserverLogLevel := dbserverLogLevel;
      this.downloaderLogLevel := downloaderLogLevel;
      valid := ok;
    }
  }
}
