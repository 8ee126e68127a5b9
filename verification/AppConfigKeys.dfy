/** The ten settings, their names in the settings file, their defaults and what
    values they may have (server/app_config.go). Settings are a map with a value for
    each key; the list of trusted proxies is normalised by a function that stands for
    net.ParseIP. */
module AppConfigKeys {
  import opened Optional
  import opened Text

  datatype Key =
    | RefreshInterval | SleepTimer | FirstRun | MaxTries | MaxTriesOverall | Cooldown | Proxies
    | LogSize | LogNum | LogLevel

  datatype Value = Number(n: int) | Words(text: string)

  type Config = map<Key, Value>

  /** In the order in which missing keys are appended. */
  const KEYS: seq<Key> :=
    [RefreshInterval, SleepTimer, FirstRun, MaxTries, MaxTriesOverall, Cooldown, Proxies, LogSize, LogNum, LogLevel]

  /** defaultAppConfig. */
  function DefaultOf(key: Key): Value {
    match key
    case RefreshInterval => Number(60)
    case SleepTimer => Number(3600)
    case FirstRun => Number(0)
    case MaxTries => Number(10)
    case MaxTriesOverall => Number(100)
    case Cooldown => Number(600)
    case Proxies => Words("")
    case LogSize => Number(5 * 1024 * 1024)
    case LogNum => Number(5)
    case LogLevel => Words("warn")
  }

  const DEFAULT: Config := map key: Key | key in KEYS :: DefaultOf(key)

  const MAX_SLEEP_SECONDS: int := 9223372036

  datatype Line = Skipped | Malformed | Entry(name: string, value: string)

  /** How the file spells the settings: the names of the keys, what a line is, what a
      line becomes with another value, and what a new line looks like. Merging only
      depends on what Coherent says about these. */
  datatype Schema = Schema(
    name: Key -> string,
    keyOf: string -> Option<Key>,
    normalize: string -> Option<string>,
    classify: string -> Line,
    withValue: (string, string) -> string,
    entry: (Key, string) -> string,
    valid: Config -> bool)

  function KeyName(key: Key): string {
    match key
    case RefreshInterval => "HISTORY_INDEX_REFRESH_INTERVAL"
    case SleepTimer => "CLAMAV_SLEEP_TIMER"
    case FirstRun => "WEB_FIRSTRUN_COMPLETED"
    case MaxTries => "WEB_LOGIN_MAX_TRIES"
    case MaxTriesOverall => "WEB_LOGIN_MAX_TRIES_OVERALL"
    case Cooldown => "WEB_LOGIN_COOLDOWN_INTERVAL"
    case Proxies => "SERVER_TRUSTED_REVERSEPROXY"
    case LogSize => "LOG_FILE_MAX_SIZE"
    case LogNum => "LOG_FILE_NUM"
    case LogLevel => "LOG_LEVEL"
  }

  /** The key with this name among the first n. */
  function FindKey(nameOf: Key -> string, name: string, n: nat): (key: Option<Key>)
    requires n <= |KEYS|
    ensures key.Some? ==> nameOf(key.value) == name
  {
    if n == 0 then None else if nameOf(KEYS[n - 1]) == name then Some(KEYS[n - 1]) else FindKey(nameOf, name, n - 1)
  }

  ghost predicate Sound(normalize: string -> Option<string>) {
    normalize("") == Some("") && forall text: string | normalize(text).Some? ::
      normalize(normalize(text).value) == normalize(text) && Trimmed(normalize(text).value)
  }

  ghost predicate Coherent(s: Schema) {
    && Sound(s.normalize)
    && (forall cfg: Config | s.valid(cfg) :: Storable(cfg))
    && (forall key: Key :: s.keyOf(s.name(key)) == Some(key))
    && s.classify("") == Skipped
    && (forall key: Key, value: string | Trimmed(value) ::
          s.classify(s.entry(key, value)) == Entry(s.name(key), value) &&
          s.withValue(s.entry(key, value), value) == s.entry(key, value))
    && (forall line: string, value: string | s.classify(line).Entry? && Trimmed(value) ::
          s.classify(s.withValue(line, value)) == Entry(s.classify(line).name, value) &&
          s.withValue(s.withValue(line, value), value) == s.withValue(line, value))
  }

  predicate PlainName(name: string) {
    IsToken(name) && name[0] != '#' && '=' !in name
  }

  /** Capitals and underscores (and what is between them). */
  predicate UpperCase(name: string) {
    forall i | 0 <= i < |name| :: 'A' <= name[i] <= '_'
  }

  lemma UpperCaseIsPlain(name: string)
    requires UpperCase(name) && name != ""
    ensures PlainName(name)
  {
  }

  lemma RefreshIntervalIsUpperCase()
    ensures KeyName(RefreshInterval) != "" && UpperCase(KeyName(RefreshInterval))
  {
  }

  lemma MaxTriesOverallIsUpperCase()
    ensures KeyName(MaxTriesOverall) != "" && UpperCase(KeyName(MaxTriesOverall))
  {
  }

  lemma LongNamesAreUpperCase(key: Key)
    requires key.Cooldown? || key.Proxies?
    ensures KeyName(key) != "" && UpperCase(KeyName(key))
  {
  }

  lemma ShortNamesAreUpperCase(key: Key)
    requires !(key.RefreshInterval? || key.MaxTriesOverall? || key.Cooldown? || key.Proxies?)
    ensures KeyName(key) != "" && UpperCase(KeyName(key))
  {
  }

  /** Names differ in length, or in one of two letters. */
  lemma NamesDiffer(a: Key, b: Key)
    ensures KeyName(a) == KeyName(b) ==> a == b
  {
    NameLengths();
  }

  lemma {:induction false} FindsKey(nameOf: Key -> string, key: Key, n: nat)
    requires n <= |KEYS| && key in KEYS[..n]
    requires forall other: Key | nameOf(other) == nameOf(key) :: other == key
    ensures FindKey(nameOf, nameOf(key), n) == Some(key)
  {
    if KEYS[n - 1] != key { FindsKey(nameOf, key, n - 1); }
  }

  lemma EveryKeyIsListed(key: Key)
    ensures key in KEYS
  {
  }

  lemma NameLengths()
    ensures |KeyName(RefreshInterval)| == 30 && |KeyName(SleepTimer)| == 18 && |KeyName(FirstRun)| == 22
    ensures |KeyName(MaxTries)| == 19 && |KeyName(MaxTriesOverall)| == 27 && |KeyName(Cooldown)| == 27
    ensures |KeyName(Proxies)| == 27 && |KeyName(LogSize)| == 17 && |KeyName(LogNum)| == 12 && |KeyName(LogLevel)| == 9
    ensures KeyName(MaxTriesOverall)[26] == 'L' == KeyName(Cooldown)[26] && KeyName(Proxies)[26] == 'Y'
    ensures KeyName(MaxTriesOverall)[10] == 'M' && KeyName(Cooldown)[10] == 'C'
  {
  }

  const SETTING_NAMES: Key -> string := key => KeyName(key)

  lemma NameIsFound(key: Key)
    ensures FindKey(SETTING_NAMES, SETTING_NAMES(key), |KEYS|) == Some(key) && PlainName(SETTING_NAMES(key))
  {
    EveryKeyIsListed(key);
    assert KEYS[..|KEYS|] == KEYS;
    forall other: Key | SETTING_NAMES(other) == SETTING_NAMES(key) ensures other == key { NamesDiffer(other, key); }
    FindsKey(SETTING_NAMES, key, |KEYS|);
    PlainNames(key);
  }

  lemma PlainNames(key: Key)
    ensures PlainName(KeyName(key))
  {
    if key.RefreshInterval? {
      RefreshIntervalIsUpperCase();
    } else if key.MaxTriesOverall? {
      MaxTriesOverallIsUpperCase();
    } else if key.Cooldown? || key.Proxies? {
      LongNamesAreUpperCase(key);
    } else {
      ShortNamesAreUpperCase(key);
    }
    UpperCaseIsPlain(KeyName(key));
  }

  // ------------------------------------------------------------- values

  predicate IsNumber(key: Key) {
    !key.Proxies? && !key.LogLevel?
  }

  function ToLower(text: string): string {
    seq(|text|, i requires 0 <= i < |text| => if 'A' <= text[i] <= 'Z' then 'a' + (text[i] - 'A') else text[i])
  }

  function ParseValue(s: Schema, key: Key, text: string): Option<Value> {
    if IsNumber(key) then
      if Atoi(text).Some? then Some(Number(Atoi(text).value)) else None
    else if key.Proxies? then
      if s.normalize(text).Some? then Some(Words(s.normalize(text).value)) else None
    else Some(Words(ToLower(text)))
  }

  function PrintValue(value: Value): string {
    match value
    case Number(n) => Itoa(n)
    case Words(text) => text
  }

  predicate HasKeys(cfg: Config) {
    forall key: Key :: key in cfg && (cfg[key].Number? <==> IsNumber(key))
  }

  predicate Between(cfg: Config, key: Key, low: int, high: int)
    requires HasKeys(cfg) && IsNumber(key)
  {
    low <= cfg[key].n <= high
  }

  /** validateAppConfig. */
  predicate ValidSettings(normalize: string -> Option<string>, cfg: Config) {
    && HasKeys(cfg)
    && Between(cfg, RefreshInterval, 5, 86400)
    && (cfg[SleepTimer].n == 0 || Between(cfg, SleepTimer, 600, MAX_SLEEP_SECONDS))
    && (cfg[FirstRun].n == 0 || cfg[FirstRun].n == 2)
    && Between(cfg, MaxTries, 1, 10000)
    && Between(cfg, MaxTriesOverall, cfg[MaxTries].n, 1000000)
    && Between(cfg, Cooldown, 1, 86400)
    && normalize(cfg[Proxies].text).Some?
    && Between(cfg, LogSize, 64 * 1024, 1024 * 1024 * 1024)
    && Between(cfg, LogNum, 1, 100)
    && cfg[LogLevel].text in ["debug", "info", "warn", "error"]
  }

  /** What storing a setting as text needs. */
  predicate Storable(cfg: Config) {
    && HasKeys(cfg)
    && (forall key: Key | IsNumber(key) :: 0 <= cfg[key].n <= MAX_INT64)
    && ToLower(cfg[LogLevel].text) == cfg[LogLevel].text && Trimmed(cfg[LogLevel].text)
  }

  lemma ValidIsStorable(normalize: string -> Option<string>, cfg: Config)
    requires ValidSettings(normalize, cfg)
    ensures Storable(cfg)
  {
    LevelIsLower(cfg[LogLevel].text);
    NumbersFit(normalize, cfg);
  }

  lemma NumbersFit(normalize: string -> Option<string>, cfg: Config)
    requires ValidSettings(normalize, cfg)
    ensures forall key: Key | IsNumber(key) :: 0 <= cfg[key].n <= MAX_INT64
  {
  }

  /** Valid, with the proxy list in normal form, as every stored one is. */
  predicate Normal(s: Schema, cfg: Config) {
    Storable(cfg) && s.valid(cfg) && s.normalize(cfg[Proxies].text) == Some(cfg[Proxies].text)
  }

  /** A stored value comes back from its text, which is trimmed. */
  lemma PrintedValueParses(s: Schema, cfg: Config, key: Key)
    requires Coherent(s) && Normal(s, cfg)
    ensures ParseValue(s, key, PrintValue(cfg[key])) == Some(cfg[key])
    ensures Trimmed(PrintValue(cfg[key]))
  {
    if IsNumber(key) { NumberParses(s, key, cfg[key].n); }
  }

  lemma NumberParses(s: Schema, key: Key, n: int)
    requires IsNumber(key) && 0 <= n <= MAX_INT64
    ensures ParseValue(s, key, PrintValue(Number(n))) == Some(Number(n)) && Trimmed(PrintValue(Number(n)))
  {
    AtoiOfItoa(n);
  }

  lemma LevelIsLower(text: string)
    requires text in ["debug", "info", "warn", "error"]
    ensures ToLower(text) == text && Trimmed(text)
  {
  }

  /** Values that print alike are alike. */
  lemma PrintIsInjective(s: Schema, a: Config, b: Config, key: Key)
    requires Coherent(s) && Normal(s, a) && Normal(s, b) && PrintValue(a[key]) == PrintValue(b[key])
    ensures a[key] == b[key]
  {
    PrintedValueParses(s, a, key);
    PrintedValueParses(s, b, key);
  }
}
