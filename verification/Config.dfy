/** Loading the configuration from the environment. */
module Config {
  import opened Wrappers
  import opened Zones
  import Statements

  /** What the loader reads, and the library functions it reads with. */
  datatype Host = Host(
    getenv: string -> string,
    trim: string -> string,
    atoi: string -> Option<int>,
    parseDuration: string -> Option<int>,
    parseBool: string -> Option<bool>,
    loadLocation: string -> Option<Zone>,
    fileExists: string -> bool)

  /** The key, or the group of keys, whose value was refused. */
  type Refusal = string

  datatype Pool = Pool(maxOpen: int, maxIdle: int, maxLifetime: int, maxIdleTime: int)

  datatype TLSFiles = TLSFiles(enabled: bool, caFile: string, certFile: string, keyFile: string)

  datatype Engine = Engine(port: int, tls: TLSFiles, pool: Pool)

  datatype Tables = Tables(prefix: string, retail: string, renovation: string)

  datatype Config = Config(
    apiKey: string, timezone: Zone, queryTimeout: int, shutdownTimeout: int, maxQueryDays: int,
    realtimeWindowDays: int, historicalSource: string, dataMode: string, tables: Tables,
    hive: Engine, trino: Engine, starRocks: Engine)

  const SECOND := 1_000_000_000
  const MINUTE := 60 * SECOND

  function Value(h: Host, key: string): string {
    h.trim(h.getenv(key))
  }

  function Required(h: Host, key: string): Result<string, Refusal> {
    if Value(h, key) == "" then Failure(key) else Success(Value(h, key))
  }

  function StringDefault(h: Host, key: string, def: string): string {
    if Value(h, key) == "" then def else Value(h, key)
  }

  function IntDefault(h: Host, key: string, def: int): Result<int, Refusal> {
    if Value(h, key) == "" then Success(def)
    else match h.atoi(Value(h, key)) case Some(n) => Success(n) case None => Failure(key)
  }

  function DurationDefault(h: Host, key: string, def: int): (r: Result<int, Refusal>)
    ensures r.Success? && def > 0 ==> r.value > 0
  {
    if Value(h, key) == "" then Success(def)
    else
      match h.parseDuration(Value(h, key))
      case Some(d) => if d <= 0 then Failure(key) else Success(d)
      case None => Failure(key)
  }

  function BoolDefault(h: Host, key: string, def: bool): Result<bool, Refusal> {
    if Value(h, key) == "" then Success(def)
    else match h.parseBool(Value(h, key)) case Some(b) => Success(b) case None => Failure(key)
  }

  function PortDefault(h: Host, key: string, def: int): (r: Result<int, Refusal>)
    ensures r.Success? ==> 1 <= r.value <= 65535
  {
    var n :- IntDefault(h, key, def);
    if n < 1 || n > 65535 then Failure(key) else Success(n)
  }

  function LoadPool(h: Host, prefix: string): (r: Result<Pool, Refusal>)
    ensures r.Success? ==> r.value.maxOpen >= 1 && r.value.maxIdle >= 0
    ensures r.Success? ==> r.value.maxLifetime > 0 && r.value.maxIdleTime > 0
  {
    var maxOpen :- IntDefault(h, prefix + "_MAX_OPEN_CONNS", 10);
    var maxIdle :- IntDefault(h, prefix + "_MAX_IDLE_CONNS", 5);
    var lifetime :- DurationDefault(h, prefix + "_CONN_MAX_LIFETIME", 30 * MINUTE);
    var idleTime :- DurationDefault(h, prefix + "_CONN_MAX_IDLE_TIME", 5 * MINUTE);
    if maxOpen < 1 then Failure(prefix + "_MAX_OPEN_CONNS")
    else if maxIdle < 0 then Failure(prefix + "_MAX_IDLE_CONNS")
    else Success(Pool(maxOpen, maxIdle, lifetime, idleTime))
  }

  /** A certificate and its key come together, and every named file exists. */
  function LoadTLSFiles(h: Host, prefix: string): (r: Result<TLSFiles, Refusal>)
    ensures r.Success? ==> (r.value.certFile == "" <==> r.value.keyFile == "")
    ensures r.Success? ==> forall f :: f in {r.value.caFile, r.value.certFile, r.value.keyFile} && f != "" ==>
              h.fileExists(f)
  {
    var enabled :- BoolDefault(h, prefix + "_ENABLED", false);
    var tls := TLSFiles(enabled, h.getenv(prefix + "_CA_FILE"), h.getenv(prefix + "_CERT_FILE"),
                        h.getenv(prefix + "_KEY_FILE"));
    if !tls.enabled && tls.caFile == "" && tls.certFile == "" && tls.keyFile == "" then Success(tls)
    else if (tls.certFile == "") != (tls.keyFile == "") then Failure(prefix)
    else if tls.caFile != "" && !h.fileExists(tls.caFile) then Failure(prefix + "_CA_FILE")
    else if tls.certFile != "" && !h.fileExists(tls.certFile) then Failure(prefix + "_CERT_FILE")
    else if tls.keyFile != "" && !h.fileExists(tls.keyFile) then Failure(prefix + "_KEY_FILE")
    else Success(tls)
  }

  predicate SoundEngine(e: Engine) {
    1 <= e.port <= 65535 && e.pool.maxOpen >= 1 && (e.tls.certFile == "" <==> e.tls.keyFile == "")
  }

  function LoadEngine(h: Host, prefix: string, port: int): (r: Result<Engine, Refusal>)
    ensures r.Success? ==> SoundEngine(r.value)
  {
    var p :- PortDefault(h, prefix + "_PORT", port);
    var tls :- LoadTLSFiles(h, prefix + "_TLS");
    var pool :- LoadPool(h, prefix);
    Success(Engine(p, tls, pool))
  }

  function LoadTrino(h: Host, queryTimeout: int): (r: Result<Engine, Refusal>)
    ensures r.Success? ==> SoundEngine(r.value)
  {
    var e :- LoadEngine(h, "TRINO", 8080);
    var _ :- DurationDefault(h, "TRINO_QUERY_TIMEOUT", queryTimeout);
    Success(e)
  }

  function LoadStarRocks(h: Host): (r: Result<Engine, Refusal>)
    ensures r.Success? ==> SoundEngine(r.value)
  {
    var e :- LoadEngine(h, "STARROCKS", 9030);
    var _ :- DurationDefault(h, "STARROCKS_DIAL_TIMEOUT", 10 * SECOND);
    var _ :- DurationDefault(h, "STARROCKS_READ_TIMEOUT", 10 * SECOND);
    var _ :- DurationDefault(h, "STARROCKS_WRITE_TIMEOUT", 10 * SECOND);
    Success(e)
  }

  /** What real mode needs to be named. */
  predicate RealSourcesNamed(h: Host) {
    && h.getenv("HIVE_HOST") != "" && h.getenv("HIVE_DATABASE") != ""
    && h.getenv("TRINO_HOST") != "" && h.getenv("TRINO_CATALOG") != ""
    && h.getenv("TRINO_SCHEMA") != "" && h.getenv("TRINO_USER") != ""
    && h.getenv("STARROCKS_HOST") != "" && h.getenv("STARROCKS_DATABASE") != ""
    && h.getenv("STARROCKS_USERNAME") != ""
  }

  function LoadTables(h: Host): (r: Result<Tables, Refusal>)
    ensures r.Success? ==> Statements.ValidTriple(r.value.prefix, r.value.retail, r.value.renovation)
  {
    var t := Tables(StringDefault(h, "TABLE_PREFIX", "analytics"),
                    StringDefault(h, "TABLE_RETAIL", "dws_retail_order_daily"),
                    StringDefault(h, "TABLE_RENOVATION", "dws_renovation_stage_daily"));
    if !Statements.ValidIdentifier(t.prefix) then Failure("TABLE_PREFIX")
    else if !Statements.ValidIdentifier(t.retail) then Failure("TABLE_RETAIL")
    else if !Statements.ValidIdentifier(t.renovation) then Failure("TABLE_RENOVATION")
    else Success(t)
  }

  function Load(h: Host): Result<Config, Refusal> {
    var apiKey :- Required(h, "API_KEY");
    var location := h.loadLocation(StringDefault(h, "APP_TIMEZONE", "Asia/Shanghai"));
    if location.None? then Failure("APP_TIMEZONE") else
    var queryTimeout :- DurationDefault(h, "QUERY_TIMEOUT", 10 * SECOND);
    var shutdownTimeout :- DurationDefault(h, "SHUTDOWN_TIMEOUT", 15 * SECOND);
    var maxDays :- IntDefault(h, "MAX_QUERY_DAYS", 366);
    if maxDays < 1 then Failure("MAX_QUERY_DAYS") else
    var realtimeDays :- IntDefault(h, "REALTIME_WINDOW_DAYS", 3);
    if realtimeDays < 1 then Failure("REALTIME_WINDOW_DAYS") else
    var historical := StringDefault(h, "HISTORICAL_SOURCE", "hive");
    if historical != "hive" && historical != "trino" then Failure("HISTORICAL_SOURCE") else
    var dataMode := StringDefault(h, "DATA_MODE", "memory");
    if dataMode != "memory" && dataMode != "real" then Failure("DATA_MODE") else
    var tables :- LoadTables(h);
    var hive :- LoadEngine(h, "HIVE", 10000);
    var trino :- LoadTrino(h, queryTimeout);
    var starRocks :- LoadStarRocks(h);
    if dataMode == "real" && !RealSourcesNamed(h) then Failure("DATA_MODE") else
    Success(Config(apiKey, location.value, queryTimeout, shutdownTimeout, maxDays, realtimeDays,
                   historical, dataMode, tables, hive, trino, starRocks))
  }

  // ----- What the keys say -----

  /** The key is unset or blank and s is its default, or s is its trimmed value. */
  predicate TextKey(h: Host, key: string, def: string, s: string) {
    var v := h.trim(h.getenv(key));
    s == if v == "" then def else v
  }

  /** The same for a whole number, and for a positive duration. */
  predicate NumberKey(h: Host, key: string, def: int, n: int) {
    var v := h.trim(h.getenv(key));
    if v == "" then n == def else h.atoi(v) == Some(n)
  }

  predicate DurationKey(h: Host, key: string, def: int, d: int) {
    var v := h.trim(h.getenv(key));
    if v == "" then d == def else h.parseDuration(v) == Some(d) && d > 0
  }

  predicate SwitchKey(h: Host, key: string, b: bool) {
    var v := h.trim(h.getenv(key));
    if v == "" then !b else h.parseBool(v) == Some(b)
  }

  predicate EngineSays(h: Host, prefix: string, port: int, e: Engine) {
    && NumberKey(h, prefix + "_PORT", port, e.port)
    && SwitchKey(h, prefix + "_TLS_ENABLED", e.tls.enabled)
    && e.tls.caFile == h.getenv(prefix + "_TLS_CA_FILE")
    && e.tls.certFile == h.getenv(prefix + "_TLS_CERT_FILE")
    && e.tls.keyFile == h.getenv(prefix + "_TLS_KEY_FILE")
    && NumberKey(h, prefix + "_MAX_OPEN_CONNS", 10, e.pool.maxOpen)
    && NumberKey(h, prefix + "_MAX_IDLE_CONNS", 5, e.pool.maxIdle)
    && DurationKey(h, prefix + "_CONN_MAX_LIFETIME", 1_800_000_000_000, e.pool.maxLifetime)
    && DurationKey(h, prefix + "_CONN_MAX_IDLE_TIME", 300_000_000_000, e.pool.maxIdleTime)
  }

  lemma TLSKeys(prefix: string)
    ensures prefix + "_TLS" + "_ENABLED" == prefix + "_TLS_ENABLED"
    ensures prefix + "_TLS" + "_CA_FILE" == prefix + "_TLS_CA_FILE"
    ensures prefix + "_TLS" + "_CERT_FILE" == prefix + "_TLS_CERT_FILE"
    ensures prefix + "_TLS" + "_KEY_FILE" == prefix + "_TLS_KEY_FILE"
  {
    assert "_TLS" + "_ENABLED" == "_TLS_ENABLED" && "_TLS" + "_CA_FILE" == "_TLS_CA_FILE";
    assert "_TLS" + "_CERT_FILE" == "_TLS_CERT_FILE" && "_TLS" + "_KEY_FILE" == "_TLS_KEY_FILE";
    assert prefix + "_TLS" + "_ENABLED" == prefix + ("_TLS" + "_ENABLED");
    assert prefix + "_TLS" + "_CA_FILE" == prefix + ("_TLS" + "_CA_FILE");
    assert prefix + "_TLS" + "_CERT_FILE" == prefix + ("_TLS" + "_CERT_FILE");
    assert prefix + "_TLS" + "_KEY_FILE" == prefix + ("_TLS" + "_KEY_FILE");
  }

  lemma EngineAsWritten(h: Host, prefix: string, port: int)
    requires LoadEngine(h, prefix, port).Success?
    ensures EngineSays(h, prefix, port, LoadEngine(h, prefix, port).value)
  {
    TLSKeys(prefix);
    var p := PortDefault(h, prefix + "_PORT", port);
    var tls := LoadTLSFiles(h, prefix + "_TLS");
    var pool := LoadPool(h, prefix);
    assert LoadEngine(h, prefix, port).value == Engine(p.value, tls.value, pool.value);
  }

  /** Every field that is kept says what its own key says, or the documented default. */
  ghost predicate AsWritten(h: Host, c: Config) {
    && c.apiKey == h.trim(h.getenv("API_KEY"))
    && (exists name :: TextKey(h, "APP_TIMEZONE", "Asia/Shanghai", name) && h.loadLocation(name) == Some(c.timezone))
    && DurationKey(h, "QUERY_TIMEOUT", 10_000_000_000, c.queryTimeout)
    && DurationKey(h, "SHUTDOWN_TIMEOUT", 15_000_000_000, c.shutdownTimeout)
    && NumberKey(h, "MAX_QUERY_DAYS", 366, c.maxQueryDays)
    && NumberKey(h, "REALTIME_WINDOW_DAYS", 3, c.realtimeWindowDays)
    && TextKey(h, "HISTORICAL_SOURCE", "hive", c.historicalSource)
    && TextKey(h, "DATA_MODE", "memory", c.dataMode)
    && TextKey(h, "TABLE_PREFIX", "analytics", c.tables.prefix)
    && TextKey(h, "TABLE_RETAIL", "dws_retail_order_daily", c.tables.retail)
    && TextKey(h, "TABLE_RENOVATION", "dws_renovation_stage_daily", c.tables.renovation)
    && EngineSays(h, "HIVE", 10000, c.hive)
    && EngineSays(h, "TRINO", 8080, c.trino)
    && EngineSays(h, "STARROCKS", 9030, c.starRocks)
  }

  lemma NumberAsWritten(h: Host, key: string, def: int)
    requires IntDefault(h, key, def).Success?
    ensures NumberKey(h, key, def, IntDefault(h, key, def).value)
  {
  }

  lemma DurationAsWritten(h: Host, key: string, def: int)
    requires DurationDefault(h, key, def).Success?
    ensures DurationKey(h, key, def, DurationDefault(h, key, def).value)
  {
  }

  lemma TextAsWritten(h: Host, key: string, def: string)
    ensures TextKey(h, key, def, StringDefault(h, key, def))
  {
  }

  lemma TablesAsWritten(h: Host)
    requires LoadTables(h).Success?
    ensures var t := LoadTables(h).value;
            && TextKey(h, "TABLE_PREFIX", "analytics", t.prefix)
            && TextKey(h, "TABLE_RETAIL", "dws_retail_order_daily", t.retail)
            && TextKey(h, "TABLE_RENOVATION", "dws_renovation_stage_daily", t.renovation)
  {
    hide Statements.ValidIdentifier, StringDefault, TextKey;
    TextAsWritten(h, "TABLE_PREFIX", "analytics");
    TextAsWritten(h, "TABLE_RETAIL", "dws_retail_order_daily");
    TextAsWritten(h, "TABLE_RENOVATION", "dws_renovation_stage_daily");
  }

  lemma LoadedAsWritten(h: Host)
    requires Load(h).Success?
    ensures AsWritten(h, Load(h).value)
  {
    hide LoadEngine, LoadTrino, LoadStarRocks, EngineSays, RealSourcesNamed, LoadTables;
    hide Value, IntDefault, DurationDefault, StringDefault, NumberKey, DurationKey, TextKey;
    EnginesAsWritten(h);
    TablesAsWritten(h);
    LimitsAsWritten(h);
    NamesAsWritten(h);
    hide Load;
  }

  lemma LimitsAsWritten(h: Host)
    requires Load(h).Success?
    ensures DurationKey(h, "QUERY_TIMEOUT", 10_000_000_000, Load(h).value.queryTimeout)
    ensures DurationKey(h, "SHUTDOWN_TIMEOUT", 15_000_000_000, Load(h).value.shutdownTimeout)
    ensures NumberKey(h, "MAX_QUERY_DAYS", 366, Load(h).value.maxQueryDays)
    ensures NumberKey(h, "REALTIME_WINDOW_DAYS", 3, Load(h).value.realtimeWindowDays)
  {
    hide LoadEngine, LoadTrino, LoadStarRocks, RealSourcesNamed, LoadTables, Required;
    hide Value, IntDefault, DurationDefault, StringDefault, NumberKey, DurationKey;
    DurationAsWritten(h, "QUERY_TIMEOUT", 10 * SECOND);
    DurationAsWritten(h, "SHUTDOWN_TIMEOUT", 15 * SECOND);
    NumberAsWritten(h, "MAX_QUERY_DAYS", 366);
    NumberAsWritten(h, "REALTIME_WINDOW_DAYS", 3);
  }

  lemma NamesAsWritten(h: Host)
    requires Load(h).Success?
    ensures var c := Load(h).value;
            && c.apiKey == h.trim(h.getenv("API_KEY"))
            && (exists name ::
                  TextKey(h, "APP_TIMEZONE", "Asia/Shanghai", name) && h.loadLocation(name) == Some(c.timezone))
            && TextKey(h, "HISTORICAL_SOURCE", "hive", c.historicalSource)
            && TextKey(h, "DATA_MODE", "memory", c.dataMode)
            && LoadTables(h) == Success(c.tables)
  {
    hide LoadEngine, LoadTrino, LoadStarRocks, RealSourcesNamed, LoadTables;
    hide Value, IntDefault, DurationDefault, StringDefault, TextKey;
    TextAsWritten(h, "HISTORICAL_SOURCE", "hive");
    TextAsWritten(h, "DATA_MODE", "memory");
    TextAsWritten(h, "APP_TIMEZONE", "Asia/Shanghai");
    KeyAsWritten(h);
  }

  lemma KeyAsWritten(h: Host)
    requires Required(h, "API_KEY").Success?
    ensures Required(h, "API_KEY").value == h.trim(h.getenv("API_KEY"))
  {
  }

  lemma EnginesAsWritten(h: Host)
    requires Load(h).Success?
    ensures EngineSays(h, "HIVE", 10000, Load(h).value.hive)
    ensures EngineSays(h, "TRINO", 8080, Load(h).value.trino)
    ensures EngineSays(h, "STARROCKS", 9030, Load(h).value.starRocks)
  {
    hide LoadEngine, EngineSays, RealSourcesNamed, LoadTables, DurationDefault, IntDefault, StringDefault, Required;
    EngineAsWritten(h, "HIVE", 10000);
    EngineAsWritten(h, "TRINO", 8080);
    EngineAsWritten(h, "STARROCKS", 9030);
  }

  /** What every constructor behind the configuration will check. */
  ghost predicate Sound(c: Config) {
    && c.apiKey != ""
    && c.maxQueryDays >= 1 && c.realtimeWindowDays >= 1
    && c.queryTimeout > 0 && c.shutdownTimeout > 0
    && (c.historicalSource == "hive" || c.historicalSource == "trino")
    && (c.dataMode == "memory" || c.dataMode == "real")
    && Statements.ValidTriple(c.tables.prefix, c.tables.retail, c.tables.renovation)
    && SoundEngine(c.hive) && SoundEngine(c.trino) && SoundEngine(c.starRocks)
  }

  /** Every accepted configuration is sound, and one for real engines names all of them. */
  lemma LoadedIsSound(h: Host)
    ensures Load(h).Success? ==> Sound(Load(h).value)
    ensures Load(h).Success? && Load(h).value.dataMode == "real" ==> RealSourcesNamed(h)
  {
    hide Statements.ValidTriple, Value, SoundEngine, StringDefault, IntDefault, DurationDefault;
    hide LoadTables, LoadEngine, LoadTrino, LoadStarRocks, RealSourcesNamed;
  }

  // ----- Exactly what is accepted -----

  /** An engine's settings are what its keys say and usable: the named files exist, too. */
  ghost predicate EngineFits(h: Host, prefix: string, port: int, e: Engine) {
    && EngineSays(h, prefix, port, e) && SoundEngine(e) && e.pool.maxIdle >= 0
    && (e.tls.caFile != "" ==> h.fileExists(e.tls.caFile))
    && (e.tls.certFile != "" ==> h.fileExists(e.tls.certFile))
    && (e.tls.keyFile != "" ==> h.fileExists(e.tls.keyFile))
  }

  /** Unset, or a positive duration. */
  predicate ReadableDuration(h: Host, key: string) {
    var v := h.trim(h.getenv(key));
    v == "" || (h.parseDuration(v).Some? && h.parseDuration(v).value > 0)
  }

  /** The keys that real mode needs, without which it has no engine to ask. */
  const REAL_KEYS := {
    "HIVE_HOST", "HIVE_DATABASE", "TRINO_HOST", "TRINO_CATALOG", "TRINO_SCHEMA", "TRINO_USER",
    "STARROCKS_HOST", "STARROCKS_DATABASE", "STARROCKS_USERNAME"}

  lemma RealKeysSet(h: Host)
    ensures RealSourcesNamed(h) <==> forall key :: key in REAL_KEYS ==> h.getenv(key) != ""
  {
  }

  /** c is what the keys say, every setting is usable, and real mode names its engines. */
  ghost predicate Fits(h: Host, c: Config) {
    && AsWritten(h, c) && Sound(c)
    && EngineFits(h, "HIVE", 10000, c.hive)
    && EngineFits(h, "TRINO", 8080, c.trino)
    && EngineFits(h, "STARROCKS", 9030, c.starRocks)
    && ReadableDuration(h, "TRINO_QUERY_TIMEOUT") && ReadableDuration(h, "STARROCKS_DIAL_TIMEOUT")
    && ReadableDuration(h, "STARROCKS_READ_TIMEOUT") && ReadableDuration(h, "STARROCKS_WRITE_TIMEOUT")
    && (c.dataMode == "real" ==> forall key :: key in REAL_KEYS ==> h.getenv(key) != "")
  }

  lemma NumberRead(h: Host, key: string, def: int, n: int)
    requires NumberKey(h, key, def, n)
    ensures IntDefault(h, key, def) == Success(n)
  {
  }

  lemma DurationRead(h: Host, key: string, def: int, d: int)
    requires DurationKey(h, key, def, d)
    ensures DurationDefault(h, key, def) == Success(d)
  {
  }

  lemma DurationReadable(h: Host, key: string, def: int)
    ensures ReadableDuration(h, key) <==> DurationDefault(h, key, def).Success?
  {
  }

  lemma EngineLoadsExactly(h: Host, prefix: string, port: int, e: Engine)
    ensures LoadEngine(h, prefix, port) == Success(e) <==> EngineFits(h, prefix, port, e)
  {
    hide IntDefault, DurationDefault, NumberKey, DurationKey;
    TLSKeys(prefix);
    if EngineFits(h, prefix, port, e) {
      NumberRead(h, prefix + "_PORT", port, e.port);
      NumberRead(h, prefix + "_MAX_OPEN_CONNS", 10, e.pool.maxOpen);
      NumberRead(h, prefix + "_MAX_IDLE_CONNS", 5, e.pool.maxIdle);
      DurationRead(h, prefix + "_CONN_MAX_LIFETIME", 30 * MINUTE, e.pool.maxLifetime);
      DurationRead(h, prefix + "_CONN_MAX_IDLE_TIME", 5 * MINUTE, e.pool.maxIdleTime);
      assert LoadPool(h, prefix) == Success(e.pool);
      hide LoadPool;
      assert LoadTLSFiles(h, prefix + "_TLS") == Success(e.tls);
    } else if LoadEngine(h, prefix, port) == Success(e) {
      hide EngineSays;
      EngineAsWritten(h, prefix, port);
    }
  }

  lemma TablesRead(h: Host, t: Tables)
    requires TextKey(h, "TABLE_PREFIX", "analytics", t.prefix)
    requires TextKey(h, "TABLE_RETAIL", "dws_retail_order_daily", t.retail)
    requires TextKey(h, "TABLE_RENOVATION", "dws_renovation_stage_daily", t.renovation)
    requires Statements.ValidTriple(t.prefix, t.retail, t.renovation)
    ensures LoadTables(h) == Success(t)
  {
    hide Statements.ValidIdentifier, StringDefault, TextKey;
    TextRead(h, "TABLE_PREFIX", "analytics", t.prefix);
    TextRead(h, "TABLE_RETAIL", "dws_retail_order_daily", t.retail);
    TextRead(h, "TABLE_RENOVATION", "dws_renovation_stage_daily", t.renovation);
  }

  lemma TextRead(h: Host, key: string, def: string, s: string)
    requires TextKey(h, key, def, s)
    ensures StringDefault(h, key, def) == s
  {
  }

  lemma EnginesRead(h: Host, c: Config)
    requires Fits(h, c)
    ensures LoadEngine(h, "HIVE", 10000) == Success(c.hive)
    ensures LoadTrino(h, c.queryTimeout) == Success(c.trino)
    ensures LoadStarRocks(h) == Success(c.starRocks)
  {
    hide LoadEngine, EngineFits, DurationDefault, ReadableDuration, AsWritten, Sound, RealSourcesNamed;
    EngineLoadsExactly(h, "HIVE", 10000, c.hive);
    EngineLoadsExactly(h, "TRINO", 8080, c.trino);
    EngineLoadsExactly(h, "STARROCKS", 9030, c.starRocks);
    DurationReadable(h, "TRINO_QUERY_TIMEOUT", c.queryTimeout);
    DurationReadable(h, "STARROCKS_DIAL_TIMEOUT", 10 * SECOND);
    DurationReadable(h, "STARROCKS_READ_TIMEOUT", 10 * SECOND);
    DurationReadable(h, "STARROCKS_WRITE_TIMEOUT", 10 * SECOND);
  }

  lemma FittingLoads(h: Host, c: Config)
    requires Fits(h, c)
    ensures Load(h) == Success(c)
  {
    EnginesRead(h, c);
    RealKeysSet(h);
    hide REAL_KEYS;
    hide LoadEngine, LoadTrino, LoadStarRocks, EngineSays, EngineFits, SoundEngine, RealSourcesNamed, LoadTables;
    hide IntDefault, DurationDefault, StringDefault, NumberKey, DurationKey, TextKey, ReadableDuration;
    hide Statements.ValidTriple;
    TablesRead(h, c.tables);
    var name :| TextKey(h, "APP_TIMEZONE", "Asia/Shanghai", name) && h.loadLocation(name) == Some(c.timezone);
    TextRead(h, "APP_TIMEZONE", "Asia/Shanghai", name);
    DurationRead(h, "QUERY_TIMEOUT", 10 * SECOND, c.queryTimeout);
    DurationRead(h, "SHUTDOWN_TIMEOUT", 15 * SECOND, c.shutdownTimeout);
    NumberRead(h, "MAX_QUERY_DAYS", 366, c.maxQueryDays);
    NumberRead(h, "REALTIME_WINDOW_DAYS", 3, c.realtimeWindowDays);
    TextRead(h, "HISTORICAL_SOURCE", "hive", c.historicalSource);
    TextRead(h, "DATA_MODE", "memory", c.dataMode);
    assert Required(h, "API_KEY") == Success(c.apiKey);
  }

  lemma LoadedEnginesFit(h: Host)
    requires Load(h).Success?
    ensures var c := Load(h).value;
            && EngineFits(h, "HIVE", 10000, c.hive)
            && EngineFits(h, "TRINO", 8080, c.trino)
            && EngineFits(h, "STARROCKS", 9030, c.starRocks)
            && ReadableDuration(h, "TRINO_QUERY_TIMEOUT") && ReadableDuration(h, "STARROCKS_DIAL_TIMEOUT")
            && ReadableDuration(h, "STARROCKS_READ_TIMEOUT") && ReadableDuration(h, "STARROCKS_WRITE_TIMEOUT")
  {
    hide LoadEngine, EngineFits, RealSourcesNamed, LoadTables, DurationDefault, IntDefault, StringDefault, Required;
    hide ReadableDuration;
    var c := Load(h).value;
    EngineLoadsExactly(h, "HIVE", 10000, c.hive);
    EngineLoadsExactly(h, "TRINO", 8080, c.trino);
    EngineLoadsExactly(h, "STARROCKS", 9030, c.starRocks);
    DurationReadable(h, "TRINO_QUERY_TIMEOUT", c.queryTimeout);
    DurationReadable(h, "STARROCKS_DIAL_TIMEOUT", 10 * SECOND);
    DurationReadable(h, "STARROCKS_READ_TIMEOUT", 10 * SECOND);
    DurationReadable(h, "STARROCKS_WRITE_TIMEOUT", 10 * SECOND);
  }

  /** The loader accepts an environment exactly when some configuration fits it, and then it
      loads that one. */
  lemma LoadsExactly(h: Host, c: Config)
    ensures Load(h) == Success(c) <==> Fits(h, c)
  {
    RealKeysSet(h);
    hide Load, AsWritten, Sound, EngineFits, ReadableDuration, RealSourcesNamed, REAL_KEYS;
    if Fits(h, c) {
      FittingLoads(h, c);
    } else if Load(h) == Success(c) {
      LoadedAsWritten(h);
      LoadedIsSound(h);
      LoadedEnginesFit(h);
    }
  }
}
