/** classes/Config.php: the `.env` loader, the server registry built from
    it, and the getters with their defaults. The file's contents and the
    database handle are parameters; a missing file is None. */
module Configuration {
  import opened Wrappers
  import opened PhpText
  import opened PhpValues

  /** A value of the environment after loadEnvironment's typing. A float is
      kept as its text: nothing in the core computes with one. */
  datatype EnvValue = EBool(b: bool) | EInt(i: int) | EFloat(text: string) | EStr(s: string)

  type Env = PhpArray<EnvValue>

  const QuoteChars: set<char> := {'"', '\''}

  /** The `match` that types a value. */
  function TypeValue(value: string): EnvValue {
    if value == "true" then EBool(true)
    else if value == "false" then EBool(false)
    else if IsNumeric(value) then (if '.' in value then EFloat(value) else EInt(IntOfString(value)))
    else EStr(value)
  }

  /** One line of the file: None when it is skipped, else the key and the
      typed value. The line is cut at its first '='. */
  function ParseLine(line: string): Option<(string, EnvValue)> {
    var t := Trim(line);
    if IsEmptyString(t) || StartsWith(t, "#") then None
    else match IndexOf(t, '=')
      case None => None
      case Some(i) => Some((Trim(t[..i]), TypeValue(Strip(t[i + 1..], QuoteChars))))
  }

  /** The environment a list of lines defines. */
  function EnvOf(lines: seq<string>): Env {
    PutAll(EmptyArray(), FilterMap(ParseLine, lines))
  }

  /** loadEnvironment on the file's contents, None when there is no file. */
  function EnvironmentOf(envFile: string, file: Option<string>): Result<Env, string> {
    match file
    case None => Failure("Environment file not found: " + envFile)
    case Some(text) => Success(EnvOf(Split(text, '\n')))
  }

  /** PHP truthiness of a value. */
  predicate Truthy(v: EnvValue) {
    match v
    case EBool(b) => b
    case EInt(i) => i != 0
    case EFloat(text) => ScanNumeral(text).Some? && !NumeralIsZero(ScanNumeral(text).value.0)
    case EStr(s) => !IsEmptyString(s)
  }

  /** PHP's string conversion of a value (string interpolation). */
  function Text(v: EnvValue): string {
    match v
    case EBool(b) => if b then "1" else ""
    case EInt(i) => IntToString(i)
    case EFloat(text) => text
    case EStr(s) => s
  }

  /** `(int)` of a value. */
  function IntOf(v: EnvValue): int {
    match v
    case EBool(b) => if b then 1 else 0
    case EInt(i) => i
    case EFloat(text) => IntOfString(text)
    case EStr(s) => IntOfString(s)
  }

  /** `$prefix . '_' . $field`. */
  function FieldKey(prefix: string, field: string): string {
    prefix + "_" + field
  }

  /** `/^(.+)_NAME$/` on a key: the non-empty prefix, without a newline,
      before a final "_NAME". */
  function NamePrefix(key: string): Option<string> {
    if |key| > 5 && key[|key| - 5..] == "_NAME" && '\n' !in key[..|key| - 5]
    then Some(key[..|key| - 5])
    else None
  }

  const RequiredFields: seq<string> := ["IP", "PORT", "RCON_PORT", "RCON_PASSWORD", "MAP"]

  /** isset() of every `<prefix>_<field>`. */
  predicate HasAllFieldsSpec(env: Env, prefix: string, fields: seq<string>) {
    forall i :: 0 <= i < |fields| ==> FieldKey(prefix, fields[i]) in env.vals
  }

  /** `$env[<prefix>_ENABLED] ?? true`, as a truth value. */
  predicate Enabled(env: Env, prefix: string) {
    Truthy(LookupOr(env, FieldKey(prefix, "ENABLED"), EBool(true)))
  }

  datatype ServerRecord = ServerRecord(
    key: string, name: EnvValue, ip: EnvValue, port: int, queryPort: int,
    rconPort: int, rconPassword: EnvValue, mapName: EnvValue)

  /** What loadServersFromEnv makes of one key of the environment: a server
      under the lower-cased prefix of an enabled, complete `<P>_NAME` key. */
  function ServerEntry(env: Env, key: string): Option<(string, ServerRecord)> {
    match NamePrefix(key)
    case None => None
    case Some(p) =>
      if key !in env.vals || !Enabled(env, p) || !HasAllFieldsSpec(env, p, RequiredFields) then None
      else
        assert FieldKey(p, RequiredFields[0]) in env.vals;
        assert FieldKey(p, RequiredFields[1]) in env.vals;
        assert FieldKey(p, RequiredFields[2]) in env.vals;
        assert FieldKey(p, RequiredFields[3]) in env.vals;
        assert FieldKey(p, RequiredFields[4]) in env.vals;
        var port := env.vals[FieldKey(p, "PORT")];
        var k := ToLower(p);
        Some((k, ServerRecord(
          k,
          env.vals[key],
          env.vals[FieldKey(p, "IP")],
          IntOf(port),
          IntOf(LookupOr(env, FieldKey(p, "QUERY_PORT"), port)),
          IntOf(env.vals[FieldKey(p, "RCON_PORT")]),
          env.vals[FieldKey(p, "RCON_PASSWORD")],
          env.vals[FieldKey(p, "MAP")])))
  }

  /** The registry loadServersFromEnv builds, keys in the order of the
      environment. */
  function ServersFromEnv(env: Env): PhpArray<ServerRecord> {
    PutAll(EmptyArray(), FilterMap(EntryOf(env), env.keys))
  }

  /** ServerEntry over a fixed environment. */
  function EntryOf(env: Env): string -> Option<(string, ServerRecord)> {
    k => ServerEntry(env, k)
  }

  /** The database as this model sees it: the active server rows (already
      typed, in server_order) and the settings table. */
  datatype Database = Database(activeServers: seq<ServerRecord>, settings: map<string, string>)

  /** The registry built from database rows; the RCON password comes from
      the environment, '' when absent. */
  function ServersFromDatabase(env: Env, rows: seq<ServerRecord>): PhpArray<ServerRecord> {
    PutAll(EmptyArray(), seq(|rows|, i requires 0 <= i < |rows| =>
      (rows[i].key, rows[i].(rconPassword := LookupOr(env, FieldKey(ToUpper(rows[i].key), "RCON_PASSWORD"), EStr(""))))))
  }

  datatype DbConfig = DbConfig(host: EnvValue, name: EnvValue, user: EnvValue, pass: EnvValue, port: int, charset: EnvValue)

  /** loadEnvironment: every line of the file in order, each kept line
      assigning its key. */
  method LoadEnvironment(envFile: string, file: Option<string>) returns (r: Result<Env, string>)
    ensures r == EnvironmentOf(envFile, file)
  {
    if file.None? {
      return Failure("Environment file not found: " + envFile);
    }
    var lines := Split(file.value, '\n');
    var env: Env := EmptyArray();
    var i := 0;
    while i < |lines|
      invariant 0 <= i <= |lines|
      invariant env == EnvOf(lines[..i])
    {
      var entry := ParseLine(lines[i]);
      EnvOfStep(lines, i);
      if entry.Some? {
        env := Put(env, entry.value.0, entry.value.1);
      }
      i := i + 1;
    }
    assert lines[..i] == lines;
    r := Success(env);
  }

  /** One more line of the file assigns its key, when it is kept. */
  lemma EnvOfStep(lines: seq<string>, i: nat)
    requires i < |lines|
    ensures EnvOf(lines[..i + 1]) == (match ParseLine(lines[i])
                                      case None => EnvOf(lines[..i])
                                      case Some(e) => Put(EnvOf(lines[..i]), e.0, e.1))
  {
    PutAllFilterStep(EmptyArray(), ParseLine, lines, i);
  }

  class Config {
    var env: Env
    var servers: PhpArray<ServerRecord>
    var pdo: Option<Database>

    /** What the constructor establishes: both arrays are well formed. */
    ghost predicate Valid()
      reads this
    {
      env.Valid() && servers.Valid()
    }

    /** The constructor's order: the environment, then the registry while
        no database handle exists yet, then the database. */
    constructor (env: Env, database: Option<Database>)
      requires env.Valid()
      ensures this.env == env && pdo == database
      ensures servers == ServersFromEnv(env)
      ensures Valid()
    {
      this.env := env;
      servers := EmptyArray();
      pdo := None;
      new;
      servers := LoadServers();
      pdo := database;
      PutAllLookup(EmptyArray<ServerRecord>(), FilterMap(EntryOf(env), env.keys), "");
    }

    /** `new Config($envFile)`: load the environment, or throw. */
    static method Load(envFile: string, file: Option<string>, database: Option<Database>)
      returns (r: Result<Config, string>)
      ensures r.Failure? <==> file.None?
      ensures r.Failure? ==> r.error == "Environment file not found: " + envFile
      ensures r.Success? ==>
        && fresh(r.value) && r.value.env == EnvironmentOf(envFile, file).value
        && r.value.servers == ServersFromEnv(r.value.env) && r.value.pdo == database && r.value.Valid()
    {
      var env := LoadEnvironment(envFile, file);
      if env.Failure? {
        return Failure(env.error);
      }
      EnvValid(Split(file.value, '\n'));
      var c := new Config(env.value, database);
      r := Success(c);
    }

    method LoadServers() returns (r: PhpArray<ServerRecord>)
      requires env.Valid()
      ensures r == if pdo.Some? && |pdo.value.activeServers| > 0
        then ServersFromDatabase(env, pdo.value.activeServers)
        else ServersFromEnv(env)
    {
      if pdo.Some? && |pdo.value.activeServers| > 0 {
        return ServersFromDatabase(env, pdo.value.activeServers);
      }
      r := LoadServersFromEnv();
    }

    /** loadServersFromEnv: every key of the environment in order. */
    method LoadServersFromEnv() returns (r: PhpArray<ServerRecord>)
      requires env.Valid()
      ensures r == ServersFromEnv(env)
    {
      var f := EntryOf(env);
      var keys := env.keys;
      var acc: PhpArray<ServerRecord> := EmptyArray();
      var i := 0;
      while i < |keys|
        invariant 0 <= i <= |keys|
        invariant acc == PutAll(EmptyArray(), FilterMap(f, keys[..i]))
      {
        FilterMapStep(f, keys, i);
        var key := keys[i];
        assert key in env.keys;
        ServerEntryCases(env, key);
        var entry: Option<(string, ServerRecord)> := None;
        var prefix := NamePrefix(key);
        if prefix.Some? {
          var p := prefix.value;
          var enabled := LookupOr(env, FieldKey(p, "ENABLED"), EBool(true));
          if Truthy(enabled) {
            var complete := HasAllFields(p, RequiredFields);
            if complete {
              entry := ServerEntry(env, key);
            }
          }
        }
        assert entry == f(key);
        if entry.Some? {
          PutAllStep(EmptyArray(), FilterMap(f, keys[..i]), entry.value);
          acc := Put(acc, entry.value.0, entry.value.1);
        } else {
          assert FilterMap(f, keys[..i + 1]) == FilterMap(f, keys[..i]);
        }
        i := i + 1;
      }
      assert keys[..i] == keys;
      r := acc;
    }

    /** hasAllFields: stops at the first missing field. */
    method HasAllFields(prefix: string, fields: seq<string>) returns (r: bool)
      ensures r <==> HasAllFieldsSpec(env, prefix, fields)
    {
      var i := 0;
      while i < |fields|
        invariant 0 <= i <= |fields|
        invariant forall j :: 0 <= j < i ==> FieldKey(prefix, fields[j]) in env.vals
      {
        if FieldKey(prefix, fields[i]) !in env.vals {
          return false;
        }
        i := i + 1;
      }
      r := true;
    }

    /** get: the value under `key`, or the default. */
    function Get(key: string, default: EnvValue): EnvValue
      reads this
    {
      LookupOr(env, key, default)
    }

    function GetDatabase(): DbConfig
      reads this
    {
      DbConfig(
        Get("DB_HOST", EStr("localhost")),
        Get("DB_NAME", EStr("hyperabyss_cluster")),
        Get("DB_USER", EStr("root")),
        Get("DB_PASS", EStr("")),
        IntOf(Get("DB_PORT", EInt(3306))),
        Get("DB_CHARSET", EStr("utf8mb4")))
    }

    /** getDbSetting: null without a database or without the setting. */
    function GetDbSetting(key: string): Option<string>
      reads this
    {
      match pdo
      case None => None
      case Some(db) => if key in db.settings then Some(db.settings[key]) else None
    }

    function GetRefreshInterval(): int
      reads this
    {
      var setting := GetDbSetting("refresh_interval");
      if setting.Some? && !IsEmptyString(setting.value) then IntOfString(setting.value)
      else IntOf(Get("REFRESH_INTERVAL", EInt(15)))
    }
  }

  // ---------------------------------------------------------------------
  // Properties of the loader

  lemma EnvValid(lines: seq<string>)
    ensures EnvOf(lines).Valid()
  {
    PutAllLookup(EmptyArray<EnvValue>(), FilterMap(ParseLine, lines), "");
  }

  /** A line is skipped exactly when, trimmed, it is empty() or a comment
      or holds no '='. */
  lemma SkippedLine(line: string)
    ensures ParseLine(line).None? <==>
      (IsEmptyString(Trim(line)) || StartsWith(Trim(line), "#") || '=' !in Trim(line))
  {
  }

  /** A kept line is cut at its first '=': the key is the trimmed text
      before it, the value the rest with quotes (not blanks) stripped from
      both ends, so the value may itself hold '='. */
  lemma SplitAtFirstEquals(key: string, value: string)
    requires '=' !in key
    requires |key| > 0 && key[0] !in TrimChars && key[0] != '#'
    requires |value| > 0 ==> value[|value| - 1] !in TrimChars
    ensures ParseLine(key + "=" + value) == Some((Trim(key), TypeValue(Strip(value, QuoteChars))))
  {
    var t := key + "=" + value;
    assert t == key + ['='] + value;
    assert t[0] == key[0];
    assert t[|t| - 1] !in TrimChars by {
      if |value| == 0 { assert t[|t| - 1] == '='; } else { assert t[|t| - 1] == value[|value| - 1]; }
    }
    StripNoop(t, TrimChars);
    assert Trim(t) == t;
    assert !IsEmptyString(t) by { assert |t| >= 2; }
    assert !StartsWith(t, "#") by { assert t[..1] == [key[0]]; }
    IndexOfAfterFree(key, '=', value);
    assert t[..|key|] == key;
    assert t[|key| + 1..] == value;
  }

  /** The typing of values: the two booleans, integers written in decimal
      (saturated to the int range, as `(int)` does), and anything not
      numeric as a string. */
  lemma TypedValues(i: int, s: string)
    ensures TypeValue("true") == EBool(true) && TypeValue("false") == EBool(false)
    ensures TypeValue(IntToString(i)) == EInt(SaturatingCast(i))
    ensures IsPhpInt(i) ==> TypeValue(IntToString(i)) == EInt(i)
    ensures s != "true" && s != "false" && !IsNumeric(s) ==> TypeValue(s) == EStr(s)
  {
    IntegerTyped(i);
  }

  /** The decimal text of an integer is typed as an int. */
  lemma IntegerTyped(i: int)
    ensures TypeValue(IntToString(i)) == EInt(SaturatingCast(i))
  {
    var t := IntToString(i);
    assert IsNumeric(t) && IntOfString(t) == SaturatingCast(i) by {
      IntOfDecimal(i);
    }
    assert t != "true" && t != "false" && '.' !in t by {
      var digits := NatToString(if i < 0 then -i else i);
      assert t == (if i < 0 then "-" else "") + digits;
      assert '.' !in digits;
      assert t[0] == (if i < 0 then '-' else digits[0]);
      NotBooleanWord(t);
    }
    IntegerText(t);
  }

  lemma NotBooleanWord(t: string)
    requires |t| > 0 && (t[0] == '-' || IsDigit(t[0]))
    ensures t != "true" && t != "false"
  {
    assert "true"[0] == 't' && "false"[0] == 'f';
  }

  /** Numeric text that is neither boolean word and has no dot is an int. */
  lemma IntegerText(t: string)
    requires t != "true" && t != "false" && IsNumeric(t) && '.' !in t
    ensures TypeValue(t) == EInt(IntOfString(t))
  {
  }

  lemma {:induction false} DigitRunStops(d: string, rest: string)
    requires forall i :: 0 <= i < |d| ==> IsDigit(d[i])
    requires |rest| > 0 && !IsDigit(rest[0])
    ensures DigitRun(d + rest) == d
  {
    if |d| > 0 {
      assert (d + rest)[1..] == d[1..] + rest;
      DigitRunStops(d[1..], rest);
    } else {
      assert d + rest == rest;
    }
  }

  lemma DottedMantissa(whole: string, fraction: string)
    requires |whole| > 0 && forall i :: 0 <= i < |whole| ==> IsDigit(whole[i])
    requires forall i :: 0 <= i < |fraction| ==> IsDigit(fraction[i])
    ensures var u := whole + "." + fraction;
      ScanMantissa(u) == Some((whole, true, fraction, |u|))
  {
    var u := whole + "." + fraction;
    DotSplits(whole, fraction);
    DigitRunAll(fraction);
    MantissaOf(u, whole, fraction);
  }

  /** Where the whole digits of `whole + "." + fraction` stop, and what follows. */
  lemma DotSplits(whole: string, fraction: string)
    requires forall i :: 0 <= i < |whole| ==> IsDigit(whole[i])
    ensures var u := whole + "." + fraction;
      && DigitRun(u) == whole && |whole| < |u| && u[|whole|] == '.' && u[|whole| + 1..] == fraction
  {
    var u := whole + "." + fraction;
    assert whole + (['.'] + fraction) == u;
    DigitRunStops(whole, ['.'] + fraction);
    assert u[|whole| + 1..] == fraction;
  }

  lemma MantissaOf(u: string, whole: string, fraction: string)
    requires |whole| > 0 && DigitRun(u) == whole && |whole| < |u| && u[|whole|] == '.'
    requires u[|whole| + 1..] == fraction && DigitRun(fraction) == fraction && |u| == |whole| + 1 + |fraction|
    ensures ScanMantissa(u) == Some((whole, true, fraction, |u|))
  {
  }

  /** Digits with a dot in them are a float. */
  lemma DecimalWithDot(whole: string, fraction: string)
    requires |whole| > 0 && forall i :: 0 <= i < |whole| ==> IsDigit(whole[i])
    requires forall i :: 0 <= i < |fraction| ==> IsDigit(fraction[i])
    ensures TypeValue(whole + "." + fraction) == EFloat(whole + "." + fraction)
  {
    var s := whole + "." + fraction;
    DottedMantissa(whole, fraction);
    assert s[0] == whole[0] && IsDigit(s[0]);
    assert s[0] !in NumericSpace;
    assert LeadCount(s, NumericSpace) == 0;
    assert s[0..] == s;
    assert ScanExponent(s[|s|..]) == (false, "", 0);
    assert ScanNumeral(s).Some? && ScanNumeral(s).value.1 == |s|;
    assert s[|s|..] == [];
    assert IsNumeric(s);
    assert s[|whole|] == '.';
    assert '.' in s;
    assert s != "true" && s != "false";
  }

  /** The last line that sets a key decides its value; a key no line sets
      is absent. */
  lemma LastLineWins(lines: seq<string>, j: nat, k: string, v: EnvValue)
    requires j < |lines| && ParseLine(lines[j]) == Some((k, v))
    requires forall i :: j < i < |lines| ==> ParseLine(lines[i]).None? || ParseLine(lines[i]).value.0 != k
    ensures Lookup(EnvOf(lines), k) == Some(v)
  {
    FilterMapLast(ParseLine, lines, j, k, v);
    PutAllLookup(EmptyArray<EnvValue>(), FilterMap(ParseLine, lines), k);
  }

  lemma KeyNeverSet(lines: seq<string>, k: string)
    requires forall i :: 0 <= i < |lines| ==> ParseLine(lines[i]).None? || ParseLine(lines[i]).value.0 != k
    ensures Lookup(EnvOf(lines), k) == None
  {
    FilterMapAbsent(ParseLine, lines, k);
    PutAllLookup(EmptyArray<EnvValue>(), FilterMap(ParseLine, lines), k);
  }

  /** Every server in the registry comes from an enabled, complete
      `<P>_NAME` key whose lower-cased prefix is the server's key. */
  lemma RegistrySource(env: Env, k: string)
    requires env.Valid()
    requires Lookup(ServersFromEnv(env), k).Some?
    ensures exists j :: 0 <= j < |env.keys| && ServerEntry(env, env.keys[j]) == Some((k, Lookup(ServersFromEnv(env), k).value))
  {
    var f := EntryOf(env);
    PutAllLookup(EmptyArray<ServerRecord>(), FilterMap(f, env.keys), k);
    FilterMapSource(f, env.keys, k);
  }

  /** An enabled, complete `<P>_NAME` key puts its server in the registry
      under lower-cased P, unless a later key lower-cases to the same. */
  lemma RegistryHasServer(env: Env, j: nat, k: string, rec: ServerRecord)
    requires j < |env.keys| && ServerEntry(env, env.keys[j]) == Some((k, rec))
    requires forall i :: j < i < |env.keys| ==>
      ServerEntry(env, env.keys[i]).None? || ServerEntry(env, env.keys[i]).value.0 != k
    ensures Lookup(ServersFromEnv(env), k) == Some(rec)
  {
    var f := EntryOf(env);
    FilterMapLast(f, env.keys, j, k, rec);
    PutAllLookup(EmptyArray<ServerRecord>(), FilterMap(f, env.keys), k);
  }

  /** The fields of a registry entry: key, query port defaulting to the
      game port, and the rest copied from the environment. */
  lemma ServerFields(env: Env, key: string)
    requires ServerEntry(env, key).Some?
    ensures var p := NamePrefix(key).value;
      var (k, rec) := ServerEntry(env, key).value;
      && k == ToLower(p) && rec.key == k
      && Enabled(env, p) && HasAllFieldsSpec(env, p, RequiredFields)
      && rec.name == env.vals[key]
      && Lookup(env, FieldKey(p, "PORT")).Some?
      && rec.port == IntOf(Lookup(env, FieldKey(p, "PORT")).value)
      && rec.queryPort == (if FieldKey(p, "QUERY_PORT") in env.vals
                           then IntOf(env.vals[FieldKey(p, "QUERY_PORT")]) else rec.port)
  {
    var p := NamePrefix(key).value;
    assert FieldKey(p, RequiredFields[1]) in env.vals;
  }

  /** When loadServersFromEnv skips a key of the environment, and when it
      makes a server of it. */
  lemma ServerEntryCases(env: Env, key: string)
    requires key in env.vals
    ensures NamePrefix(key).None? ==> ServerEntry(env, key).None?
    ensures NamePrefix(key).Some? ==>
      (ServerEntry(env, key).Some? <==>
        Enabled(env, NamePrefix(key).value) && HasAllFieldsSpec(env, NamePrefix(key).value, RequiredFields))
  {
  }

  /** A disabled or incomplete prefix gives no server. */
  lemma ServerNeedsEnabledAndComplete(env: Env, key: string, p: string)
    requires NamePrefix(key) == Some(p)
    requires !Enabled(env, p) || !HasAllFieldsSpec(env, p, RequiredFields)
    ensures ServerEntry(env, key).None?
  {
  }

  /** An existing file always loads, whatever it holds, into a well-formed
      environment (Load then builds the registry from it). */
  lemma ExistingFileLoads(envFile: string, text: string)
    ensures EnvironmentOf(envFile, Some(text)).Success?
    ensures EnvironmentOf(envFile, Some(text)).value.Valid()
  {
    EnvValid(Split(text, '\n'));
  }

  /** Without any DB_* key the connection settings are the defaults. */
  lemma DatabaseDefaults(c: Config)
    requires forall k :: k in c.env.vals ==> |k| < 3 || k[..3] != "DB_"
    ensures c.GetDatabase() == DbConfig(EStr("localhost"), EStr("hyperabyss_cluster"), EStr("root"), EStr(""), 3306, EStr("utf8mb4"))
  {
    assert "DB_HOST"[..3] == "DB_";
    assert "DB_NAME"[..3] == "DB_";
    assert "DB_USER"[..3] == "DB_";
    assert "DB_PASS"[..3] == "DB_";
    assert "DB_PORT"[..3] == "DB_";
    assert "DB_CHARSET"[..3] == "DB_";
  }

  /** The refresh interval: a truthy database setting wins; otherwise
      (no database, no such setting, or "" or "0") REFRESH_INTERVAL, or 15
      when that is absent. */
  lemma RefreshIntervalRule(c: Config)
    ensures c.pdo.None? ==> c.GetDbSetting("refresh_interval").None?
    ensures var setting := c.GetDbSetting("refresh_interval");
      (setting.None? || IsEmptyString(setting.value))
      ==> c.GetRefreshInterval() == IntOf(LookupOr(c.env, "REFRESH_INTERVAL", EInt(15)))
    ensures var setting := c.GetDbSetting("refresh_interval");
      (setting.None? || IsEmptyString(setting.value)) && "REFRESH_INTERVAL" !in c.env.vals
      ==> c.GetRefreshInterval() == 15
    ensures c.pdo.Some? && "refresh_interval" in c.pdo.value.settings
      && !IsEmptyString(c.pdo.value.settings["refresh_interval"])
      ==> c.GetRefreshInterval() == IntOfString(c.pdo.value.settings["refresh_interval"])
  {
  }
}
