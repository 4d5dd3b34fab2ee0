/** The application configuration (package `config`): defaults, options that
    override them, and the environment variables `WithEnvVars` reads. The
    environment is passed in as a map from variable name to value. */
module Config {
  import opened Wrappers
  import opened Strings
  import opened Strconv
  import opened Sorting

  /** `AppEnv`: any string, of which four are the known environments. */
  type AppEnv = string

  const AppEnvLocal: AppEnv := "local"
  const AppEnvDev: AppEnv := "dev"
  const AppEnvNonProd: AppEnv := "nonprod"
  const AppEnvProd: AppEnv := "prod"
  const KnownAppEnvs: set<AppEnv> := {AppEnvLocal, AppEnvDev, AppEnvNonProd, AppEnvProd}

  const KeyAppEnv: string := "APP_ENV"
  const DefaultAppEnv: AppEnv := AppEnvLocal
  const KeyAppPort: string := "APP_PORT"
  const DefaultAppPort: int := 8080
  const KeyVerbosityGlobal: string := "APP_LOGGING_VERBOSITY_GLOBAL"
  const KeyVerbosityModules: string := "APP_LOGGING_VERBOSITY_MODULES"
  const DefaultVerbosityGlobal: int := 0

  /** The process environment as `os.LookupEnv` sees it. */
  type Env = map<string, string>

  /** `LoggingConfig`. A nil module map and an empty one behave alike in
      every method, so both are the empty map. */
  datatype LoggingConfig = LoggingConfig(globalVerbosity: int, modulesVerbosity: map<string, int>)

  datatype AppConfig = AppConfig(appEnv: AppEnv, appPort: int, logging: LoggingConfig)

  /** The options of `New`. `WithEnvVars` carries the environment it reads
      when applied. */
  datatype AppConfigOption =
    | WithEnvVars(env: Env)
    | WithAppEnv(appEnv: AppEnv)
    | WithAppPort(appPort: int)
    | WithLoggingGlobalVerbosity(verbosity: int)
    | WithLoggingModulesVerbosity(modules: map<string, int>)

  /** What `New` starts from. */
  const Defaults: AppConfig :=
    AppConfig(DefaultAppEnv, DefaultAppPort, LoggingConfig(DefaultVerbosityGlobal, map[]))

  /** `GetGlobalVerbosity`. */
  function GetGlobalVerbosity(lc: LoggingConfig): (v: int)
    ensures v == lc.globalVerbosity
  {
    lc.globalVerbosity
  }

  /** `GetVerbosity`: the module's own verbosity, else the global one. */
  function GetVerbosity(lc: LoggingConfig, moduleName: string): (v: int)
    ensures moduleName in lc.modulesVerbosity ==> v == lc.modulesVerbosity[moduleName]
    ensures moduleName !in lc.modulesVerbosity ==> v == lc.globalVerbosity
  {
    if moduleName in lc.modulesVerbosity then lc.modulesVerbosity[moduleName] else lc.globalVerbosity
  }

  /** `GetModules`: every module name of the map once, in the map's
      unspecified iteration order. */
  method GetModules(lc: LoggingConfig) returns (modules: seq<string>)
    ensures Distinct(modules) && |modules| == |lc.modulesVerbosity|
    ensures forall m :: m in modules <==> m in lc.modulesVerbosity
  {
    modules := [];
    var rest := lc.modulesVerbosity.Keys;
    while rest != {}
      invariant rest <= lc.modulesVerbosity.Keys
      invariant |modules| + |rest| == |lc.modulesVerbosity|
      invariant forall m :: m in modules <==> m in lc.modulesVerbosity && m !in rest
      invariant Distinct(modules)
      decreases |rest|
    {
      ghost var some := Pick(rest);
      var m :| m in rest;
      modules := modules + [m];
      rest := rest - {m};
    }
  }

  /** `getAppEnv`: the variable's value when it names a known environment,
      else the default. */
  function GetAppEnv(env: Env): (e: AppEnv)
    ensures e in KnownAppEnvs
    ensures KeyAppEnv in env && env[KeyAppEnv] in KnownAppEnvs ==> e == env[KeyAppEnv]
    ensures !(KeyAppEnv in env && env[KeyAppEnv] in KnownAppEnvs) ==> e == DefaultAppEnv
  {
    if KeyAppEnv in env && env[KeyAppEnv] in KnownAppEnvs then env[KeyAppEnv] else DefaultAppEnv
  }

  /** `getEnvVarInt`: the variable's value read by `Atoi`, else the default. */
  function GetEnvVarInt(env: Env, key: string, defaultValue: int): (n: int)
    ensures key in env && Atoi(env[key]).Some? ==> n == Atoi(env[key]).value
    ensures !(key in env && Atoi(env[key]).Some?) ==> n == defaultValue
  {
    if key in env then
      match Atoi(env[key])
      case Some(v) => v
      case None => defaultValue
    else defaultValue
  }

  /** `parsePair`: `KEY=INT` with white space around either side; exactly
      one `=`, a non-blank key and an integer value. The key comes back
      trimmed. */
  function ParsePair(pair: string): (r: Option<(string, int)>)
    ensures r.Some? ==> r.value.0 != "" && Trimmed(r.value.0) && '=' !in r.value.0
    ensures r.Some? <==>
              && Count(pair, '=') == 1
              && TrimSpace(Split(pair, '=')[0]) != ""
              && Atoi(TrimSpace(Split(pair, '=')[1])).Some?
    ensures r.Some? ==> r.value.0 == TrimSpace(Split(pair, '=')[0])
    ensures r.Some? ==> Atoi(TrimSpace(Split(pair, '=')[1])) == Some(r.value.1)
  {
    var tokens := Split(pair, '=');
    if |tokens| != 2 then None
    else
      var key, value := TrimSpace(tokens[0]), TrimSpace(tokens[1]);
      if |key| == 0 then None
      else
        match Atoi(value)
        case Some(n) => Some((key, n))
        case None => None
  }

  /** The text of an integer holds digits and perhaps a leading minus, so
      it has no `=` and nothing to trim. */
  lemma ItoaIsTrimmed(n: int)
    ensures '=' !in Itoa(n) && ',' !in Itoa(n) && Trimmed(Itoa(n))
  {
    var s := Itoa(n);
    var digits := NatDigits(if n < 0 then -n else n);
    assert s == if n < 0 then "-" + digits else digits;
    assert forall i :: 0 <= i < |s| ==> IsDigit(s[i]) || s[i] == '-';
    assert IsDigit(s[|s| - 1]);
  }

  /** `KEY=INT` written out from a trimmed key without `=` and a 64-bit
      integer parses back to that key and integer. */
  lemma ParsePairRoundTrip(key: string, n: int)
    requires key != "" && Trimmed(key) && '=' !in key
    requires MinInt64 <= n <= MaxInt64
    ensures ParsePair(key + "=" + Itoa(n)) == Some((key, n))
  {
    ItoaIsTrimmed(n);
    SplitAround(key, Itoa(n), '=');
    SplitWithoutSeparator(Itoa(n), '=');
    assert key + "=" + Itoa(n) == key + ['='] + Itoa(n);
    TrimSpaceOfTrimmed(key);
    TrimSpaceOfTrimmed(Itoa(n));
    AtoiItoa(n);
  }

  /** The map the pairs build: each accepted pair sets its key, later pairs
      overwriting earlier ones. */
  function CollectPairs(pairs: seq<string>): map<string, int> {
    if pairs == [] then map[]
    else
      var init := CollectPairs(pairs[..|pairs| - 1]);
      match ParsePair(pairs[|pairs| - 1])
      case Some(kv) => init[kv.0 := kv.1]
      case None => init
  }

  /** Every key of the map comes from an accepted pair. */
  lemma {:induction false} CollectPairsKeys(pairs: seq<string>, k: string)
    requires k in CollectPairs(pairs)
    ensures exists i :: 0 <= i < |pairs| && ParsePair(pairs[i]).Some? && ParsePair(pairs[i]).value.0 == k
  {
    var last := pairs[|pairs| - 1];
    if !(ParsePair(last).Some? && ParsePair(last).value.0 == k) {
      CollectPairsKeys(pairs[..|pairs| - 1], k);
      var i :| 0 <= i < |pairs| - 1 && ParsePair(pairs[..|pairs| - 1][i]).Some?
                && ParsePair(pairs[..|pairs| - 1][i]).value.0 == k;
      assert pairs[..|pairs| - 1][i] == pairs[i];
    } else {
      assert ParsePair(pairs[|pairs| - 1]).Some? && ParsePair(pairs[|pairs| - 1]).value.0 == k;
    }
  }

  /** The last accepted pair for a key decides its value. */
  lemma {:induction false} CollectPairsLastWins(pairs: seq<string>, i: nat, k: string, v: int)
    requires i < |pairs| && ParsePair(pairs[i]) == Some((k, v))
    requires forall j :: i < j < |pairs| && ParsePair(pairs[j]).Some? ==> ParsePair(pairs[j]).value.0 != k
    ensures k in CollectPairs(pairs) && CollectPairs(pairs)[k] == v
    decreases |pairs|
  {
    var init := pairs[..|pairs| - 1];
    if i < |pairs| - 1 {
      assert forall j :: i < j < |init| ==> init[j] == pairs[j];
      CollectPairsLastWins(init, i, k, v);
    }
  }

  /** `getEnvVarInts`: splits the variable on commas and keeps the accepted
      pairs; unset, or with no accepted pair, it gives the empty map. */
  method GetEnvVarInts(env: Env, key: string) returns (ints: map<string, int>)
    ensures key in env ==> ints == CollectPairs(Split(env[key], ','))
    ensures key !in env ==> ints == map[]
  {
    if key !in env {
      return map[];
    }
    var pairs := Split(env[key], ',');
    ints := map[];
    for i := 0 to |pairs|
      invariant ints == CollectPairs(pairs[..i])
    {
      assert pairs[..i + 1][..i] == pairs[..i];
      var parsed := ParsePair(pairs[i]);
      if parsed.Some? {
        ints := ints[parsed.value.0 := parsed.value.1];
      }
    }
    assert pairs[..|pairs|] == pairs;
    if |ints| == 0 {
      ints := map[];
    }
  }

  /** A comma-separated list of `KEY=INT` pairs, written out from distinct
      trimmed keys without `=` or `,`, reads back as the map of those pairs:
      every written key with its value, and no other key. */
  lemma {:induction false} EnvVarIntsRoundTrip(keys: seq<string>, values: seq<int>)
    requires |keys| == |values| >= 1 && Distinct(keys)
    requires forall i :: 0 <= i < |keys| ==> keys[i] != "" && Trimmed(keys[i]) && '=' !in keys[i] && ',' !in keys[i]
    requires forall i :: 0 <= i < |values| ==> MinInt64 <= values[i] <= MaxInt64
    ensures var pairs := seq(|keys|, i requires 0 <= i < |keys| => keys[i] + "=" + Itoa(values[i]));
            forall i :: 0 <= i < |keys| ==> keys[i] in CollectPairs(Split(Join(pairs, ','), ',')) &&
                                            CollectPairs(Split(Join(pairs, ','), ','))[keys[i]] == values[i]
    ensures var pairs := seq(|keys|, i requires 0 <= i < |keys| => keys[i] + "=" + Itoa(values[i]));
            CollectPairs(Split(Join(pairs, ','), ',')).Keys == set i | 0 <= i < |keys| :: keys[i]
  {
    var pairs := seq(|keys|, i requires 0 <= i < |keys| => keys[i] + "=" + Itoa(values[i]));
    forall i | 0 <= i < |pairs| ensures ',' !in pairs[i] {
      ItoaIsTrimmed(values[i]);
      assert pairs[i] == keys[i] + "=" + Itoa(values[i]);
    }
    SplitJoin(pairs, ',');
    forall i | 0 <= i < |keys|
      ensures keys[i] in CollectPairs(pairs) && CollectPairs(pairs)[keys[i]] == values[i]
    {
      ParsePairRoundTrip(keys[i], values[i]);
      forall j | i < j < |pairs| && ParsePair(pairs[j]).Some?
        ensures ParsePair(pairs[j]).value.0 != keys[i]
      {
        ParsePairRoundTrip(keys[j], values[j]);
      }
      CollectPairsLastWins(pairs, i, keys[i], values[i]);
    }
    forall k | k in CollectPairs(pairs)
      ensures k in set i | 0 <= i < |keys| :: keys[i]
    {
      CollectPairsKeys(pairs, k);
      var i :| 0 <= i < |pairs| && ParsePair(pairs[i]).Some? && ParsePair(pairs[i]).value.0 == k;
      ParsePairRoundTrip(keys[i], values[i]);
    }
  }

  /** One option applied to a configuration. */
  function Apply(c: AppConfig, option: AppConfigOption): AppConfig {
    match option
    case WithEnvVars(env) =>
      AppConfig(
        GetAppEnv(env),
        GetEnvVarInt(env, KeyAppPort, DefaultAppPort),
        LoggingConfig(
          GetEnvVarInt(env, KeyVerbosityGlobal, DefaultVerbosityGlobal),
          if KeyVerbosityModules in env then CollectPairs(Split(env[KeyVerbosityModules], ',')) else map[]))
    case WithAppEnv(appEnv) => c.(appEnv := appEnv)
    case WithAppPort(port) => c.(appPort := port)
    case WithLoggingGlobalVerbosity(v) => c.(logging := c.logging.(globalVerbosity := v))
    case WithLoggingModulesVerbosity(m) => c.(logging := c.logging.(modulesVerbosity := m))
  }

  /** The defaults with the non-nil options applied in order. */
  function Configured(options: seq<Option<AppConfigOption>>): AppConfig {
    if options == [] then Defaults
    else
      var init := Configured(options[..|options| - 1]);
      var last := options[|options| - 1];
      if last.Some? then Apply(init, last.value) else init
  }

  /** `New(options...)`. */
  method New(options: seq<Option<AppConfigOption>>) returns (c: AppConfig)
    ensures c == Configured(options)
  {
    c := Defaults;
    for i := 0 to |options|
      invariant c == Configured(options[..i])
    {
      assert options[..i + 1][..i] == options[..i];
      var option := options[i];
      if option.Some? {
        match option.value
        case WithEnvVars(env) =>
          var modules := GetEnvVarInts(env, KeyVerbosityModules);
          c := AppConfig(
            GetAppEnv(env),
            GetEnvVarInt(env, KeyAppPort, DefaultAppPort),
            LoggingConfig(GetEnvVarInt(env, KeyVerbosityGlobal, DefaultVerbosityGlobal), modules));
        case WithAppEnv(appEnv) =>
          c := c.(appEnv := appEnv);
        case WithAppPort(port) =>
          c := c.(appPort := port);
        case WithLoggingGlobalVerbosity(v) =>
          c := c.(logging := c.logging.(globalVerbosity := v));
        case WithLoggingModulesVerbosity(m) =>
          c := c.(logging := c.logging.(modulesVerbosity := m));
      }
    }
    assert options[..|options|] == options;
  }

  /** Unless `WithAppEnv` sets it explicitly, the environment is always one
      of the four known ones. */
  lemma {:induction false} AppEnvIsKnown(options: seq<Option<AppConfigOption>>)
    requires forall i :: 0 <= i < |options| && options[i].Some? ==> !options[i].value.WithAppEnv?
    ensures Configured(options).appEnv in KnownAppEnvs
  {
    if options != [] {
      AppEnvIsKnown(options[..|options| - 1]);
    }
  }

  /** The port is the default unless an option sets it: `WithAppPort`, or
      `WithEnvVars` with an `APP_PORT` that `Atoi` accepts. */
  lemma {:induction false} PortDefaultsTo8080(options: seq<Option<AppConfigOption>>)
    requires forall i :: 0 <= i < |options| && options[i].Some? ==>
               && !options[i].value.WithAppPort?
               && (options[i].value.WithEnvVars? ==>
                     KeyAppPort !in options[i].value.env || Atoi(options[i].value.env[KeyAppPort]).None?)
    ensures Configured(options).appPort == DefaultAppPort
  {
    if options != [] {
      PortDefaultsTo8080(options[..|options| - 1]);
    }
  }
}
