/** Configuration of the agent: three sources of key/value settings merged
    in priority order (a `.env` file, then the SSM Parameter Store, then
    environment variables), the settings record built from them, and the
    cached settings object. */
module Config {
  import opened Wrappers
  import opened Strings

  /** Settings keyed by their lower-case configuration key. */
  type ConfigMap = map<string, string>

  /** A variable name and the configuration key it sets. */
  type VarEntry = (string, string)

  /** The known upper-case variable names, each with the configuration key
      it sets, in declaration order. */
  const EnvVarTable: seq<VarEntry> := [
    ("AWS_REGION", "aws_region"),
    ("ENVIRONMENT", "environment"),
    ("DOCUMENTS_BUCKET", "documents_bucket"),
    ("VECTORS_BUCKET", "vectors_bucket"),
    ("VECTOR_INDEX", "vector_index"),
    ("EMBEDDING_MODEL", "embedding_model"),
    ("LLM_MODEL", "llm_model"),
    ("VECTOR_DIMENSIONS", "vector_dimensions"),
    ("AGENT_MODE", "agent_mode"),
    ("AGENTCORE_RUNTIME_ARN", "agentcore_runtime_arn")
  ]

  /** The configuration key a variable name sets, if it is a known one. */
  function ConfigKeyOf(name: string): (k: Option<string>)
    ensures k.Some? <==> exists i :: 0 <= i < |EnvVarTable| && EnvVarTable[i].0 == name
    ensures k.Some? ==> exists i :: 0 <= i < |EnvVarTable| && EnvVarTable[i] == (name, k.value)
  {
    LookupFrom(name, 0)
  }

  function LookupFrom(name: string, i: nat): (k: Option<string>)
    requires i <= |EnvVarTable|
    ensures k.Some? <==> exists j :: i <= j < |EnvVarTable| && EnvVarTable[j].0 == name
    ensures k.Some? ==> exists j :: i <= j < |EnvVarTable| && EnvVarTable[j] == (name, k.value)
    decreases |EnvVarTable| - i
  {
    if i == |EnvVarTable| then None
    else if EnvVarTable[i].0 == name then Some(EnvVarTable[i].1)
    else LookupFrom(name, i + 1)
  }

  /** A value of `None` or `""` is treated as absent. */
  predicate Present(value: Option<string>) {
    value.Some? && value.value != ""
  }

  // ---------------------------------------------------------------------
  // Building a dict entry by entry

  /** The dict that starts empty and gets `config[k] = v` for each entry
      in order that `assign` turns into `Some((k, v))`, the entries that
      give `None` being skipped. */
  function Collect<E>(entries: seq<E>, assign: E -> Option<(string, string)>): ConfigMap {
    if entries == [] then map[]
    else
      var c := Collect(entries[..|entries| - 1], assign);
      match assign(entries[|entries| - 1])
      case None => c
      case Some(kv) => c[kv.0 := kv.1]
  }

  /** Entry `i` is the last one that sets key `k`. */
  predicate LastSetter<E>(entries: seq<E>, assign: E -> Option<(string, string)>, i: int, k: string) {
    && 0 <= i < |entries|
    && assign(entries[i]).Some? && assign(entries[i]).value.0 == k
    && forall j :: i < j < |entries| ==> !(assign(entries[j]).Some? && assign(entries[j]).value.0 == k)
  }

  /** A key is in the dict exactly when some entry sets it, and its value
      is the one the last such entry gives: later entries win. */
  lemma {:induction false} CollectLastWins<E>(entries: seq<E>, assign: E -> Option<(string, string)>, k: string)
    ensures k in Collect(entries, assign) <==>
            exists i :: 0 <= i < |entries| && assign(entries[i]).Some? && assign(entries[i]).value.0 == k
    ensures k in Collect(entries, assign) ==>
            exists i :: LastSetter(entries, assign, i, k) && Collect(entries, assign)[k] == assign(entries[i]).value.1
    decreases |entries|
  {
    if entries != [] {
      var n := |entries| - 1;
      var init := entries[..n];
      CollectLastWins(init, assign, k);
      var o := assign(entries[n]);
      if o.Some? && o.value.0 == k {
        assert LastSetter(entries, assign, n, k);
      } else {
        assert Collect(entries, assign) == Collect(init, assign) || k != o.value.0;
        if k in Collect(init, assign) {
          var i :| LastSetter(init, assign, i, k) && Collect(init, assign)[k] == assign(init[i]).value.1;
          assert init[i] == entries[i];
          assert LastSetter(entries, assign, i, k);
        }
        if exists i :: 0 <= i < |entries| && assign(entries[i]).Some? && assign(entries[i]).value.0 == k {
          var i :| 0 <= i < |entries| && assign(entries[i]).Some? && assign(entries[i]).value.0 == k;
          assert i < n && init[i] == entries[i];
        }
      }
    }
  }

  /** One more entry: the dict is updated by it, if it sets a key. */
  lemma CollectStep<E>(entries: seq<E>, assign: E -> Option<(string, string)>, i: nat)
    requires i < |entries|
    ensures Collect(entries[..i + 1], assign)
            == match assign(entries[i])
               case None => Collect(entries[..i], assign)
               case Some(kv) => Collect(entries[..i], assign)[kv.0 := kv.1]
  {
    assert entries[..i + 1][..i] == entries[..i];
  }

  // ---------------------------------------------------------------------
  // The three sources

  /** One item of the dict `dotenv_values` returns for a `.env` file: a
      name and its value, `None` for a name without a value. Reading the
      file, `dotenv_values` keeps one item per name, the value of the last
      line that names it; the items of a dict have distinct names
      (`DistinctNames`). */
  type EnvFileEntry = (string, Option<string>)

  /** The names of the items are pairwise distinct, as the keys of a dict. */
  predicate DistinctNames(entries: seq<EnvFileEntry>) {
    forall i, j :: 0 <= i < j < |entries| ==> entries[i].0 != entries[j].0
  }

  /** A `.env` entry sets the configuration key of its name when the name
      is known and the value is non-empty. */
  function EnvFileAssign(e: EnvFileEntry): (a: Option<(string, string)>)
    ensures a.Some? <==> Present(e.1) && ConfigKeyOf(e.0).Some?
  {
    if Present(e.1) && ConfigKeyOf(e.0).Some? then Some((ConfigKeyOf(e.0).value, e.1.value)) else None
  }

  /** What `_load_from_env_file` returns: `envFile` is `None` when there is
      no `.env` file or the package that reads it is not installed, and
      otherwise the items of the `.env` dict in order. */
  function EnvFileConfig(envFile: Option<seq<EnvFileEntry>>): ConfigMap {
    if envFile.None? then map[] else Collect(envFile.value, EnvFileAssign)
  }

  /** `_load_from_env_file`. */
  method LoadFromEnvFile(envFile: Option<seq<EnvFileEntry>>) returns (config: ConfigMap)
    ensures config == EnvFileConfig(envFile)
  {
    if envFile.None? {
      return map[];
    }
    var raw := envFile.value;
    config := map[];
    var i := 0;
    while i < |raw|
      invariant i <= |raw|
      invariant config == Collect(raw[..i], EnvFileAssign)
    {
      CollectStep(raw, EnvFileAssign, i);
      var (envKey, value) := raw[i];
      if Present(value) && ConfigKeyOf(envKey).Some? {
        config := config[ConfigKeyOf(envKey).value := value.value];
      }
      i := i + 1;
    }
    assert raw[..|raw|] == raw;
  }

  /** Only the ten known configuration keys come out of a `.env` file, each
      from an item with a known name and a non-empty value, and no later
      such item sets the same key. */
  lemma EnvFileKeys(entries: seq<EnvFileEntry>, k: string)
    requires k in EnvFileConfig(Some(entries))
    ensures exists i :: 0 <= i < |EnvVarTable| && EnvVarTable[i].1 == k
    ensures exists i :: && 0 <= i < |entries| && Present(entries[i].1)
                        && ConfigKeyOf(entries[i].0) == Some(k)
                        && EnvFileConfig(Some(entries))[k] == entries[i].1.value
                        && forall j :: i < j < |entries| ==>
                             !(Present(entries[j].1) && ConfigKeyOf(entries[j].0) == Some(k))
  {
    CollectLastWins(entries, EnvFileAssign, k);
    var i :| LastSetter(entries, EnvFileAssign, i, k)
             && Collect(entries, EnvFileAssign)[k] == EnvFileAssign(entries[i]).value.1;
    assert ConfigKeyOf(entries[i].0) == Some(k);
  }

  /** Two names that set the same configuration key are the same name. */
  lemma ConfigKeyOfInjective(a: string, b: string)
    requires ConfigKeyOf(a).Some? && ConfigKeyOf(a) == ConfigKeyOf(b)
    ensures a == b
  {
    ConfigKeysDistinct();
  }

  /** As the names of the `.env` dict are distinct, the item of a known name
      alone decides its key: the key is set exactly when the item's value
      is non-empty, and then holds that value. An empty value leaves the
      key unset whatever other items say. */
  lemma EnvFileItemDecides(entries: seq<EnvFileEntry>, i: nat)
    requires DistinctNames(entries)
    requires i < |entries| && ConfigKeyOf(entries[i].0).Some?
    ensures var k := ConfigKeyOf(entries[i].0).value;
            && (k in EnvFileConfig(Some(entries)) <==> Present(entries[i].1))
            && (Present(entries[i].1) ==> EnvFileConfig(Some(entries))[k] == entries[i].1.value)
  {
    var k := ConfigKeyOf(entries[i].0).value;
    CollectLastWins(entries, EnvFileAssign, k);
    if k in EnvFileConfig(Some(entries)) {
      var j :| LastSetter(entries, EnvFileAssign, j, k)
               && Collect(entries, EnvFileAssign)[k] == EnvFileAssign(entries[j]).value.1;
      ConfigKeyOfInjective(entries[j].0, entries[i].0);
      assert j == i;
    }
  }

  /** A parameter of the SSM Parameter Store: its full path and its value. */
  type Parameter = (string, string)

  /** A parameter sets the key named by the last segment of its path. */
  function SsmAssign(p: Parameter): (a: Option<(string, string)>)
    ensures a.Some? && '/' !in a.value.0 && a.value.1 == p.1
  {
    Some((AfterLast(p.0, '/'), p.1))
  }

  /** `_load_from_ssm`, the parameters of all pages in order. */
  method LoadFromSsm(parameters: seq<Parameter>) returns (config: ConfigMap)
    ensures config == Collect(parameters, SsmAssign)
  {
    config := map[];
    var i := 0;
    while i < |parameters|
      invariant i <= |parameters|
      invariant config == Collect(parameters[..i], SsmAssign)
    {
      CollectStep(parameters, SsmAssign, i);
      var (name, value) := parameters[i];
      config := config[AfterLast(name, '/') := value];
      i := i + 1;
    }
    assert parameters[..|parameters|] == parameters;
  }

  /** Every parameter's last path segment becomes a key, with the value of
      the last parameter ending in it. */
  lemma SsmKeys(parameters: seq<Parameter>, k: string)
    ensures k in Collect(parameters, SsmAssign) <==>
            exists i :: 0 <= i < |parameters| && AfterLast(parameters[i].0, '/') == k
    ensures k in Collect(parameters, SsmAssign) ==>
            exists i :: && 0 <= i < |parameters| && AfterLast(parameters[i].0, '/') == k
                        && Collect(parameters, SsmAssign)[k] == parameters[i].1
                        && forall j :: i < j < |parameters| ==> AfterLast(parameters[j].0, '/') != k
  {
    CollectLastWins(parameters, SsmAssign, k);
    if k in Collect(parameters, SsmAssign) {
      var i :| LastSetter(parameters, SsmAssign, i, k)
               && Collect(parameters, SsmAssign)[k] == SsmAssign(parameters[i]).value.1;
      assert forall j :: i < j < |parameters| ==> AfterLast(parameters[j].0, '/') != k by {
        forall j | i < j < |parameters| ensures AfterLast(parameters[j].0, '/') != k {
          assert SsmAssign(parameters[j]).value.0 == AfterLast(parameters[j].0, '/');
        }
      }
    }
    if exists i :: 0 <= i < |parameters| && AfterLast(parameters[i].0, '/') == k {
      var i :| 0 <= i < |parameters| && AfterLast(parameters[i].0, '/') == k;
      assert SsmAssign(parameters[i]).value.0 == k;
    }
  }

  /** `os.environ.get(name)`. */
  function EnvGet(env: map<string, string>, name: string): Option<string> {
    if name in env then Some(env[name]) else None
  }

  /** A known variable sets its configuration key when it is set and
      non-empty. */
  function EnvVarAssign(env: map<string, string>): (E: VarEntry -> Option<(string, string)>)
    ensures forall p: VarEntry :: E(p).Some? <==> Present(EnvGet(env, p.0))
  {
    (p: VarEntry) => if Present(EnvGet(env, p.0)) then Some((p.1, env[p.0])) else None
  }

  /** What `_load_from_env_vars` returns. */
  function EnvVarsConfig(env: map<string, string>): ConfigMap {
    Collect(EnvVarTable, EnvVarAssign(env))
  }

  /** `_load_from_env_vars`. */
  method LoadFromEnvVars(env: map<string, string>) returns (config: ConfigMap)
    ensures config == EnvVarsConfig(env)
  {
    config := map[];
    var i := 0;
    while i < |EnvVarTable|
      invariant i <= |EnvVarTable|
      invariant config == Collect(EnvVarTable[..i], EnvVarAssign(env))
    {
      CollectStep(EnvVarTable, EnvVarAssign(env), i);
      var (envKey, configKey) := EnvVarTable[i];
      var value := EnvGet(env, envKey);
      if Present(value) {
        config := config[configKey := value.value];
      }
      i := i + 1;
    }
    assert EnvVarTable[..|EnvVarTable|] == EnvVarTable;
  }

  /** No two known variables set the same configuration key. */
  lemma ConfigKeysDistinct()
    ensures forall a, b :: 0 <= a < b < |EnvVarTable| ==> EnvVarTable[a].1 != EnvVarTable[b].1
  {
  }

  /** The variables set the value of their configuration key exactly when
      they are set and non-empty. */
  lemma EnvVarsKeys(env: map<string, string>, i: nat)
    requires i < |EnvVarTable|
    ensures EnvVarTable[i].1 in EnvVarsConfig(env) <==> Present(EnvGet(env, EnvVarTable[i].0))
    ensures Present(EnvGet(env, EnvVarTable[i].0)) ==> EnvVarsConfig(env)[EnvVarTable[i].1] == env[EnvVarTable[i].0]
  {
    var k := EnvVarTable[i].1;
    var A := EnvVarAssign(env);
    CollectLastWins(EnvVarTable, A, k);
    ConfigKeysDistinct();
    if k in EnvVarsConfig(env) {
      var j :| LastSetter(EnvVarTable, A, j, k) && Collect(EnvVarTable, A)[k] == A(EnvVarTable[j]).value.1;
      assert j == i;
    }
    if Present(EnvGet(env, EnvVarTable[i].0)) {
      assert A(EnvVarTable[i]).Some? && A(EnvVarTable[i]).value.0 == k;
    }
  }

  // ---------------------------------------------------------------------
  // Merging

  /** The name of the variable that switches the SSM source on. */
  const SsmPrefixVar: string := "SSM_PARAMETER_PREFIX"

  /** The SSM source: read only when the prefix variable is set and
      non-empty; a failure to read it leaves it out. `ssm(prefix)` is what
      reading all parameters under `prefix` gives. */
  function SsmConfig(ssm: string -> Result<seq<Parameter>, string>, env: map<string, string>): ConfigMap {
    var prefix := if SsmPrefixVar in env then env[SsmPrefixVar] else "";
    if prefix != "" && ssm(prefix).Success? then Collect(ssm(prefix).value, SsmAssign) else map[]
  }

  /** What `_load_config` returns. */
  function LoadedConfig(envFile: Option<seq<EnvFileEntry>>, ssm: string -> Result<seq<Parameter>, string>,
                        env: map<string, string>): ConfigMap
  {
    EnvFileConfig(envFile) + SsmConfig(ssm, env) + EnvVarsConfig(env)
  }

  /** Each key takes its value from the highest-priority source that has
      it: environment variables, then SSM, then the `.env` file. */
  lemma SourcePriority(envFile: Option<seq<EnvFileEntry>>, ssm: string -> Result<seq<Parameter>, string>,
                       env: map<string, string>, k: string)
    ensures var config := LoadedConfig(envFile, ssm, env);
            && (k in config <==> k in EnvFileConfig(envFile) || k in SsmConfig(ssm, env) || k in EnvVarsConfig(env))
            && (k in EnvVarsConfig(env) ==> config[k] == EnvVarsConfig(env)[k])
            && (k !in EnvVarsConfig(env) && k in SsmConfig(ssm, env) ==> config[k] == SsmConfig(ssm, env)[k])
            && (k !in EnvVarsConfig(env) && k !in SsmConfig(ssm, env) && k in EnvFileConfig(envFile) ==>
                  config[k] == EnvFileConfig(envFile)[k])
  {
  }

  /** `_load_config`: the `.env` file, overridden by SSM, overridden by the
      environment variables. */
  method LoadConfig(envFile: Option<seq<EnvFileEntry>>, ssm: string -> Result<seq<Parameter>, string>,
                    env: map<string, string>) returns (config: ConfigMap)
    ensures config == LoadedConfig(envFile, ssm, env)
  {
    config := map[];
    var fromFile := LoadFromEnvFile(envFile);
    EmptyUpdate(fromFile);
    config := config + fromFile;
    var prefix := if SsmPrefixVar in env then env[SsmPrefixVar] else "";
    if prefix != "" {
      var fetched := ssm(prefix);
      if fetched.Success? {
        var fromSsm := LoadFromSsm(fetched.value);
        config := config + fromSsm;
      }
    }
    assert config == fromFile + SsmConfig(ssm, env);
    var fromEnv := LoadFromEnvVars(env);
    config := config + fromEnv;
  }

  lemma EmptyUpdate(m: ConfigMap)
    ensures map[] + m == m
  {
  }

  // ---------------------------------------------------------------------
  // Settings

  datatype Settings = Settings(
    awsRegion: string,
    environment: string,
    documentsBucket: string,
    vectorsBucket: string,
    vectorIndex: string,
    embeddingModelId: string,
    llmModelId: string,
    vectorDimensions: int,
    chunkSize: int,
    chunkOverlap: int,
    defaultTopK: int,
    minScoreThreshold: real,
    agentMode: string,
    agentcoreRuntimeArn: string)

  /** The field defaults of the settings record. */
  const Defaults: Settings := Settings(
    awsRegion := "us-east-1",
    environment := "dev",
    documentsBucket := "",
    vectorsBucket := "",
    vectorIndex := "",
    embeddingModelId := "amazon.titan-embed-text-v2:0",
    llmModelId := "us.anthropic.claude-3-5-sonnet-20241022-v2:0",
    vectorDimensions := 1024,
    chunkSize := 4000,
    chunkOverlap := 800,
    defaultTopK := 5,
    minScoreThreshold := 0.3,
    agentMode := "local",
    agentcoreRuntimeArn := "")

  /** Why the settings could not be obtained: `vector_dimensions` is not an
      integer, or required settings are missing (their variable names). */
  datatype ConfigError = InvalidInteger(text: string) | MissingConfiguration(names: seq<string>)

  /** `config.get(key, default)`. */
  function Get(config: ConfigMap, key: string, default: string): string {
    if key in config then config[key] else default
  }

  /** The settings record built from the merged configuration. Chunking,
      search and score settings are never read from it and keep their
      defaults; `vector_dimensions` must parse as an integer. */
  function BuildSettings(config: ConfigMap): (r: Result<Settings, ConfigError>)
    ensures r.Failure? <==> ParseInt(Get(config, "vector_dimensions", "1024")).None?
    ensures r.Failure? ==> r.error == InvalidInteger(config["vector_dimensions"])
    ensures r.Success? ==>
              && r.value.chunkSize == Defaults.chunkSize && r.value.chunkOverlap == Defaults.chunkOverlap
              && r.value.defaultTopK == Defaults.defaultTopK && r.value.minScoreThreshold == Defaults.minScoreThreshold
              && Some(r.value.vectorDimensions) == ParseInt(Get(config, "vector_dimensions", "1024"))
  {
    var dimensions := Get(config, "vector_dimensions", "1024");
    match ParseInt(dimensions)
    case None => Failure(InvalidInteger(dimensions))
    case Some(n) =>
      Success(Defaults.(
        awsRegion := Get(config, "aws_region", "us-east-1"),
        environment := Get(config, "environment", "dev"),
        documentsBucket := Get(config, "documents_bucket", ""),
        vectorsBucket := Get(config, "vectors_bucket", ""),
        vectorIndex := Get(config, "vector_index", ""),
        embeddingModelId := Get(config, "embedding_model", "amazon.titan-embed-text-v2:0"),
        llmModelId := Get(config, "llm_model", "us.anthropic.claude-3-5-sonnet-20241022-v2:0"),
        vectorDimensions := n,
        agentMode := Get(config, "agent_mode", "local"),
        agentcoreRuntimeArn := Get(config, "agentcore_runtime_arn", "")))
  }

  /** With nothing configured, the settings are the record's defaults. */
  lemma EmptyConfigGivesDefaults()
    ensures BuildSettings(map[]) == Success(Defaults)
  {
    DefaultDimensionsParse();
  }

  /** The default `"1024"` parses as 1024. */
  lemma DefaultDimensionsParse()
    ensures ParseInt("1024") == Some(1024)
  {
    DecimalOf1024();
    ParseDecimal(1024, "", "");
    assert "" + Decimal(1024) + "" == "1024";
  }

  lemma DecimalOf1024()
    ensures Decimal(1024) == "1024"
  {
    assert Decimal(1) == "1";
    assert Decimal(10) == "10";
    assert Decimal(102) == "102";
  }

  /** A configured value always overrides the default. */
  lemma ConfiguredValuesWin(config: ConfigMap)
    requires BuildSettings(config).Success?
    ensures var s := BuildSettings(config).value;
            && ("documents_bucket" in config ==> s.documentsBucket == config["documents_bucket"])
            && ("vectors_bucket" in config ==> s.vectorsBucket == config["vectors_bucket"])
            && ("vector_index" in config ==> s.vectorIndex == config["vector_index"])
            && ("aws_region" in config ==> s.awsRegion == config["aws_region"])
            && ("embedding_model" in config ==> s.embeddingModelId == config["embedding_model"])
            && ("llm_model" in config ==> s.llmModelId == config["llm_model"])
            && ("agent_mode" in config ==> s.agentMode == config["agent_mode"])
            && ("environment" in config ==> s.environment == config["environment"])
            && ("agentcore_runtime_arn" in config ==> s.agentcoreRuntimeArn == config["agentcore_runtime_arn"])
  {
  }

  /** A key the configuration does not set keeps the field's default. */
  lemma AbsentKeysGiveDefaults(config: ConfigMap)
    requires BuildSettings(config).Success?
    ensures var s := BuildSettings(config).value;
            && ("aws_region" !in config ==> s.awsRegion == Defaults.awsRegion)
            && ("environment" !in config ==> s.environment == Defaults.environment)
            && ("documents_bucket" !in config ==> s.documentsBucket == Defaults.documentsBucket)
            && ("vectors_bucket" !in config ==> s.vectorsBucket == Defaults.vectorsBucket)
            && ("vector_index" !in config ==> s.vectorIndex == Defaults.vectorIndex)
            && ("embedding_model" !in config ==> s.embeddingModelId == Defaults.embeddingModelId)
            && ("llm_model" !in config ==> s.llmModelId == Defaults.llmModelId)
            && ("vector_dimensions" !in config ==> s.vectorDimensions == Defaults.vectorDimensions)
            && ("agent_mode" !in config ==> s.agentMode == Defaults.agentMode)
            && ("agentcore_runtime_arn" !in config ==> s.agentcoreRuntimeArn == Defaults.agentcoreRuntimeArn)
  {
    DefaultDimensionsParse();
  }

  /** The variable names the source requires, in the order it reports them. */
  const RequiredNames: seq<string> := ["DOCUMENTS_BUCKET", "VECTORS_BUCKET", "VECTOR_INDEX"]

  /** The position of a name in `RequiredNames`. */
  function RequiredRank(name: string): nat {
    if name == RequiredNames[0] then 0 else if name == RequiredNames[1] then 1 else 2
  }

  /** `_validate_required`: the names of the empty required settings, in
      order; the source raises when there is any. */
  function MissingRequired(s: Settings): (missing: seq<string>)
    ensures "DOCUMENTS_BUCKET" in missing <==> s.documentsBucket == ""
    ensures "VECTORS_BUCKET" in missing <==> s.vectorsBucket == ""
    ensures "VECTOR_INDEX" in missing <==> s.vectorIndex == ""
    ensures missing == [] <==> s.documentsBucket != "" && s.vectorsBucket != "" && s.vectorIndex != ""
    ensures forall i :: 0 <= i < |missing| ==> missing[i] in RequiredNames
    ensures forall i, j :: 0 <= i < j < |missing| ==> RequiredRank(missing[i]) < RequiredRank(missing[j])
  {
    (if s.documentsBucket == "" then ["DOCUMENTS_BUCKET"] else [])
    + (if s.vectorsBucket == "" then ["VECTORS_BUCKET"] else [])
    + (if s.vectorIndex == "" then ["VECTOR_INDEX"] else [])
  }

  /** One `get_settings` call as written: `cached` is the module-level
      cache before the call, `built` what building the settings from a
      fresh configuration gives. The result and the cache afterwards. The
      cache is filled before validation, so settings that fail it stay
      cached. */
  function GetSettingsAsWritten(cached: Option<Settings>, built: Result<Settings, ConfigError>)
    : (out: (Result<Settings, ConfigError>, Option<Settings>))
    ensures cached.Some? ==> out == (Success(cached.value), cached)
    ensures cached.None? && built.Failure? ==> out == (Failure(built.error), None)
    ensures cached.None? && built.Success? ==> out.1 == Some(built.value)
    ensures cached.None? && built.Success? ==>
              (out.0.Success? <==> MissingRequired(built.value) == [])
  {
    if cached.Some? then (Success(cached.value), cached)
    else if built.Failure? then (Failure(built.error), None)
    else
      var missing := MissingRequired(built.value);
      (if missing == [] then Success(built.value) else Failure(MissingConfiguration(missing)), Some(built.value))
  }

  /** Settings missing a required value are rejected by the first call
      and returned without complaint by the second. */
  lemma SecondCallSkipsValidation(s: Settings)
    requires MissingRequired(s) != []
    ensures var first := GetSettingsAsWritten(None, Success(s));
            && first.0 == Failure(MissingConfiguration(MissingRequired(s)))
            && forall built :: GetSettingsAsWritten(first.1, built).0 == Success(s)
  {
  }

  /** One `get_settings` call with the settings cached only once they pass
      validation. */
  function GetSettingsValidated(cached: Option<Settings>, built: Result<Settings, ConfigError>)
    : (out: (Result<Settings, ConfigError>, Option<Settings>))
    ensures cached.Some? ==> out == (Success(cached.value), cached)
    ensures cached.None? && built.Failure? ==> out == (Failure(built.error), None)
  {
    if cached.Some? then (Success(cached.value), cached)
    else if built.Failure? then (Failure(built.error), None)
    else
      var missing := MissingRequired(built.value);
      if missing == [] then (Success(built.value), Some(built.value))
      else (Failure(MissingConfiguration(missing)), None)
  }

  /** The cache holds only settings with every required value. */
  predicate CacheValid(cached: Option<Settings>) {
    cached.Some? ==> MissingRequired(cached.value) == []
  }

  /** With validation before caching, every call's settings carry every
      required value, and the cache stays valid. */
  lemma ValidatedCallsReturnValidSettings(cached: Option<Settings>, built: Result<Settings, ConfigError>)
    requires CacheValid(cached)
    ensures var out := GetSettingsValidated(cached, built);
            && CacheValid(out.1)
            && (out.0.Success? ==> MissingRequired(out.0.value) == [])
            && (cached.None? && built.Success? ==> (out.0.Success? <==> MissingRequired(built.value) == []))
  {
  }

  /** The module-level cache of settings. */
  class SettingsCache {
    var cached: Option<Settings>

    constructor ()
      ensures cached == None
    {
      cached := None;
    }

    /** `get_settings` as written: builds, caches, then validates. */
    method GetSettings(envFile: Option<seq<EnvFileEntry>>, ssm: string -> Result<seq<Parameter>, string>,
                       env: map<string, string>) returns (r: Result<Settings, ConfigError>)
      modifies this
      ensures (r, cached) == GetSettingsAsWritten(old(cached), BuildSettings(LoadedConfig(envFile, ssm, env)))
    {
      if cached.None? {
        var config := LoadConfig(envFile, ssm, env);
        var built := BuildSettings(config);
        if built.Failure? {
          return Failure(built.error);
        }
        cached := Some(built.value);
        var missing := MissingRequired(built.value);
        if missing != [] {
          return Failure(MissingConfiguration(missing));
        }
      }
      r := Success(cached.value);
    }

    /** `get_settings` with validation before caching. */
    method GetValidSettings(envFile: Option<seq<EnvFileEntry>>, ssm: string -> Result<seq<Parameter>, string>,
                            env: map<string, string>) returns (r: Result<Settings, ConfigError>)
      modifies this
      ensures (r, cached) == GetSettingsValidated(old(cached), BuildSettings(LoadedConfig(envFile, ssm, env)))
    {
      if cached.None? {
        var config := LoadConfig(envFile, ssm, env);
        var built := BuildSettings(config);
        if built.Failure? {
          return Failure(built.error);
        }
        var missing := MissingRequired(built.value);
        if missing != [] {
          return Failure(MissingConfiguration(missing));
        }
        cached := Some(built.value);
      }
      r := Success(cached.value);
    }

    /** `reset_settings`. */
    method ResetSettings()
      modifies this
      ensures cached == None
    {
      cached := None;
    }
  }
}
