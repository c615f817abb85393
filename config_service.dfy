/** src/config/config.service.ts: the configuration record, its structural
    validator, and how the file's values are laid over the environment's. */
module ConfigService {
  import opened Wrappers

  /** A parsed JSON5 value. `JUndefined` is a key that is present with the
      value `undefined`, which is what an unset environment variable puts into
      the default object. JavaScript numbers are modelled by integers. */
  datatype Json =
    | JUndefined
    | JNull
    | JBool(b: bool)
    | JNumber(n: int)
    | JString(s: string)
    | JArray(items: seq<Json>)
    | JObject(fields: map<string, Json>)

  /** The validated configuration (`Config extends ArtifactoryConfig,
      GitHubConfig`). */
  datatype Config = Config(
    organizationLogins: seq<string>,
    teamIds: seq<int>,
    gitHubKey: string,
    gitHubSecret: string,
    artifactoryGroups: seq<string>,
    artifactoryBaseUrl: string,
    artifactoryToken: string,
    artifactoryNpmRepoName: string,
    artifactoryNpmPackageScope: string,
    customScript: Option<string>)

  // ---------------------------------------------------------------------------
  // The reason-guard combinators, with the meaning their names give them.

  /** `isString` / `isNumber`. */
  datatype ValueCheck = IsString | IsNumber

  predicate Satisfies(v: Json, check: ValueCheck) {
    match check
    case IsString => v.JString?
    case IsNumber => v.JNumber?
  }

  /** `requiredProperty(g)`, `optionalProperty(g)`, `hasArrayProperty(g)`. */
  datatype PropertyGuard =
    | RequiredProperty(check: ValueCheck)
    | OptionalProperty(check: ValueCheck)
    | HasArrayProperty(check: ValueCheck)

  /** Whether property `name` of an object with `fields` passes `guard`. An
      optional property may be absent or `undefined`; an array property must
      be an array whose every element passes the check. */
  predicate PropertyHolds(fields: map<string, Json>, name: string, guard: PropertyGuard) {
    match guard
    case RequiredProperty(c) => name in fields && Satisfies(fields[name], c)
    case OptionalProperty(c) => name !in fields || fields[name] == JUndefined || Satisfies(fields[name], c)
    case HasArrayProperty(c) =>
      name in fields && fields[name].JArray?
      && forall i :: 0 <= i < |fields[name].items| ==> Satisfies(fields[name].items[i], c)
  }

  /** The errors a guard records in the `errors` array it is handed. */
  datatype GuardError =
    | NotAnObject
    | InvalidProperty(name: string)
    | GuardFailedWithoutError

  /** A guard's verdict together with what it pushed into `errors`. */
  datatype GuardReport = GuardReport(success: bool, errors: seq<GuardError>)

  /** One error per property of `definition` that fails, in definition order. */
  function FailedProperties(definition: seq<(string, PropertyGuard)>, fields: map<string, Json>): (r: seq<GuardError>)
    ensures |r| <= |definition|
    ensures r == [] <==> forall i :: 0 <= i < |definition| ==> PropertyHolds(fields, definition[i].0, definition[i].1)
    ensures r != [] ==> exists i :: 0 <= i < |definition| && r[0] == InvalidProperty(definition[i].0)
                                   && !PropertyHolds(fields, definition[i].0, definition[i].1)
                                   && forall j :: 0 <= j < i ==> PropertyHolds(fields, definition[j].0, definition[j].1)
  {
    if definition == [] then []
    else
      var (name, guard) := definition[0];
      var rest := FailedProperties(definition[1..], fields);
      if PropertyHolds(fields, name, guard) then rest else [InvalidProperty(name)] + rest
  }

  /** `isObjectWithDefinition(definition)` applied to `input`. */
  function IsObjectWithDefinition(definition: seq<(string, PropertyGuard)>, input: Json): GuardReport {
    if !input.JObject? then GuardReport(false, [NotAnObject])
    else
      var errors := FailedProperties(definition, input.fields);
      GuardReport(errors == [], errors)
  }

  /** `throwOnErrorGuard(guard)(input)`: the guard fills a fresh `errors`
      array; on success the wrapper returns `true`, otherwise it throws the
      first recorded error, or a generic error when none was recorded. */
  function ThrowOnErrorGuard(guard: Json -> GuardReport, input: Json): (r: Result<bool, GuardError>)
    ensures r.Ok? <==> guard(input).success
    ensures r.Ok? ==> r.value
    ensures r.Err? && guard(input).errors != [] ==> r.error == guard(input).errors[0]
    ensures r.Err? && guard(input).errors == [] ==> r.error == GuardFailedWithoutError
  {
    var report := guard(input);
    if report.success then Ok(true)
    else if |report.errors| > 0 then Err(report.errors[0])
    else Err(GuardFailedWithoutError)
  }

  /** The definition handed to `isObjectWithDefinition<Config>`. */
  const ConfigDefinition: seq<(string, PropertyGuard)> := [
    ("organizationLogins", HasArrayProperty(IsString)),
    ("teamIds", HasArrayProperty(IsNumber)),
    ("gitHubKey", RequiredProperty(IsString)),
    ("gitHubSecret", RequiredProperty(IsString)),
    ("artifactoryGroups", HasArrayProperty(IsString)),
    ("artifactoryBaseUrl", RequiredProperty(IsString)),
    ("artifactoryToken", RequiredProperty(IsString)),
    ("artifactoryNpmRepoName", RequiredProperty(IsString)),
    ("artifactoryNpmPackageScope", RequiredProperty(IsString)),
    ("customScript", OptionalProperty(IsString))
  ]

  /** `assertIsConfig = throwOnErrorGuard(isConfig)`. */
  function AssertIsConfig(input: Json): Result<bool, GuardError> {
    ThrowOnErrorGuard(j => IsObjectWithDefinition(ConfigDefinition, j), input)
  }

  // ---------------------------------------------------------------------------
  // The field rules written out one by one, as an independent statement of
  // what a well-typed configuration object is.

  predicate IsStringArray(v: Json) {
    v.JArray? && forall i :: 0 <= i < |v.items| ==> v.items[i].JString?
  }

  predicate IsNumberArray(v: Json) {
    v.JArray? && forall i :: 0 <= i < |v.items| ==> v.items[i].JNumber?
  }

  predicate RequiredString(f: map<string, Json>, name: string) {
    name in f && f[name].JString?
  }

  predicate WellTypedConfig(v: Json) {
    && v.JObject?
    && "organizationLogins" in v.fields && IsStringArray(v.fields["organizationLogins"])
    && "teamIds" in v.fields && IsNumberArray(v.fields["teamIds"])
    && RequiredString(v.fields, "gitHubKey")
    && RequiredString(v.fields, "gitHubSecret")
    && "artifactoryGroups" in v.fields && IsStringArray(v.fields["artifactoryGroups"])
    && RequiredString(v.fields, "artifactoryBaseUrl")
    && RequiredString(v.fields, "artifactoryToken")
    && RequiredString(v.fields, "artifactoryNpmRepoName")
    && RequiredString(v.fields, "artifactoryNpmPackageScope")
    && ("customScript" !in v.fields || v.fields["customScript"] == JUndefined || v.fields["customScript"].JString?)
  }

  /** The guard accepts exactly the well-typed configuration objects; a
      rejection names the first failing property of the definition (or says
      the input is not an object). */
  lemma AssertIsConfigAccepts(v: Json)
    ensures AssertIsConfig(v).Ok? <==> WellTypedConfig(v)
    ensures AssertIsConfig(v).Ok? ==> AssertIsConfig(v).value
    ensures !v.JObject? ==> AssertIsConfig(v) == Err(NotAnObject)
    ensures v.JObject? && AssertIsConfig(v).Err? ==>
      exists i :: 0 <= i < |ConfigDefinition| && AssertIsConfig(v).error == InvalidProperty(ConfigDefinition[i].0)
  {
    if v.JObject? {
      if WellTypedConfig(v) {
        WellTypedHasAllProperties(v.fields);
      }
      if forall i :: 0 <= i < |ConfigDefinition| ==> PropertyHolds(v.fields, ConfigDefinition[i].0, ConfigDefinition[i].1) {
        AllPropertiesMakeWellTyped(v.fields);
      }
    }
  }

  lemma WellTypedHasAllProperties(f: map<string, Json>)
    requires WellTypedConfig(JObject(f))
    ensures forall i :: 0 <= i < |ConfigDefinition| ==> PropertyHolds(f, ConfigDefinition[i].0, ConfigDefinition[i].1)
  {
    forall i | 0 <= i < |ConfigDefinition|
      ensures PropertyHolds(f, ConfigDefinition[i].0, ConfigDefinition[i].1)
    {
    }
  }

  lemma AllPropertiesMakeWellTyped(f: map<string, Json>)
    requires forall i :: 0 <= i < |ConfigDefinition| ==> PropertyHolds(f, ConfigDefinition[i].0, ConfigDefinition[i].1)
    ensures WellTypedConfig(JObject(f))
  {
    assert PropertyHolds(f, ConfigDefinition[0].0, ConfigDefinition[0].1);
    assert PropertyHolds(f, ConfigDefinition[1].0, ConfigDefinition[1].1);
    assert PropertyHolds(f, ConfigDefinition[2].0, ConfigDefinition[2].1);
    assert PropertyHolds(f, ConfigDefinition[3].0, ConfigDefinition[3].1);
    assert PropertyHolds(f, ConfigDefinition[4].0, ConfigDefinition[4].1);
    assert PropertyHolds(f, ConfigDefinition[5].0, ConfigDefinition[5].1);
    assert PropertyHolds(f, ConfigDefinition[6].0, ConfigDefinition[6].1);
    assert PropertyHolds(f, ConfigDefinition[7].0, ConfigDefinition[7].1);
    assert PropertyHolds(f, ConfigDefinition[8].0, ConfigDefinition[8].1);
    assert PropertyHolds(f, ConfigDefinition[9].0, ConfigDefinition[9].1);
  }

  // ---------------------------------------------------------------------------
  // Reading a validated object as a Config, and writing a Config as an object.

  function Strings(v: Json): (r: seq<string>)
    requires IsStringArray(v)
    ensures |r| == |v.items| && forall i :: 0 <= i < |r| ==> v.items[i] == JString(r[i])
  {
    seq(|v.items|, i requires 0 <= i < |v.items| => v.items[i].s)
  }

  function Numbers(v: Json): (r: seq<int>)
    requires IsNumberArray(v)
    ensures |r| == |v.items| && forall i :: 0 <= i < |r| ==> v.items[i] == JNumber(r[i])
  {
    seq(|v.items|, i requires 0 <= i < |v.items| => v.items[i].n)
  }

  function ToConfig(v: Json): Config
    requires WellTypedConfig(v)
  {
    var f := v.fields;
    Config(
      Strings(f["organizationLogins"]),
      Numbers(f["teamIds"]),
      f["gitHubKey"].s,
      f["gitHubSecret"].s,
      Strings(f["artifactoryGroups"]),
      f["artifactoryBaseUrl"].s,
      f["artifactoryToken"].s,
      f["artifactoryNpmRepoName"].s,
      f["artifactoryNpmPackageScope"].s,
      if "customScript" in f && f["customScript"].JString? then Some(f["customScript"].s) else None)
  }

  function StringArray(xs: seq<string>): Json {
    JArray(seq(|xs|, i requires 0 <= i < |xs| => JString(xs[i])))
  }

  function NumberArray(xs: seq<int>): Json {
    JArray(seq(|xs|, i requires 0 <= i < |xs| => JNumber(xs[i])))
  }

  /** A configuration written out as the object a config file would hold. */
  function ToJson(c: Config): Json {
    var required := map[
      "organizationLogins" := StringArray(c.organizationLogins),
      "teamIds" := NumberArray(c.teamIds),
      "gitHubKey" := JString(c.gitHubKey),
      "gitHubSecret" := JString(c.gitHubSecret),
      "artifactoryGroups" := StringArray(c.artifactoryGroups),
      "artifactoryBaseUrl" := JString(c.artifactoryBaseUrl),
      "artifactoryToken" := JString(c.artifactoryToken),
      "artifactoryNpmRepoName" := JString(c.artifactoryNpmRepoName),
      "artifactoryNpmPackageScope" := JString(c.artifactoryNpmPackageScope)
    ];
    JObject(if c.customScript.Some? then required["customScript" := JString(c.customScript.value)] else required)
  }

  /** Every complete, well-typed configuration object is accepted without
      throwing, and reading it back gives the same configuration. */
  lemma ConfigRoundTrip(c: Config)
    ensures AssertIsConfig(ToJson(c)) == Ok(true)
    ensures WellTypedConfig(ToJson(c)) && ToConfig(ToJson(c)) == c
  {
    var v := ToJson(c);
    assert WellTypedConfig(v);
    AssertIsConfigAccepts(v);
    var d := ToConfig(v);
    assert d.organizationLogins == c.organizationLogins;
    assert d.teamIds == c.teamIds;
    assert d.artifactoryGroups == c.artifactoryGroups;
  }

  // ---------------------------------------------------------------------------
  // The ConfigService constructor.

  /** The environment variables the defaults are read from. */
  datatype Env = Env(
    ARTIFACTORY_TOKEN: Option<string>,
    ARTIFACTORY_URL: Option<string>,
    GITHUB_KEY: Option<string>,
    GITHUB_SECRET: Option<string>)

  function EnvValue(v: Option<string>): Json {
    if v.Some? then JString(v.value) else JUndefined
  }

  /** `defaultConfig`: four keys, each present even when its variable is unset. */
  function Defaults(env: Env): map<string, Json> {
    map[
      "artifactoryToken" := EnvValue(env.ARTIFACTORY_TOKEN),
      "artifactoryBaseUrl" := EnvValue(env.ARTIFACTORY_URL),
      "gitHubKey" := EnvValue(env.GITHUB_KEY),
      "gitHubSecret" := EnvValue(env.GITHUB_SECRET)
    ]
  }

  /** `Object.assign({}, defaultConfig, loadedConfig)`: the own properties of
      the loaded object are copied over the defaults. A loaded value that is
      not an object contributes no named property. */
  function Compose(env: Env, loaded: Json): (r: Json)
    ensures r.JObject?
    ensures r.fields.Keys == Defaults(env).Keys + (if loaded.JObject? then loaded.fields.Keys else {})
    ensures loaded.JObject? ==> forall k :: k in loaded.fields ==> r.fields[k] == loaded.fields[k]
    ensures forall k :: k in Defaults(env) && !(loaded.JObject? && k in loaded.fields) ==> r.fields[k] == Defaults(env)[k]
  {
    JObject(Defaults(env) + if loaded.JObject? then loaded.fields else map[])
  }

  /** `new ConfigService(...)`: compose, validate (throwing the guard's error),
      keep the composed object. */
  function LoadConfig(env: Env, loaded: Json): (r: Result<Config, GuardError>)
    ensures r.Ok? <==> WellTypedConfig(Compose(env, loaded))
    ensures r.Ok? ==> r.value == ToConfig(Compose(env, loaded))
  {
    var composed := Compose(env, loaded);
    AssertIsConfigAccepts(composed);
    match AssertIsConfig(composed)
    case Err(e) => Err(e)
    case Ok(_) => Ok(ToConfig(composed))
  }

  /** A file that sets all four env-backed keys decides them: the environment
      then makes no difference to the loaded configuration. */
  lemma FileOverridesEnv(env1: Env, env2: Env, loaded: Json)
    requires loaded.JObject?
    requires Defaults(env1).Keys <= loaded.fields.Keys
    ensures LoadConfig(env1, loaded) == LoadConfig(env2, loaded)
  {
    assert Compose(env1, loaded) == Compose(env2, loaded);
  }

  /** A key the file leaves out keeps the environment's value: a file that is
      well-typed except that it omits `gitHubKey` loads, with the key taken
      from `GITHUB_KEY`, exactly when that variable is set. */
  lemma EnvFillsMissingKey(env: Env, loaded: Json)
    requires loaded.JObject? && "gitHubKey" !in loaded.fields
    requires WellTypedConfig(JObject(loaded.fields["gitHubKey" := JString("")]))
    ensures LoadConfig(env, loaded).Ok? <==> env.GITHUB_KEY.Some?
    ensures LoadConfig(env, loaded).Ok? ==> LoadConfig(env, loaded).value.gitHubKey == env.GITHUB_KEY.value
  {
    var composed := Compose(env, loaded);
    assert composed.fields["gitHubKey"] == EnvValue(env.GITHUB_KEY);
  }
}
