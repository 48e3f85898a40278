/** The application configuration and its per-environment overrides
    (frontend/config.js). */
module Config {
  import opened Common

  /** The values a configuration property holds. */
  datatype Setting = Text(s: string) | Number(n: int) | Flag(b: bool) | Features(flags: Obj<bool>)

  /** `APP_CONFIG`, in declaration order. */
  const AppConfig: Obj<Setting> := [
    ("GOOGLE_CLIENT_ID", Text("982944345380-0o9ccqh8ifkm9v5sq9mmht6sasuqa2is.apps.googleusercontent.com")),
    ("SCRIPT_URL", Text("https://script.google.com/macros/s/AKfycbzCz4Lf787j34MWFpdSs48yWMipb1CAnt7IT_N8_qktQSQdMnwganGIB0PqJlK1nhcdlQ/exec")),
    ("SPREADSHEET_ID", Text("1VTERW3H4DaMTDSgrQOBQTRZlx601EnDMzF4-S3TxloA")),
    ("APP_NAME", Text("KPI Dashboard")),
    ("VERSION", Text("1.0.0")),
    ("API_TIMEOUT", Number(30000)),
    ("MAX_RETRIES", Number(3)),
    ("RETRY_DELAY", Number(1000)),
    ("AUTO_REFRESH_INTERVAL", Number(5)),
    ("NOTIFICATION_DURATION", Number(4000)),
    ("FEATURES", Features([("AUTO_REFRESH", true), ("NOTIFICATIONS", true), ("DARK_MODE", false),
                           ("EXPORT_DATA", true), ("OFFLINE_MODE", false)])),
    ("DEBUG", Flag(false)),
    ("LOG_LEVEL", Text("info")),
    ("ENABLE_AUTH", Flag(true)),
    ("SESSION_TIMEOUT", Number(8 * 60 * 60 * 1000)),
    ("CACHE_TTL", Number(5 * 60 * 1000)),
    ("MAX_TASKS_PER_PAGE", Number(50)),
    ("MAX_EMPLOYEES", Number(1000)),
    ("CORS_ORIGIN", Text("*"))
  ]

  const Development: Obj<Setting> := [
    ("DEBUG", Flag(true)), ("LOG_LEVEL", Text("debug")),
    ("AUTO_REFRESH_INTERVAL", Number(1)), ("CORS_ORIGIN", Text("*"))
  ]

  const Staging: Obj<Setting> := [
    ("DEBUG", Flag(true)), ("LOG_LEVEL", Text("info")),
    ("CORS_ORIGIN", Text("https://your-staging-domain.com"))
  ]

  const Production: Obj<Setting> := [
    ("DEBUG", Flag(false)), ("LOG_LEVEL", Text("error")),
    ("CORS_ORIGIN", Text("https://your-production-domain.com"))
  ]

  /** `ENVIRONMENTS[environment] || ENVIRONMENTS.development`: the overrides of
      the three configured environments, and the development ones for any other
      name; a missing argument (`None`) takes the default `'development'`. */
  function EnvironmentOverrides(environment: Option<string>): (r: Obj<Setting>)
    ensures UniqueKeys(r)
  {
    var name := environment.GetOr("development");
    if name == "staging" then Staging
    else if name == "production" then Production
    else Development
  }

  /** `getConfig(environment)`: `{ ...APP_CONFIG, ...envConfig }`. Every
      property the environment sets takes the environment's value; every other
      property keeps the value from `APP_CONFIG`, which is a constant and is
      never changed. */
  function GetConfig(environment: Option<string>): (r: Obj<Setting>)
    ensures forall k :: Get(r, k) ==
                        (var env := EnvironmentOverrides(environment);
                         if HasKey(env, k) then Get(env, k) else Get(AppConfig, k))
  {
    var env := EnvironmentOverrides(environment);
    assert forall k :: Get(Spread(AppConfig, env), k) ==
                       (if HasKey(env, k) then Get(env, k) else Get(AppConfig, k)) by {
      forall k {
        SpreadGet(AppConfig, env, k);
      }
    }
    Spread(AppConfig, env)
  }

  /** An environment name that is not configured falls back to the development
      overrides, and so does a missing argument. */
  lemma UnknownEnvironmentIsDevelopment(environment: string)
    requires environment != "staging" && environment != "production"
    ensures GetConfig(Some(environment)) == GetConfig(Some("development"))
    ensures GetConfig(None) == GetConfig(Some("development"))
  {
    assert EnvironmentOverrides(Some(environment)) == Development;
  }

  /** Production turns debugging off, logs errors only and restricts the CORS
      origin; every other property, the retry settings among them, keeps its
      application-wide value. */
  lemma ProductionSettings(environment: Option<string>)
    requires environment == Some("production")
    ensures Get(GetConfig(environment), "DEBUG") == Some(Flag(false))
    ensures Get(GetConfig(environment), "LOG_LEVEL") == Some(Text("error"))
    ensures forall k | k != "DEBUG" && k != "LOG_LEVEL" && k != "CORS_ORIGIN" ::
              Get(GetConfig(environment), k) == Get(AppConfig, k)
  {
    assert EnvironmentOverrides(environment) == Production;
    GetAt(Production, 0);
    GetAt(Production, 1);
    forall k | k != "DEBUG" && k != "LOG_LEVEL" && k != "CORS_ORIGIN"
      ensures !HasKey(Production, k)
    {
      forall i | 0 <= i < |Production| ensures Production[i].0 != k {
      }
    }
  }
}
