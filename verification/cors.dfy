/** The CORS origin decision of the API server (backend/src/app.js): the
    list of allowed origins built from fixed entries and two environment
    variables, and the callback that admits or refuses a request's origin. */
module Cors {
  import opened Js
  import Middleware

  /** The environment variables the decision reads. */
  datatype Env = Env(nodeEnv: Option<string>, clientUrl: Option<string>, frontendUrl: Option<string>)

  const DevOrigins := ["http://localhost:5173", "http://localhost:5174", "http://localhost:3000", "http://localhost:3001"]

  const DeployedOrigin := "https://familia-sable.vercel.app"

  /** `[...].filter(Boolean)`: the fixed entries and the two variables, in
      that order, without the unset or empty ones. */
  function AllowedOrigins(env: Env): (r: seq<string>)
    ensures forall o :: o in r <==>
      o in DevOrigins || o == DeployedOrigin
      || (Filled(env.clientUrl) && o == env.clientUrl.value)
      || (Filled(env.frontendUrl) && o == env.frontendUrl.value)
    ensures forall i :: 0 <= i < |r| ==> r[i] != ""
    ensures 5 <= |r| <= 7 && r[..4] == DevOrigins && r[|r| - 1] == DeployedOrigin
  {
    var client := if Filled(env.clientUrl) then [env.clientUrl.value] else [];
    var frontend := if Filled(env.frontendUrl) then [env.frontendUrl.value] else [];
    DevOrigins + client + frontend + [DeployedOrigin]
  }

  /** The callback's answer: admitted, or refused with an error. */
  datatype Decision = Allow | Refuse(error: string)

  /** The local development origins: any port on `localhost` or `127.0.0.1`
      over plain HTTP. */
  predicate LocalOrigin(origin: string) {
    StartsWith(origin, "http://localhost:") || StartsWith(origin, "http://127.0.0.1:")
  }

  /** The `origin` callback: a request without an origin is admitted;
      outside production any local origin is admitted; otherwise the
      origin must be in the list exactly. */
  function Decide(env: Env, origin: Option<string>): (r: Decision)
    ensures r.Allow? <==>
      || !Filled(origin)
      || (env.nodeEnv != Some("production") && LocalOrigin(origin.value))
      || origin.value in AllowedOrigins(env)
    ensures r.Refuse? ==> r.error == "Not allowed by CORS"
  {
    if !Filled(origin) then Allow
    else if env.nodeEnv != Some("production") && LocalOrigin(origin.value) then Allow
    else if origin.value in AllowedOrigins(env) then Allow
    else Refuse("Not allowed by CORS")
  }

  /** In production a local origin is admitted only when it is listed
      exactly, so of two ports only the listed one passes. */
  lemma ProductionLocalhost(env: Env, origin: string)
    requires env.nodeEnv == Some("production") && origin != "" && LocalOrigin(origin)
    ensures Decide(env, Some(origin)).Allow? <==> origin in AllowedOrigins(env)
  {
  }

  /** For instance, in production with neither variable set, the Vite
      port is admitted and another local port is refused. */
  lemma ProductionPorts()
    ensures Decide(Env(Some("production"), None, None), Some("http://localhost:5173")) == Allow
    ensures Decide(Env(Some("production"), None, None), Some("http://localhost:8080")).Refuse?
  {
    var env := Env(Some("production"), None, None);
    assert AllowedOrigins(env) == DevOrigins + [DeployedOrigin];
    assert "http://localhost:8080" != "http://localhost:5173";
  }

  /** Outside production every local origin is admitted, listed or not. */
  lemma DevelopmentAdmitsLocal(env: Env, origin: string)
    requires env.nodeEnv != Some("production") && LocalOrigin(origin)
    ensures Decide(env, Some(origin)) == Allow
  {
  }

  /** A refused origin reaches the error handler as a plain error, which
      answers 500 with the refusal's text. */
  lemma RefusalAnswer(env: Env, origin: Option<string>)
    requires Decide(env, origin).Refuse?
    ensures Middleware.ErrorHandler(Middleware.Err(None, None, None, Some(Decide(env, origin).error)))
      == Middleware.Answer(500, Middleware.ErrorBody("Not allowed by CORS", Middleware.NoExtra))
  {
  }
}
