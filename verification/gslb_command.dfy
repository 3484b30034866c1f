/** The `gslb update-pools` command: anchor and compile the label pattern, update
    the regions, read the TTL, and optionally wait for it. */
module GslbCommand {
  import opened Errors
  import opened Durations
  import opened Regex
  import opened Gslb
  import opened Urls
  import Dispatch
  import Service

  /** The command's settings as read from flags, config file or environment. */
  datatype Settings = Settings(labelPattern: string, serveMode: string, fqdn: string, wait: bool)

  /** The flag defaults. */
  const Defaults: Settings := Settings("eu-[0-9]+", "obey", "prometheus.in.ft.com", true)

  /** The configuration built (once the pattern compiled), the requests sent, the
      propagation wait performed, and the command's result (None while the update
      is still collecting responses). */
  datatype Outcome = Outcome(
    config: Option<Config>,
    requests: seq<Request>,
    waited: Option<Int64>,
    result: Option<Result<()>>)

  /** The configuration handed to the service: serve mode and fqdn exactly as set. */
  function ConfigOf(re: Regexp, s: Settings): Config
  {
    Config(re, s.serveMode, s.fqdn)
  }

  /** updatePools: each step runs only if the one before it succeeded. */
  function UpdatePools(s: Settings, engine: Engine, esc: Escaper, api: Api, steps: seq<Dispatch.Step>): (r: Outcome)
    ensures r.config.Some? <==> Compile(engine, Anchor(s.labelPattern)).Ok?
    ensures r.config.None? ==>
      r.requests == [] && r.result == Some(Err(PatternInvalid(engine.syntaxError(Anchor(s.labelPattern)).value)))
    ensures r.config.Some? ==> r.config.value == Config(Regexp(Anchor(s.labelPattern)), s.serveMode, s.fqdn)
    ensures r.waited.Some? ==> s.wait && r.result == Some(Ok(()))
    ensures r.result == Some(Ok(())) ==> r.waited.Some? == s.wait
  {
    match Compile(engine, Anchor(s.labelPattern))
    case Err(e) => Outcome(None, [], None, Some(Err(e)))
    case Ok(re) =>
      var config := ConfigOf(re, s);
      var update := Service.UpdateGslbRegion(config, engine, esc, api, steps);
      match update.outcome
      case None => Outcome(Some(config), update.requests, None, None)
      case Some(Err(e)) => Outcome(Some(config), update.requests, None, Some(Err(e)))
      case Some(Ok(_)) =>
        var ttl := Service.GetGslbTTL(config, esc, api);
        var requests := update.requests + [ttl.request];
        match ttl.err
        case Some(e) => Outcome(Some(config), requests, None, Some(Err(e)))
        case None => Outcome(Some(config), requests, if s.wait then Some(ttl.duration) else None, Some(Ok(())))
  }

  /** The TTL is read only after a successful update: if the update fails, its error
      is the command's result, no TTL request is sent and nothing is waited for. */
  lemma TtlOnlyAfterUpdate(s: Settings, engine: Engine, esc: Escaper, api: Api, steps: seq<Dispatch.Step>)
    ensures var r := UpdatePools(s, engine, esc, api, steps);
      r.config.Some? ==>
        var update := Service.UpdateGslbRegion(r.config.value, engine, esc, api, steps);
        && (Get(ServiceUrl(esc, s.fqdn)) in r.requests <==> update.outcome == Some(Ok(())))
        && (update.outcome.Some? && update.outcome.value.Err? ==>
              r.result == update.outcome && r.waited.None? && r.requests == update.requests)
  {
    var r := UpdatePools(s, engine, esc, api, steps);
    if r.config.Some? {
      var update := Service.UpdateGslbRegion(r.config.value, engine, esc, api, steps);
      UrlsDistinct(esc, s.fqdn, s.fqdn, "");
      assert Get(ServiceUrl(esc, s.fqdn)) !in update.requests by {
        forall i | 0 <= i < |update.requests|
          ensures update.requests[i] != Get(ServiceUrl(esc, s.fqdn))
        {
        }
      }
      if update.outcome.Some? && update.outcome.value.Ok? {
        assert update.outcome.value.value == ();
        var ttl := Service.GetGslbTTL(r.config.value, esc, api);
        assert r.requests == update.requests + [ttl.request];
        assert r.requests[|update.requests|] == Get(ServiceUrl(esc, s.fqdn));
      } else {
        assert r.requests == update.requests;
      }
    }
  }

  /** A TTL read that fails after a successful update is still the command's error,
      although the PUTs have been sent and are not undone. */
  lemma TtlFailureAfterUpdate(s: Settings, engine: Engine, esc: Escaper, api: Api, steps: seq<Dispatch.Step>)
    requires Compile(engine, Anchor(s.labelPattern)).Ok?
    requires CheckReply(api.getService(ServiceUrl(esc, s.fqdn))).Err?
    ensures var r := UpdatePools(s, engine, esc, api, steps);
      var config := ConfigOf(Regexp(Anchor(s.labelPattern)), s);
      Service.UpdateGslbRegion(config, engine, esc, api, steps).outcome == Some(Ok(())) ==>
      && r.result == Some(Err(CheckReply(api.getService(ServiceUrl(esc, s.fqdn))).error))
      && r.requests == Service.UpdateGslbRegion(config, engine, esc, api, steps).requests + [Get(ServiceUrl(esc, s.fqdn))]
      && r.waited.None?
  {
  }

  /** The success path: compile, update and TTL read all succeed; the command waits for
      the TTL exactly when asked to, and returns Ok. */
  lemma SuccessPath(s: Settings, engine: Engine, esc: Escaper, api: Api, steps: seq<Dispatch.Step>)
    ensures var r := UpdatePools(s, engine, esc, api, steps);
      var config := ConfigOf(Regexp(Anchor(s.labelPattern)), s);
      r.result == Some(Ok(())) <==>
        && Compile(engine, Anchor(s.labelPattern)).Ok?
        && Service.UpdateGslbRegion(config, engine, esc, api, steps).outcome == Some(Ok(()))
        && Service.GetGslbTTL(config, esc, api).err.None?
    ensures var r := UpdatePools(s, engine, esc, api, steps);
      var config := ConfigOf(Regexp(Anchor(s.labelPattern)), s);
      r.result == Some(Ok(())) ==>
        r.waited == (if s.wait then Some(Service.GetGslbTTL(config, esc, api).duration) else None)
  {
    var r := UpdatePools(s, engine, esc, api, steps);
    var config := ConfigOf(Regexp(Anchor(s.labelPattern)), s);
    if r.result == Some(Ok(())) {
      assert r.config == Some(config);
      var update := Service.UpdateGslbRegion(config, engine, esc, api, steps);
      assert update.outcome.Some? && update.outcome.value.Ok?;
      assert update.outcome.value.value == ();
    }
  }

  /** The defaults, and the expression they compile to. */
  lemma DefaultSettings()
    ensures Anchor(Defaults.labelPattern) == DefaultExpr
    ensures Defaults.serveMode == "obey" && Defaults.wait && Defaults.fqdn == "prometheus.in.ft.com"
  {
  }

  /** The serve mode is not checked against always|obey|remove|no: any text is sent. */
  lemma ServeModeUnchecked(engine: Engine, esc: Escaper, api: Api, steps: seq<Dispatch.Step>)
    requires Compile(engine, DefaultExpr).Ok?
    ensures var r := UpdatePools(Defaults.(serveMode := "bogus"), engine, esc, api, steps);
      r.config.Some? && r.config.value.serveMode == "bogus"
  {
    DefaultSettings();
  }
}
