/** The two service operations the command uses: UpdateGslbRegion (GET every
    region, plan, fan the PUTs out, collect) and GetGslbTTL. */
module Service {
  import opened Errors
  import opened Durations
  import opened Regex
  import opened Gslb
  import opened Urls
  import Planner
  import Dispatch

  /** The requests sent by one UpdateGslbRegion call and, once it has returned, what
      it returned. The outcome is None while the collector is still waiting at the
      end of the schedule. */
  datatype UpdateRun = UpdateRun(requests: seq<Request>, outcome: Option<Result<()>>)

  /** The PUT path of each region code of the service. */
  function RegionUrls(esc: Escaper, fqdn: string): string -> string
  {
    code => RegionUrl(esc, fqdn, code)
  }

  function PlanFor(config: Config, engine: Engine, data: seq<Region>): map<string, Region>
  {
    Planner.Plan(data, Matcher(engine, config.labelPattern), config.serveMode)
  }

  function EnvFor(config: Config, esc: Escaper, api: Api, plan: map<string, Region>): Dispatch.Env
  {
    Dispatch.Env(plan, RegionUrls(esc, config.fqdn), api.put)
  }

  /** UpdateGslbRegion under the given schedule of its workers and timer. */
  function UpdateGslbRegion(config: Config, engine: Engine, esc: Escaper, api: Api, steps: seq<Dispatch.Step>): (r: UpdateRun)
    ensures |r.requests| >= 1 && r.requests[0] == Get(AllRegionsUrl(esc, config.fqdn))
    ensures CheckReply(api.getRegions(AllRegionsUrl(esc, config.fqdn))).Err? ==>
      r.requests == [Get(AllRegionsUrl(esc, config.fqdn))] &&
      r.outcome == Some(Err(CheckReply(api.getRegions(AllRegionsUrl(esc, config.fqdn))).error))
    ensures forall i :: 1 <= i < |r.requests| ==> r.requests[i].Put?
  {
    var getUrl := AllRegionsUrl(esc, config.fqdn);
    match CheckReply(api.getRegions(getUrl))
    case Err(e) => UpdateRun([Get(getUrl)], Some(Err(e)))
    case Ok(data) =>
      var env := EnvFor(config, esc, api, PlanFor(config, engine, data));
      Dispatch.AnySchedule(env, steps);
      var t := Dispatch.Run(env, Dispatch.Init(env), steps);
      UpdateRun([Get(getUrl)] + Dispatch.Puts(env, t),
                if t.collector.Finished? then Some(t.collector.outcome) else None)
  }

  /** A planned region is stored under its own code. */
  lemma PlanKeyIsRegionCode(config: Config, engine: Engine, data: seq<Region>, code: string)
    requires code in PlanFor(config, engine, data)
    ensures PlanFor(config, engine, data)[code].regionCode == code
  {
    Planner.PlannedPayloads(data, Matcher(engine, config.labelPattern), config.serveMode, code);
  }

  /** No region is PUT twice in one call: the PUTs carry pairwise different payloads,
      each stored under its own region code. */
  lemma PutsOnce(config: Config, engine: Engine, esc: Escaper, api: Api, steps: seq<Dispatch.Step>)
    ensures var r := UpdateGslbRegion(config, engine, esc, api, steps);
      forall i, j :: 1 <= i < j < |r.requests| ==> r.requests[i].payload.regionCode != r.requests[j].payload.regionCode
  {
    var r := UpdateGslbRegion(config, engine, esc, api, steps);
    var get := CheckReply(api.getRegions(AllRegionsUrl(esc, config.fqdn)));
    if get.Ok? {
      var plan := PlanFor(config, engine, get.value);
      var env := EnvFor(config, esc, api, plan);
      Dispatch.AnySchedule(env, steps);
      var t := Dispatch.Run(env, Dispatch.Init(env), steps);
      assert r.requests == [Get(AllRegionsUrl(esc, config.fqdn))] + Dispatch.Puts(env, t);
      forall i, j | 1 <= i < j < |r.requests|
        ensures r.requests[i].payload.regionCode != r.requests[j].payload.regionCode
      {
        var a, b := t.admitted[i - 1], t.admitted[j - 1];
        PlanKeyIsRegionCode(config, engine, get.value, a);
        PlanKeyIsRegionCode(config, engine, get.value, b);
      }
    }
  }

  /** The errors UpdateGslbRegion can return: the GET's, the update error, the timeout. */
  lemma UpdateErrors(config: Config, engine: Engine, esc: Escaper, api: Api, steps: seq<Dispatch.Step>)
    ensures var r := UpdateGslbRegion(config, engine, esc, api, steps);
      r.outcome.Some? && r.outcome.value.Err? ==>
        r.outcome.value.error in {UpdatesFailed, UpdateTimeout, StatusNotSuccess} || r.outcome.value.error.Transport?
  {
    var get := CheckReply(api.getRegions(AllRegionsUrl(esc, config.fqdn)));
    if get.Ok? {
      Dispatch.AnySchedule(EnvFor(config, esc, api, PlanFor(config, engine, get.value)), steps);
    }
  }

  /** Once UpdateGslbRegion has returned something other than the timeout after a
      successful GET: something was planned, every planned region was PUT to its own
      path, and the result is Ok exactly when every one of those PUTs succeeded. */
  lemma UpdateOutcome(config: Config, engine: Engine, esc: Escaper, api: Api, steps: seq<Dispatch.Step>)
    requires CheckReply(api.getRegions(AllRegionsUrl(esc, config.fqdn))).Ok?
    ensures var r := UpdateGslbRegion(config, engine, esc, api, steps);
      var plan := PlanFor(config, engine, CheckReply(api.getRegions(AllRegionsUrl(esc, config.fqdn))).value);
      r.outcome.Some? && r.outcome.value != Err(UpdateTimeout) ==>
        && |plan| > 0
        && (forall code :: code in plan ==> Put(RegionUrl(esc, config.fqdn, code), plan[code]) in r.requests)
        && (r.outcome.value.Ok? <==>
              forall code :: code in plan ==> CheckReply(api.put(RegionUrl(esc, config.fqdn, code), plan[code])).Ok?)
  {
    var get := CheckReply(api.getRegions(AllRegionsUrl(esc, config.fqdn)));
    var plan := PlanFor(config, engine, get.value);
    var env := EnvFor(config, esc, api, plan);
    Dispatch.Completed(env, steps);
  }

  /** When no pool label matches, nothing is PUT and the call can only end in the
      timeout error (or the GET's error). */
  lemma NothingToUpdate(config: Config, engine: Engine, esc: Escaper, api: Api, steps: seq<Dispatch.Step>)
    requires var get := CheckReply(api.getRegions(AllRegionsUrl(esc, config.fqdn)));
      get.Ok? && PlanFor(config, engine, get.value) == map[]
    ensures var r := UpdateGslbRegion(config, engine, esc, api, steps);
      |r.requests| == 1 && (r.outcome.None? || r.outcome == Some(Err(UpdateTimeout)))
  {
    var get := CheckReply(api.getRegions(AllRegionsUrl(esc, config.fqdn)));
    var env := EnvFor(config, esc, api, PlanFor(config, engine, get.value));
    Dispatch.EmptyPlan(env, steps);
  }

  /** What GetGslbTTL returns: a duration and an error, Go style. */
  datatype TtlRead = TtlRead(request: Request, duration: Int64, err: Option<Error>)

  function GetGslbTTL(config: Config, esc: Escaper, api: Api): (r: TtlRead)
    ensures r.request == Get(ServiceUrl(esc, config.fqdn))
    ensures var reply := api.getService(ServiceUrl(esc, config.fqdn));
      && (r.err.None? <==> CheckReply(reply).Ok?)
      && (r.err.None? ==> r.duration == Seconds(reply.data))
      && (r.err.Some? ==> r.duration == 0 && r.err.value == CheckReply(reply).error)
  {
    var url := ServiceUrl(esc, config.fqdn);
    match CheckReply(api.getService(url))
    case Err(e) => TtlRead(Get(url), 0, Some(e))
    case Ok(ttl) => TtlRead(Get(url), Seconds(ttl), None)
  }

  /** A TTL of up to about 292 years comes back exactly as that many seconds. */
  lemma TtlExact(config: Config, esc: Escaper, api: Api)
    requires CheckReply(api.getService(ServiceUrl(esc, config.fqdn))).Ok?
    requires -MaxSeconds <= api.getService(ServiceUrl(esc, config.fqdn)).data <= MaxSeconds
    ensures GetGslbTTL(config, esc, api).duration == api.getService(ServiceUrl(esc, config.fqdn)).data * Second
    ensures GetGslbTTL(config, esc, api).duration / Second == api.getService(ServiceUrl(esc, config.fqdn)).data
  {
    SecondsRoundTrip(api.getService(ServiceUrl(esc, config.fqdn)).data);
  }
}
