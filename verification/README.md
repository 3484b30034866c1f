# dyn-cli-utils GSLB reconciliation — a Dafny model

`dyn-cli-utils gslb update-pools` reconciles the serve modes of the pools of a
Dyn GSLB (Global Server Load Balancing) service. It runs these steps:

1. Read every region of the service with one GET.
2. Set the target `serve_mode` on each pool whose label matches the label
   pattern wrapped in `^…$`.
3. PUT each changed region back, one at a time, because Dyn allows only one job
   in progress.
4. Collect the PUT results, waiting at most 20 seconds for each one.
5. Read the service TTL.
6. Optionally wait for that TTL.

Before any sub-command runs, the root command checks the log level and the
required `username`/`password` flags, and then logs in.

The model is sequential and pure. Every collaborator the tool calls is a
parameter of the model:

- the RE2 engine (`Regex.Engine`);
- `url.PathEscape` (`Urls.Escaper`);
- the go-dynect client (`Gslb.Api`, one reply per URL);
- viper (`RootCommand.Viper`);
- logrus `ParseLevel`;
- the Dynect login.

The goroutines and channels become one schedule, `Dispatch.Step`, which mixes
`Admit(code)`, `Deliver(code)` and `Expire` steps:

- A step that is not enabled is a goroutine still blocked, and it changes nothing.
- Once the collector has returned, every later step is ignored.

Most properties are proved for *every* schedule, so they hold under every
interleaving of the workers.

| module | file | models |
|---|---|---|
| `Errors` | errors.dfy | the error values the tool returns, with their Go messages |
| `Durations` | durations.dfy | `time.Duration` as a wrapping signed 64-bit count of nanoseconds |
| `Regex` | regex.dfy | anchoring of `--label-pattern`, compilation, the default `^eu-[0-9]+$` |
| `Gslb` | gslb.dfy | regions, pools, `GslbConfig`, the API reply check, `doGslbUpdate` |
| `Urls` | urls.dfy | the three request paths and their segment structure |
| `Planner` | planner.dfy | the planning loop that builds `putRequests` |
| `Gate` | gate.dfy | the semaphore channel of capacity `concurrencyLimit = 1` |
| `Collector` | collector.dfy | the `readChannel` select loop and its 20 s timer |
| `Dispatch` | dispatch.dfy | the PUT workers, the gate and the collector over any schedule |
| `Service` | service.dfy | `UpdateGslbRegion` and `GetGslbTTL` |
| `GslbCommand` | gslb_command.dfy | `updatePools` and the flag defaults |
| `RootCommand` | root_command.dfy | `PersistentPreRunE` |

Some behaviours of the code worth knowing:

- **Re-planning.** The planner does not skip pools already in the target mode,
  so a second run against a service that reflects the first run plans the same
  regions again (`Planner.ReplanIsSame`).
- **Aggregate error.** When some PUTs fail, the result is the single generic
  error "One or more of the GSLB updates failed", which names no region.
- **Per-response timer.** The 20-second timer is recreated on every loop
  iteration. It bounds the wait for the *next* response, not the whole
  collection (`Collector.ThreeSlowResponses`).
- **Errors passed through.** A failed TTL read returns the reply's error
  unchanged. A failed region GET does the same: the transport error, or the
  "no success" status error.
- **In-place mutation.** The Go loop writes the new serve mode into the slice it
  read. That slice is not reused afterwards, so the model builds new values
  instead.
- **Empty plan.** When no pool matches, no PUT is sent. The collector then waits
  for a response that never comes, so the run can only end with the timeout
  error (`Collector.EmptyPlanOnlyTimesOut`, `Dispatch.EmptyPlan`,
  `Service.NothingToUpdate`).

## Model

| member | source | states |
|---|---|---|
| Gslb.CheckReply | internal/dyn/gslb.go:92-95 | a Dyn call succeeds iff there is no transport error and the status is exactly "success"; a transport error is returned as is, otherwise the "no success" error |
| Gslb.DoGslbUpdate | internal/dyn/gslb.go:57-72 | the response sent for a PUT carries its URL, and carries an error exactly when the reply check fails, that error |
| Durations.Seconds | internal/dyn/gslb.go:215 | `time.Duration(ttl) * time.Second` is congruent to ttl·10⁹ modulo 2⁶⁴ and equals it whenever it fits in int64 |
| Durations.SecondsRoundTrip | internal/dyn/gslb.go:215 | for a TTL between -MaxSeconds and MaxSeconds, dividing the duration by one second gives the TTL back, with no remainder |
| Durations.SecondsWrapsPastRange | internal/dyn/gslb.go:215 | a TTL above MaxSeconds whose exact product stays below 2⁶⁴ ns (up to 18446744073 s) wraps once, to ttl·10⁹ − 2⁶⁴, a negative duration |
| Durations.SecondsOfMaxInt64 | internal/dyn/gslb.go:215 | the largest TTL, MaxInt64 seconds, also wraps to a negative duration |
| Regex.Anchor | cmd/gslb.go:70 | the compiled expression is "^", then the pattern unchanged, then "$" |
| Regex.AnchorInjective | cmd/gslb.go:70 | distinct label patterns give distinct expressions |
| Regex.Compile | cmd/gslb.go:70-77 | compilation succeeds iff the engine reports no syntax error, keeps the expression, and otherwise yields the invalid-pattern error with the engine's message |
| Regex.EuLabelExamples | cmd/gslb.go:46 | the default pattern accepts eu-1 and eu-22 and rejects us-1, eu-, eu-1a and xeu-1 |
| Errors.Message | internal/dyn/gslb.go:176-181 | the texts the tool's own errors print: "Dynect API call status was no success" (lines 59, 94, 200), "One or more of the GSLB updates failed", "Update requests did not return after 20 seconds" and "Missing required flags" (cmd/root.go:61); a library's error prints its own message |
| Urls.AllRegionsUrl | internal/dyn/gslb.go:83 | the region GET path starts with "GSLBRegion/" and ends with "/?detail=Y"; its exact segments are stated by `Urls.UrlSegments` |
| Urls.RegionUrl | internal/dyn/gslb.go:140 | the region PUT path starts with "GSLBRegion/" and ends with a slash; segments in `Urls.UrlSegments`, injectivity in `Urls.RegionUrlInjective` |
| Urls.ServiceUrl | internal/dyn/gslb.go:189 | the service GET path starts with "GSLB/" and ends with a slash; segments in `Urls.UrlSegments`, distinctness in `Urls.UrlsDistinct` |
| Urls.UrlSegments | internal/dyn/gslb.go:83 | with an escaper that never yields '/', the three request paths split into exactly the segments GSLBRegion/zone/fqdn/?detail=Y, GSLBRegion/zone/fqdn/region/ and GSLB/zone/fqdn/ |
| Urls.RegionUrlInjective | internal/dyn/gslb.go:140 | two region PUT URLs are equal only if their escaped fqdns and escaped region codes are equal |
| Urls.UrlsDistinct | internal/dyn/gslb.go:189 | the service TTL URL is never a region URL nor the all-regions URL, whatever the escaper |
| Urls.SegmentsOfJoin | internal/dyn/gslb.go:83 | splitting a slash-joined path at its slashes gives back the parts, when no part holds a slash |
| Planner.RewritePool | internal/dyn/gslb.go:113-129 | a matching pool gets the target serve mode; address, label and weight never change; a non-matching pool is unchanged |
| Planner.Rewrite | internal/dyn/gslb.go:111-131 | serve count, failover mode and data, region code and the number of pools are kept |
| Planner.Plan | internal/dyn/gslb.go:109-132 | every entry of the plan is stored under its own region code and has a matching pool; its keys and values are characterised by `Planner.PlanKeys`, `Planner.PlanLast` and `Planner.PlannedPayloads` |
| Planner.PlanKeys | internal/dyn/gslb.go:109-130 | a region code is planned iff some region read with that code has a pool whose label matches |
| Planner.PlanLast | internal/dyn/gslb.go:130 | the planned payload is the rewrite of the last region read with that code that has a match, so a later duplicate overwrites an earlier one |
| Planner.PlannedPayloads | internal/dyn/gslb.go:111-131 | every planned payload is, pool for pool, a region read with that code in which exactly the matching pools have the target mode, and at least one pool matched |
| Planner.PlanEmptyIffNoMatch | internal/dyn/gslb.go:111-120 | the plan is empty iff no pool of any region matches |
| Planner.RewriteIdempotent | internal/dyn/gslb.go:128-129 | rewriting an already rewritten region changes nothing |
| Planner.ReplanIsSame | internal/dyn/gslb.go:111-131 | planning again against the written state gives the same plan, not an empty one |
| Planner.PlanUpdates | internal/dyn/gslb.go:109-132 | the nested loops over regions and pools build exactly the plan |
| Planner.DefaultPatternExample | internal/dyn/gslb.go:113-130 | with the default pattern, a region with pools eu-1, eu-22 and us-1 is planned with the first two set to the target mode and us-1 untouched |
| Gate.Acquire | internal/dyn/gslb.go:142 | a slot can be taken iff fewer than the limit are held; taking one adds one and keeps the count within the limit |
| Gate.Release | internal/dyn/gslb.go:156 | a slot can be given back iff one is held; giving it back removes one |
| Gate.AcquireThenRelease | internal/dyn/gslb.go:136-142 | with limit 1, a second acquire blocks until a release, and a release undoes an acquire |
| Collector.Step | internal/dyn/gslb.go:154-182 | one select iteration never drops or reorders a received response, adds at most one, and keeps waiting only while fewer than the planned number have arrived; the outcome is stated by `Collector.CollectAll`, `Collector.TimeoutBeforeAll` and `Collector.LateEventsIgnored` |
| Collector.Verdict | internal/dyn/gslb.go:159-177 | the result once all responses are in is Ok iff no response carries an error, and otherwise the generic update error; over the plan this is stated by `Dispatch.VerdictOnPlan` and `Collector.CollectAll` |
| Collector.LateEventsIgnored | internal/dyn/gslb.go:175-181 | once the loop has returned, later responses or timers change nothing |
| Collector.RunAppend | internal/dyn/gslb.go:153-183 | running the loop over two stretches of events is running it over their concatenation |
| Collector.CollectSome | internal/dyn/gslb.go:155-158 | fewer responses than planned keep the loop waiting with exactly those responses, in order |
| Collector.CollectAll | internal/dyn/gslb.go:155-179 | when all planned responses arrive first, the result is nil iff none of them carries an error, and later events change nothing |
| Collector.TimeoutBeforeAll | internal/dyn/gslb.go:180-181 | a timer that fires before the last response arrives ends the run with the 20-second error |
| Collector.EmptyPlanOnlyTimesOut | internal/dyn/gslb.go:155-181 | with nothing planned the loop either still waits or has returned the timeout error |
| Collector.TimerRestartsEachIteration | internal/dyn/gslb.go:152-183 | if every response comes within 20 s of the previous iteration, the run ends with the verdict on all of them |
| Collector.ThreeSlowResponses | internal/dyn/gslb.go:180-181 | three successful responses 15 s apart end in success although 45 s have passed |
| Dispatch.Init | internal/dyn/gslb.go:136-145 | one queued worker per planned region and no other, the gate empty, nothing sent or received, the collector waiting; `Dispatch.InitInv` shows it satisfies the invariant of `Dispatch.AnySchedule` |
| Dispatch.Next | internal/dyn/gslb.go:139-157 | one step of the workers and collector only appends to the logs of PUTs sent and responses received, at most one entry each; the invariant it keeps is stated by `Dispatch.AnySchedule` |
| Dispatch.AnySchedule | internal/dyn/gslb.go:136-185 | on every schedule at most one PUT is in flight, no region is PUT twice, nothing unplanned is PUT, and a returned result is nil exactly when every region was PUT and succeeded, the update error when all were PUT and one failed, or else the timeout error |
| Dispatch.Completed | internal/dyn/gslb.go:139-185 | a result other than the timeout means every planned region was PUT with its payload, and it is nil iff every PUT succeeded |
| Dispatch.EmptyPlan | internal/dyn/gslb.go:139-181 | with nothing planned no PUT is sent and the run can only end in the timeout error |
| Dispatch.OnlyOneInFlight | internal/dyn/gslb.go:136-142 | while one PUT is in flight it is the only one |
| Dispatch.FailureIsolated | internal/dyn/gslb.go:141-157 | a failed PUT releases the slot without ending the run, and the next queued region is then admitted |
| Dispatch.SerialCompletes | internal/dyn/gslb.go:139-178 | admitting and delivering the regions one by one ends with the verdict on all their responses, success iff every PUT succeeded |
| Dispatch.AdmittedPut | internal/dyn/gslb.go:140-143 | every admitted region's PUT is among the requests sent |
| Dispatch.Pigeonhole | internal/dyn/gslb.go:158 | as many distinct planned regions delivered as planned means every planned region was delivered |
| Dispatch.VerdictOnPlan | internal/dyn/gslb.go:158-177 | once every planned region has answered, the verdict is nil iff every planned PUT succeeded |
| Service.UpdateGslbRegion | internal/dyn/gslb.go:82-103 | the first request is the detailed GET; a failed GET is the only request and its error is returned; every later request is a PUT |
| Service.PutsOnce | internal/dyn/gslb.go:139-144 | no region is PUT twice in one run |
| Service.UpdateErrors | internal/dyn/gslb.go:82-186 | the update fails only with the GET's transport error, the status error, the aggregate update error or the timeout |
| Service.UpdateOutcome | internal/dyn/gslb.go:151-185 | after a good GET, a result other than the timeout means every planned region was PUT to its URL, and it is nil iff each of those PUTs was answered successfully |
| Service.NothingToUpdate | internal/dyn/gslb.go:109-181 | when no pool matches, only the GET is sent and the run can only end in the timeout error |
| Service.PlanKeyIsRegionCode | internal/dyn/gslb.go:130 | each planned payload carries the region code it is planned under |
| Service.GetGslbTTL | internal/dyn/gslb.go:188-215 | the TTL read GETs the service URL; on success it returns the TTL in seconds as a duration, on failure duration 0 and the reply's error |
| Service.TtlExact | internal/dyn/gslb.go:215 | a TTL between -MaxSeconds and MaxSeconds comes back as exactly that many seconds |
| GslbCommand.UpdatePools | cmd/gslb.go:67-116 | an invalid pattern fails before any request; the config carries the anchored pattern and copies serve mode and fqdn; the command waits only on success and then exactly when wait is set |
| GslbCommand.TtlOnlyAfterUpdate | cmd/gslb.go:85-106 | the TTL is read iff the update succeeded; a failed update is returned as is, with no TTL read and no wait |
| GslbCommand.TtlFailureAfterUpdate | cmd/gslb.go:99-106 | a failed TTL read after a successful update is returned, after the update's requests, and nothing is waited |
| GslbCommand.SuccessPath | cmd/gslb.go:108-115 | the command succeeds iff the pattern compiles, the update succeeds and the TTL is read, and then it waits for that TTL exactly when wait is set |
| GslbCommand.DefaultSettings | cmd/gslb.go:30-50 | the defaults are pattern eu-[0-9]+ (compiled as ^eu-[0-9]+$), serve mode obey, wait true and fqdn prometheus.in.ft.com |
| GslbCommand.ServeModeUnchecked | cmd/gslb.go:78-82 | a serve mode outside always/obey/remove/no is passed to the service unchanged |
| RootCommand.UnsetFlags | cmd/root.go:50-55 | the unset flags are exactly the required flags that are unset or empty, in their declared order |
| RootCommand.PersistentPreRun | cmd/root.go:44-77 | an invalid log level fails first; then missing flags fail with "Missing required flags"; otherwise the login uses account, username and password, and the hook succeeds iff the login does |
| RootCommand.LoginAttemptedIff | cmd/root.go:45-65 | the login is attempted iff the log level is valid and both username and password are set and non-empty |
| RootCommand.MissingFlagsReported | cmd/root.go:21-24 | only username and password are required, reported in that order; account is not |

## Left out

- Goroutines and channels are replaced by the schedule of `Dispatch.Step`. Closing both channels in the deferred function (internal/dyn/gslb.go:147-150) is not modelled, nor is what a late worker does after it. A send on a closed channel panics, and that is not a sequential behaviour.
- When a response and the 20 s timer are ready at the same moment, Go's select picks one at random. `Collector.Timeline` resolves such a tie as the timer.
- The label pattern is anchored by plain text wrapping (cmd/gslb.go:70). In RE2 the anchors bind tighter than a top-level `|`, so `eu-1|us-2` becomes `^eu-1|us-2$` and matches "eu-12" and "xus-2". The "fully anchored" promise of the flag help (cmd/gslb.go:47) therefore fails for such patterns. The engine is a parameter here, so the model cannot exhibit this: `Regex.Anchor` states only the text it builds.
- The RE2 engine is a parameter. Only the default pattern gets a concrete meaning (`Regex.EuLabel`), and even that is linked to a real engine only by an assumption on the engine (`Regex.MatchesDefaultAsRe2`).
- `url.PathEscape`, the go-dynect HTTP client, JSON decoding and logrus `ParseLevel` are parameters, so their results are not modelled. The same holds for viper lookups and the Dynect login.
- The `response` data map a PUT returns is only logged, so `Gslb.HttpResponse` leaves it out.
- All logging is left out.
- The logout in `PersistentPostRunE` (cmd/root.go:78-91) is left out.
- Cobra and viper flag binding, config-file and environment loading, and `homedir` are left out (cmd/root.go:94-147, cmd/gslb.go:22-65). Only the `gslb update-pools` defaults are kept, as `GslbCommand.Defaults`. The root command's defaults, account "financialtimes" and log level "info" (cmd/root.go:111-112), are not modelled: `RootCommand.Viper` is any flag source.
- The spinner and the sleep that `wait` triggers are left out (internal/terminal.go). The model records only the duration waited.
- `cmd/generatedocs/generatedocs.go` and the `NewDynectService` constructor in `internal/dyn/service.go` are left out.
- Go's `int` for the TTL field is modelled as a 64-bit integer (`Durations.Int64`). That matches the 64-bit platforms the tool is built for.
- Service.UpdateGslbRegion: its own contract covers only the GET, the failure path of the GET and the shape of later requests. The result after a good GET is stated by `Service.UpdateOutcome`, `Service.NothingToUpdate` and `Dispatch.AnySchedule`.
