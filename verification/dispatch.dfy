/** The PUT fan-out of UpdateGslbRegion: one worker per planned region, each
    admitted through the gate before its PUT, and the collector that receives the
    workers' responses and releases the gate after each one. The goroutines are
    replaced by a schedule: a sequence of steps chosen by the environment. */
module Dispatch {
  import opened Errors
  import opened Gslb
  import opened Gate
  import Collector

  /** The plan to carry out, the PUT path of each region code, and the API's PUT. */
  datatype Env = Env(plan: map<string, Region>, url: string -> string, put: (string, Region) -> Reply<()>)

  /** The response the worker for `code` hands to the collector. The reply depends
      only on the request, so it is the same whenever the PUT happens. */
  function ResponseOf(env: Env, code: string): (r: HttpResponse)
    requires code in env.plan
    ensures r.url == env.url(code)
  {
    DoGslbUpdate(env.url(code), env.put(env.url(code), env.plan[code]))
  }

  predicate PutSucceeds(env: Env, code: string)
    requires code in env.plan
  {
    CheckReply(env.put(env.url(code), env.plan[code])).Ok?
  }

  predicate AllIn<K(==), V>(codes: seq<K>, m: map<K, V>)
  {
    forall i :: 0 <= i < |codes| ==> codes[i] in m
  }

  /** The responses of the given workers, in that order. */
  function ResponsesOf(env: Env, codes: seq<string>): (rs: seq<HttpResponse>)
    requires AllIn(codes, env.plan)
    ensures |rs| == |codes|
    ensures forall i :: 0 <= i < |codes| ==> rs[i] == ResponseOf(env, codes[i])
  {
    seq(|codes|, i requires 0 <= i < |codes| && AllIn(codes, env.plan) => ResponseOf(env, codes[i]))
  }

  /** Queued: waiting for the gate. InFlight: PUT sent, response not yet received.
      Delivered: response received by the collector. */
  datatype Phase = Queued | InFlight | Delivered

  datatype State = State(
    phases: map<string, Phase>,
    gate: Semaphore,
    admitted: seq<string>,    // codes in the order their PUTs were sent
    delivered: seq<string>,   // codes in the order their responses were received
    collector: Collector.State)

  datatype Step = Admit(code: string) | Deliver(code: string) | Expire

  /** One queued worker per planned region, the gate open, nothing sent or received yet. */
  function Init(env: Env): (s: State)
    ensures forall c :: c in s.phases <==> c in env.plan
    ensures forall c :: c in s.phases ==> s.phases[c] == Queued
    ensures s.gate.held == 0 && s.admitted == [] && s.delivered == [] && s.collector == Collector.Start
  {
    State(map c | c in env.plan :: Queued, Open, [], [], Collector.Start)
  }

  /** One scheduling step. A step whose goroutine would block leaves the state as it
      is; once the collector has returned, UpdateGslbRegion has returned and nothing
      further is modelled. */
  function Next(env: Env, s: State, step: Step): (s': State)
    ensures s.admitted <= s'.admitted && |s'.admitted| <= |s.admitted| + 1
    ensures s.delivered <= s'.delivered && |s'.delivered| <= |s.delivered| + 1
  {
    if !s.collector.Waiting? then s
    else
      match step
      case Admit(c) =>
        if c in s.phases && s.phases[c] == Queued && Acquire(s.gate).Some? then
          s.(phases := s.phases[c := InFlight], gate := Acquire(s.gate).value, admitted := s.admitted + [c])
        else s
      case Deliver(c) =>
        if c in s.phases && s.phases[c] == InFlight && c in env.plan && Release(s.gate).Some? then
          s.(phases := s.phases[c := Delivered],
             gate := Release(s.gate).value,
             delivered := s.delivered + [c],
             collector := Collector.Step(|env.plan|, s.collector, Collector.Response(ResponseOf(env, c))))
        else s
      case Expire =>
        s.(collector := Collector.Step(|env.plan|, s.collector, Collector.Timeout))
  }

  function Run(env: Env, s: State, steps: seq<Step>): State
    decreases |steps|
  {
    if steps == [] then s else Run(env, Next(env, s, steps[0]), steps[1..])
  }

  /** The PUT requests sent, in order. */
  function Puts(env: Env, s: State): (reqs: seq<Request>)
    requires AllIn(s.admitted, env.plan)
    ensures |reqs| == |s.admitted|
    ensures forall i :: 0 <= i < |reqs| ==> reqs[i] == Put(env.url(s.admitted[i]), env.plan[s.admitted[i]])
  {
    seq(|s.admitted|, i requires 0 <= i < |s.admitted| && AllIn(s.admitted, env.plan) =>
      Put(env.url(s.admitted[i]), env.plan[s.admitted[i]]))
  }

  function InFlightCodes(s: State): set<string>
  {
    set c | c in s.phases && s.phases[c] == InFlight
  }

  predicate NoDup<T(==)>(xs: seq<T>)
  {
    forall i, j :: 0 <= i < j < |xs| ==> xs[i] != xs[j]
  }

  /** What the collector's outcome says about the plan, once it has returned. */
  ghost predicate OutcomeSound(env: Env, s: State)
  {
    s.collector.Finished? ==>
      var o := s.collector.outcome;
      && (o.Ok? || o.error in {UpdatesFailed, UpdateTimeout})
      && (o != Err(UpdateTimeout) ==>
            && |env.plan| > 0
            && (forall c :: c in env.plan ==> c in s.delivered)
            && (o.Ok? <==> forall c :: c in env.plan ==> PutSucceeds(env, c)))
  }

  /** The invariant every reachable state keeps. */
  ghost predicate Inv(env: Env, s: State)
  {
    && Books(env, s)
    && (s.collector.Waiting? ==> s.collector.responses == ResponsesOf(env, s.delivered))
    && OutcomeSound(env, s)
  }

  /** The bookkeeping part of Inv: phases, gate and the two logs agree. */
  ghost predicate Books(env: Env, s: State)
  {
    && s.phases.Keys == env.plan.Keys
    && Valid(s.gate)
    && s.gate.held == |InFlightCodes(s)|
    && NoDup(s.admitted)
    && (forall c :: c in s.admitted <==> c in s.phases && s.phases[c] != Queued)
    && NoDup(s.delivered)
    && (forall c :: c in s.delivered <==> c in s.phases && s.phases[c] == Delivered)
  }

  lemma InitInv(env: Env)
    ensures Inv(env, Init(env))
  {
    assert InFlightCodes(Init(env)) == {};
  }

  function ToSet<T>(xs: seq<T>): set<T>
  {
    set x | x in xs
  }

  lemma {:induction false} NoDupCard<T>(xs: seq<T>)
    requires NoDup(xs)
    ensures |ToSet(xs)| == |xs|
    decreases |xs|
  {
    if xs != [] {
      var n := |xs| - 1;
      NoDupCard(xs[..n]);
      assert ToSet(xs) == ToSet(xs[..n]) + {xs[n]};
      assert xs[n] !in ToSet(xs[..n]);
    }
  }

  lemma {:induction false} SubsetCard<T>(a: set<T>, b: set<T>)
    requires a <= b
    ensures |a| <= |b|
    decreases a
  {
    if a != {} {
      var x :| x in a;
      SubsetCard(a - {x}, b - {x});
    }
  }

  /** A duplicate-free list of as many keys as the map has covers every key. */
  lemma Pigeonhole<V>(xs: seq<string>, m: map<string, V>)
    requires NoDup(xs) && AllIn(xs, m) && |xs| == |m|
    ensures forall k :: k in m ==> k in xs
  {
    NoDupCard(xs);
    forall k | k in m
      ensures k in xs
    {
      if k !in xs {
        SubsetCard(ToSet(xs), m.Keys - {k});
      }
    }
  }

  lemma AdmitInv(env: Env, s: State, c: string)
    requires Inv(env, s) && s.collector.Waiting?
    ensures Inv(env, Next(env, s, Admit(c)))
  {
    var s' := Next(env, s, Admit(c));
    if s' != s {
      assert InFlightCodes(s') == InFlightCodes(s) + {c};
      assert c !in s.admitted;
    }
  }

  /** When every planned worker has been collected, the verdict on their responses
      is Ok exactly when every planned PUT succeeded. */
  lemma VerdictOnPlan(env: Env, delivered: seq<string>)
    requires NoDup(delivered) && AllIn(delivered, env.plan) && |delivered| == |env.plan|
    ensures forall c :: c in env.plan ==> c in delivered
    ensures Collector.Verdict(ResponsesOf(env, delivered)).Ok? <==> forall c :: c in env.plan ==> PutSucceeds(env, c)
  {
    Pigeonhole(delivered, env.plan);
    var rs := ResponsesOf(env, delivered);
    if Collector.AnyFailed(rs) {
      var i :| 0 <= i < |rs| && rs[i].err.Some?;
      assert !PutSucceeds(env, delivered[i]);
    } else {
      forall k | k in env.plan
        ensures PutSucceeds(env, k)
      {
        var i :| 0 <= i < |delivered| && delivered[i] == k;
        assert rs[i].err.None?;
      }
    }
  }

  lemma DeliverBooks(env: Env, s: State, c: string)
    requires Books(env, s) && s.collector.Waiting?
    requires c in s.phases && s.phases[c] == InFlight && c in env.plan && Release(s.gate).Some?
    ensures var s' := Next(env, s, Deliver(c));
      Books(env, s') && s'.delivered == s.delivered + [c] && AllIn(s'.delivered, env.plan)
  {
    var s' := Next(env, s, Deliver(c));
    assert InFlightCodes(s') == InFlightCodes(s) - {c};
    assert c !in s.delivered;
  }

  lemma DeliverInv(env: Env, s: State, c: string)
    requires Inv(env, s) && s.collector.Waiting?
    ensures Inv(env, Next(env, s, Deliver(c)))
  {
    var s' := Next(env, s, Deliver(c));
    if c in s.phases && s.phases[c] == InFlight && c in env.plan && Release(s.gate).Some? {
      DeliverBooks(env, s, c);
      var rs := s.collector.responses + [ResponseOf(env, c)];
      Collector.StepResponse(|env.plan|, s.collector.responses, ResponseOf(env, c));
      assert rs == ResponsesOf(env, s'.delivered);
      if s'.collector.Finished? {
        VerdictOnPlan(env, s'.delivered);
      }
    }
  }

  lemma NextInv(env: Env, s: State, step: Step)
    requires Inv(env, s)
    ensures Inv(env, Next(env, s, step))
  {
    if s.collector.Waiting? {
      match step
      case Admit(c) => AdmitInv(env, s, c);
      case Deliver(c) => DeliverInv(env, s, c);
      case Expire =>
    }
  }

  lemma {:induction false} RunInv(env: Env, s: State, steps: seq<Step>)
    requires Inv(env, s)
    ensures Inv(env, Run(env, s, steps))
    decreases |steps|
  {
    if steps != [] {
      NextInv(env, s, steps[0]);
      RunInv(env, Next(env, s, steps[0]), steps[1..]);
    }
  }

  /** Whatever the schedule: at most ConcurrencyLimit PUTs are outstanding, each
      planned region is PUT at most once, nothing unplanned is PUT, and once the
      collector returns, its outcome is Ok exactly when every planned region was PUT
      and every PUT succeeded, the generic update error when all were PUT and one
      failed, or the timeout error. */
  lemma AnySchedule(env: Env, steps: seq<Step>)
    ensures var t := Run(env, Init(env), steps);
      && |InFlightCodes(t)| <= ConcurrencyLimit
      && NoDup(t.admitted) && AllIn(t.admitted, env.plan)
      && OutcomeSound(env, t)
  {
    InitInv(env);
    RunInv(env, Init(env), steps);
    var t := Run(env, Init(env), steps);
    assert forall i :: 0 <= i < |t.admitted| ==> t.admitted[i] in t.admitted;
  }

  /** Every admitted region's PUT is among the requests sent. */
  lemma AdmittedPut(env: Env, t: State, c: string)
    requires AllIn(t.admitted, env.plan) && c in t.admitted
    ensures c in env.plan && Put(env.url(c), env.plan[c]) in Puts(env, t)
  {
    var i :| 0 <= i < |t.admitted| && t.admitted[i] == c;
    assert Puts(env, t)[i] == Put(env.url(c), env.plan[c]);
  }

  /** Once the collector has returned anything but the timeout, every planned region
      has had its PUT sent, and the outcome is Ok exactly when all of them succeeded. */
  lemma Completed(env: Env, steps: seq<Step>)
    ensures var t := Run(env, Init(env), steps);
      && AllIn(t.admitted, env.plan)
      && (t.collector.Finished? && t.collector.outcome != Err(UpdateTimeout) ==>
            && |env.plan| > 0
            && (forall c :: c in env.plan ==> Put(env.url(c), env.plan[c]) in Puts(env, t))
            && (t.collector.outcome.Ok? <==> forall c :: c in env.plan ==> PutSucceeds(env, c)))
  {
    InitInv(env);
    RunInv(env, Init(env), steps);
    var t := Run(env, Init(env), steps);
    assert forall i :: 0 <= i < |t.admitted| ==> t.admitted[i] in t.admitted;
    if t.collector.Finished? && t.collector.outcome != Err(UpdateTimeout) {
      forall c | c in env.plan
        ensures Put(env.url(c), env.plan[c]) in Puts(env, t)
      {
        AdmittedPut(env, t, c);
      }
    }
  }

  /** With nothing planned, no PUT is ever sent and the only way out is the timeout. */
  lemma EmptyPlan(env: Env, steps: seq<Step>)
    requires env.plan == map[]
    ensures var t := Run(env, Init(env), steps);
      t.admitted == [] && (t.collector.Waiting? || t.collector == Collector.Finished(Err(UpdateTimeout)))
  {
    AnySchedule(env, steps);
    var t := Run(env, Init(env), steps);
    NoDupCard(t.admitted);
    SubsetCard(ToSet(t.admitted), env.plan.Keys);
  }

  /** With limit 1, an in-flight worker is the only one. */
  lemma OnlyOneInFlight(env: Env, s: State, a: string)
    requires Inv(env, s) && a in s.phases && s.phases[a] == InFlight
    ensures InFlightCodes(s) == {a}
  {
    SubsetCard({a}, InFlightCodes(s));
    if InFlightCodes(s) != {a} {
      var x :| x in InFlightCodes(s) && x != a;
      SubsetCard({a, x}, InFlightCodes(s));
    }
  }

  /** A failed PUT does not stop its siblings: after its response is collected the
      collector keeps waiting, the gate is free, and a queued region's worker is
      admitted and sends its PUT. */
  lemma FailureIsolated(env: Env, s: State, a: string, b: string)
    requires Inv(env, s) && s.collector.Waiting?
    requires a in env.plan && s.phases[a] == InFlight && !PutSucceeds(env, a)
    requires b in env.plan && s.phases[b] == Queued
    ensures var s1 := Next(env, s, Deliver(a));
      && s1.collector.Waiting?
      && s1.gate.held == 0
      && var s2 := Next(env, s1, Admit(b));
         s2.phases[b] == InFlight && s2.admitted == s.admitted + [b]
  {
    OnlyOneInFlight(env, s, a);
    DeliverInv(env, s, a);
    var s1 := Next(env, s, Deliver(a));
    assert b !in s.delivered;
    assert |s.delivered| + 1 < |env.plan| by {
      assert AllIn(s.delivered + [a, b], env.plan);
      assert NoDup(s.delivered + [a, b]);
      NoDupCard(s.delivered + [a, b]);
      SubsetCard(ToSet(s.delivered + [a, b]), env.plan.Keys);
    }
  }

  /** The schedule that runs the workers one after another. */
  function Serial(order: seq<string>): (steps: seq<Step>)
    ensures |steps| == 2 * |order|
  {
    if order == [] then [] else [Admit(order[0]), Deliver(order[0])] + Serial(order[1..])
  }

  /** One worker admitted and collected, with no other worker in flight. */
  lemma SerialStep(env: Env, s: State, c: string)
    requires s.collector.Waiting? && s.gate.held == 0
    requires c in env.plan && c in s.phases && s.phases[c] == Queued
    ensures var s2 := Next(env, Next(env, s, Admit(c)), Deliver(c));
      && s2.phases == s.phases[c := Delivered]
      && s2.gate.held == 0
      && s2.collector == Collector.Step(|env.plan|, s.collector, Collector.Response(ResponseOf(env, c)))
  {
  }

  lemma RunSerialCons(env: Env, s: State, order: seq<string>)
    requires order != []
    ensures Run(env, s, Serial(order)) ==
      Run(env, Next(env, Next(env, s, Admit(order[0])), Deliver(order[0])), Serial(order[1..]))
  {
    var c := order[0];
    assert Serial(order)[1..] == [Deliver(c)] + Serial(order[1..]);
    assert ([Deliver(c)] + Serial(order[1..]))[1..] == Serial(order[1..]);
  }

  /** The workers still queued after the first of them has been collected. */
  lemma RestQueued(s: State, s2: State, order: seq<string>)
    requires |order| > 1 && NoDup(order)
    requires forall i :: 0 <= i < |order| ==> order[i] in s.phases && s.phases[order[i]] == Queued
    requires s2.phases == s.phases[order[0] := Delivered]
    ensures NoDup(order[1..])
    ensures forall i :: 0 <= i < |order[1..]| ==> order[1..][i] in s2.phases && s2.phases[order[1..][i]] == Queued
  {
    forall i | 0 <= i < |order[1..]|
      ensures order[1..][i] in s2.phases && s2.phases[order[1..][i]] == Queued
    {
      assert order[1..][i] == order[i + 1] != order[0];
    }
  }

  lemma {:induction false} SerialFrom(env: Env, s: State, order: seq<string>)
    requires s.collector.Waiting? && s.gate.held == 0
    requires order != [] && NoDup(order) && AllIn(order, env.plan)
    requires forall i :: 0 <= i < |order| ==> order[i] in s.phases && s.phases[order[i]] == Queued
    requires |s.collector.responses| + |order| == |env.plan|
    ensures Run(env, s, Serial(order)).collector ==
      Collector.Finished(Collector.Verdict(s.collector.responses + ResponsesOf(env, order)))
    decreases |order|
  {
    var c := order[0];
    SerialStep(env, s, c);
    RunSerialCons(env, s, order);
    Collector.StepResponse(|env.plan|, s.collector.responses, ResponseOf(env, c));
    var s2 := Next(env, Next(env, s, Admit(c)), Deliver(c));
    if |order| == 1 {
      assert ResponsesOf(env, order) == [ResponseOf(env, c)];
    } else {
      assert s.collector.responses + ResponsesOf(env, order)
          == s2.collector.responses + ResponsesOf(env, order[1..]);
      RestQueued(s, s2, order);
      SerialFrom(env, s2, order[1..]);
    }
  }

  /** Running the workers one after another (every region exactly once) always
      completes, and the outcome is Ok exactly when every PUT succeeded. */
  lemma SerialCompletes(env: Env, order: seq<string>)
    requires NoDup(order) && AllIn(order, env.plan) && |order| == |env.plan| > 0
    ensures Run(env, Init(env), Serial(order)).collector == Collector.Finished(Collector.Verdict(ResponsesOf(env, order)))
    ensures Run(env, Init(env), Serial(order)).collector == Collector.Finished(Ok(())) <==>
      forall c :: c in env.plan ==> PutSucceeds(env, c)
  {
    assert [] + ResponsesOf(env, order) == ResponsesOf(env, order);
    SerialFrom(env, Init(env), order);
    AnySchedule(env, Serial(order));
  }
}
