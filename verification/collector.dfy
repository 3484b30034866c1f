/** The fan-in loop of UpdateGslbRegion, as a fold over the events it selects on:
    a worker's response arrives, or the 20-second timer started for this loop
    iteration fires first. */
module Collector {
  import opened Errors
  import opened Durations
  import opened Gslb

  /** time.After(20 * time.Second), started afresh on every iteration. */
  const CollectTimeout: Int64 := 20 * Second

  datatype Event = Response(resp: HttpResponse) | Timeout

  /** Waiting with the responses received so far, or returned with an outcome. */
  datatype State = Waiting(responses: seq<HttpResponse>) | Finished(outcome: Result<()>)

  const Start: State := Waiting([])

  predicate AnyFailed(responses: seq<HttpResponse>)
  {
    exists i :: 0 <= i < |responses| && responses[i].err.Some?
  }

  /** The verdict once every expected response is in: one failure fails the run. */
  function Verdict(responses: seq<HttpResponse>): (r: Result<()>)
    ensures r.Ok? <==> forall i :: 0 <= i < |responses| ==> responses[i].err.None?
    ensures r.Err? ==> r.error == UpdatesFailed
  {
    if AnyFailed(responses) then Err(UpdatesFailed) else Ok(())
  }

  /** One iteration of the select loop. Once returned, nothing is received any more. */
  function Step(expected: nat, s: State, e: Event): (s': State)
    ensures s'.Waiting? ==> s.Waiting? && s.responses <= s'.responses && |s'.responses| <= |s.responses| + 1
    ensures s.Waiting? && |s.responses| < expected && s'.Waiting? ==> |s'.responses| < expected
  {
    match s
    case Finished(_) => s
    case Waiting(rs) =>
      match e
      case Timeout => Finished(Err(UpdateTimeout))
      case Response(x) =>
        var rs' := rs + [x];
        if |rs'| == expected then Finished(Verdict(rs')) else Waiting(rs')
  }

  /** A response received while waiting: the count check runs after appending it. */
  lemma StepResponse(expected: nat, rs: seq<HttpResponse>, x: HttpResponse)
    ensures Step(expected, Waiting(rs), Response(x)) ==
      if |rs| + 1 == expected then Finished(Verdict(rs + [x])) else Waiting(rs + [x])
  {
  }

  function Run(expected: nat, s: State, events: seq<Event>): State
    decreases |events|
  {
    if events == [] then s else Run(expected, Step(expected, s, events[0]), events[1..])
  }

  /** Events after the loop has returned change nothing: a late response cannot
      alter the outcome. */
  lemma {:induction false} LateEventsIgnored(expected: nat, o: Result<()>, events: seq<Event>)
    ensures Run(expected, Finished(o), events) == Finished(o)
    decreases |events|
  {
    if events != [] {
      LateEventsIgnored(expected, o, events[1..]);
    }
  }

  lemma {:induction false} RunAppend(expected: nat, s: State, e1: seq<Event>, e2: seq<Event>)
    ensures Run(expected, s, e1 + e2) == Run(expected, Run(expected, s, e1), e2)
    decreases |e1|
  {
    if e1 != [] {
      assert (e1 + e2)[1..] == e1[1..] + e2;
      RunAppend(expected, Step(expected, s, e1[0]), e1[1..], e2);
    } else {
      assert e1 + e2 == e2;
    }
  }

  /** Events that are all responses. */
  function Responses(resps: seq<HttpResponse>): (events: seq<Event>)
    ensures |events| == |resps|
    ensures forall i :: 0 <= i < |resps| ==> events[i] == Response(resps[i])
  {
    seq(|resps|, i requires 0 <= i < |resps| => Response(resps[i]))
  }

  /** Fed responses only, the loop stays waiting until the expected count is reached. */
  lemma {:induction false} CollectSome(expected: nat, received: seq<HttpResponse>, more: seq<HttpResponse>)
    requires |received| + |more| < expected
    ensures Run(expected, Waiting(received), Responses(more)) == Waiting(received + more)
    decreases |more|
  {
    if more == [] {
      assert received + more == received;
    } else {
      assert Responses(more)[1..] == Responses(more[1..]);
      assert received + more == (received + [more[0]]) + more[1..];
      CollectSome(expected, received + [more[0]], more[1..]);
    }
  }

  /** Once as many responses as planned regions have arrived, the loop returns an
      error exactly when one of them carries an error; responses beyond that count
      are never read. */
  lemma CollectAll(resps: seq<HttpResponse>, late: seq<Event>)
    requires |resps| > 0
    ensures Run(|resps|, Start, Responses(resps) + late) == Finished(Verdict(resps))
    ensures Run(|resps|, Start, Responses(resps) + late) == Finished(Ok(())) <==>
      forall i :: 0 <= i < |resps| ==> resps[i].err.None?
  {
    var n := |resps|;
    var front := resps[..n - 1];
    assert Responses(resps) == Responses(front) + [Response(resps[n - 1])];
    RunAppend(n, Start, Responses(front) + [Response(resps[n - 1])], late);
    RunAppend(n, Start, Responses(front), [Response(resps[n - 1])]);
    CollectSome(n, [], front);
    assert [] + front + [resps[n - 1]] == resps;
    LateEventsIgnored(n, Verdict(resps), late);
  }

  /** A timer firing before the last expected response ends the run with the
      timeout error, whatever the responses already received said. */
  lemma TimeoutBeforeAll(expected: nat, resps: seq<HttpResponse>, late: seq<Event>)
    requires |resps| < expected
    ensures Run(expected, Start, Responses(resps) + [Timeout] + late) == Finished(Err(UpdateTimeout))
  {
    RunAppend(expected, Start, Responses(resps) + [Timeout], late);
    RunAppend(expected, Start, Responses(resps), [Timeout]);
    CollectSome(expected, [], resps);
    LateEventsIgnored(expected, Err(UpdateTimeout), late);
  }

  /** With nothing planned no response is awaited, and the count check only runs after
      a response: whatever happens, the loop can only return the timeout error. */
  lemma {:induction false} EmptyPlanOnlyTimesOut(s: State, events: seq<Event>)
    requires s.Waiting? || s == Finished(Err(UpdateTimeout))
    ensures var t := Run(0, s, events); t.Waiting? || t == Finished(Err(UpdateTimeout))
    decreases |events|
  {
    if events != [] {
      EmptyPlanOnlyTimesOut(Step(0, s, events[0]), events[1..]);
    }
  }

  /** A response that arrives `delay` nanoseconds after its loop iteration began. */
  datatype Arrival = Arrival(resp: HttpResponse, delay: nat)

  /** What the select sees: a response that comes before the timer of its iteration,
      or the timer (a tie is resolved in favour of the timer). */
  function Timeline(arrivals: seq<Arrival>): (events: seq<Event>)
    ensures |events| == |arrivals|
    ensures forall i :: 0 <= i < |arrivals| ==>
      events[i] == if arrivals[i].delay < CollectTimeout then Response(arrivals[i].resp) else Timeout
  {
    seq(|arrivals|, i requires 0 <= i < |arrivals| =>
      if arrivals[i].delay < CollectTimeout then Response(arrivals[i].resp) else Timeout)
  }

  function TotalDelay(arrivals: seq<Arrival>): nat
  {
    if arrivals == [] then 0 else arrivals[0].delay + TotalDelay(arrivals[1..])
  }

  /** The timer bounds the wait for the NEXT response only: responses that each come
      within 20 seconds of the previous one are all collected, however long the whole
      run takes. */
  lemma TimerRestartsEachIteration(arrivals: seq<Arrival>)
    requires |arrivals| > 0
    requires forall i :: 0 <= i < |arrivals| ==> arrivals[i].delay < CollectTimeout
    ensures Run(|arrivals|, Start, Timeline(arrivals)) ==
      Finished(Verdict(seq(|arrivals|, i requires 0 <= i < |arrivals| => arrivals[i].resp)))
  {
    var resps := seq(|arrivals|, i requires 0 <= i < |arrivals| => arrivals[i].resp);
    assert Timeline(arrivals) == Responses(resps) + [];
    CollectAll(resps, []);
  }

  /** Three responses 15 seconds apart: 45 seconds in all, and no timeout. */
  lemma ThreeSlowResponses(a: HttpResponse, b: HttpResponse, c: HttpResponse)
    requires a.err.None? && b.err.None? && c.err.None?
    ensures var arrivals := [Arrival(a, 15 * Second), Arrival(b, 15 * Second), Arrival(c, 15 * Second)];
      TotalDelay(arrivals) > CollectTimeout && Run(3, Start, Timeline(arrivals)) == Finished(Ok(()))
  {
    var arrivals := [Arrival(a, 15 * Second), Arrival(b, 15 * Second), Arrival(c, 15 * Second)];
    TimerRestartsEachIteration(arrivals);
    assert TotalDelay(arrivals) == 45 * Second by {
      assert TotalDelay(arrivals[2..]) == 15 * Second by { assert arrivals[2..][1..] == []; }
      assert arrivals[1..][1..] == arrivals[2..];
    }
    assert !AnyFailed([a, b, c]);
  }
}
