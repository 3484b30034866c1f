/** The planning loop of UpdateGslbRegion: which regions are PUT back, and with
    which pools rewritten to the target serve mode. */
module Planner {
  import opened Gslb
  import opened Regex

  /** The label predicate the compiled pattern stands for. */
  type LabelMatch = string -> bool

  /** Some pool of the region carries a matching label. */
  predicate HasMatch(r: Region, matches: LabelMatch)
  {
    exists i :: 0 <= i < |r.pools| && matches(r.pools[i].poolLabel)
  }

  /** A pool as it is sent back: its serve mode replaced when its label matches. */
  function RewritePool(p: Pool, matches: LabelMatch, mode: string): (q: Pool)
    ensures q.address == p.address && q.poolLabel == p.poolLabel && q.weight == p.weight
    ensures matches(p.poolLabel) ==> q.serveMode == mode
    ensures !matches(p.poolLabel) ==> q == p
  {
    if matches(p.poolLabel) then p.(serveMode := mode) else p
  }

  /** A region with every matching pool rewritten; every other field as read. */
  function Rewrite(r: Region, matches: LabelMatch, mode: string): (r': Region)
    ensures r'.serveCount == r.serveCount && r'.failoverMode == r.failoverMode
    ensures r'.failoverData == r.failoverData && r'.regionCode == r.regionCode
    ensures |r'.pools| == |r.pools|
  {
    r.(pools := seq(|r.pools|, i requires 0 <= i < |r.pools| => RewritePool(r.pools[i], matches, mode)))
  }

  /** The plan as a left fold over the regions read: a region with a matching pool
      is stored, rewritten, under its code, replacing what an earlier region with
      the same code stored. */
  function Plan(data: seq<Region>, matches: LabelMatch, mode: string): (plan: map<string, Region>)
    ensures forall code :: code in plan ==> plan[code].regionCode == code && HasMatch(plan[code], matches)
    decreases |data|
  {
    if data == [] then map[]
    else
      var m := Plan(data[..|data| - 1], matches, mode);
      var r := data[|data| - 1];
      if HasMatch(r, matches) then
        RewriteKeepsMatch(r, matches, mode);
        m[r.regionCode := Rewrite(r, matches, mode)]
      else m
  }

  /** Rewriting changes serve modes only, so a region keeps its matching pools. */
  lemma RewriteKeepsMatch(r: Region, matches: LabelMatch, mode: string)
    requires HasMatch(r, matches)
    ensures HasMatch(Rewrite(r, matches, mode), matches)
  {
    var i :| 0 <= i < |r.pools| && matches(r.pools[i].poolLabel);
    assert Rewrite(r, matches, mode).pools[i].poolLabel == r.pools[i].poolLabel;
  }

  /** Index of the last region at or before position n - 1 that carries code and a match. */
  predicate LastMatchAt(data: seq<Region>, matches: LabelMatch, code: string, j: int)
  {
    && 0 <= j < |data|
    && data[j].regionCode == code
    && HasMatch(data[j], matches)
    && forall k :: j < k < |data| && data[k].regionCode == code ==> !HasMatch(data[k], matches)
  }

  /** A code is planned exactly when some region with that code has a matching pool. */
  lemma {:induction false} PlanKeys(data: seq<Region>, matches: LabelMatch, mode: string, code: string)
    ensures code in Plan(data, matches, mode) <==>
      exists i :: 0 <= i < |data| && data[i].regionCode == code && HasMatch(data[i], matches)
    decreases |data|
  {
    if data != [] {
      var n := |data| - 1;
      PlanKeys(data[..n], matches, mode, code);
      assert forall i :: 0 <= i < n ==> data[..n][i] == data[i];
    }
  }

  /** A planned payload is the rewrite of the last region with that code and a match:
      a later region with the same code overwrites an earlier one. */
  lemma {:induction false} PlanLast(data: seq<Region>, matches: LabelMatch, mode: string, code: string)
    requires code in Plan(data, matches, mode)
    ensures exists j :: LastMatchAt(data, matches, code, j) && Plan(data, matches, mode)[code] == Rewrite(data[j], matches, mode)
    decreases |data|
  {
    var n := |data| - 1;
    var front := data[..n];
    var r := data[n];
    if HasMatch(r, matches) && r.regionCode == code {
      assert LastMatchAt(data, matches, code, n);
    } else {
      assert Plan(data, matches, mode)[code] == Plan(front, matches, mode)[code];
      PlanLast(front, matches, mode, code);
      var j :| LastMatchAt(front, matches, code, j) && Plan(front, matches, mode)[code] == Rewrite(front[j], matches, mode);
      assert data[j] == front[j];
      assert forall k :: j < k < n ==> data[k] == front[k];
    }
  }

  /** r' is what may be PUT for region r: the same region, pool for pool, with only
      matching pools' serve modes changed, to the target, and at least one of them. */
  predicate IsPayloadFor(r: Region, r': Region, matches: LabelMatch, mode: string)
  {
    && r'.regionCode == r.regionCode
    && r'.serveCount == r.serveCount && r'.failoverMode == r.failoverMode && r'.failoverData == r.failoverData
    && |r'.pools| == |r.pools|
    && (forall i :: 0 <= i < |r.pools| ==>
          && r'.pools[i].address == r.pools[i].address
          && r'.pools[i].poolLabel == r.pools[i].poolLabel
          && r'.pools[i].weight == r.pools[i].weight
          && r'.pools[i].serveMode == (if matches(r.pools[i].poolLabel) then mode else r.pools[i].serveMode))
    && (exists i :: 0 <= i < |r'.pools| && matches(r'.pools[i].poolLabel) && r'.pools[i].serveMode == mode)
  }

  /** Every planned payload is a payload for a region read under that code: at least
      one pool set to the target mode, every other pool and field as read. */
  lemma PlannedPayloads(data: seq<Region>, matches: LabelMatch, mode: string, code: string)
    requires code in Plan(data, matches, mode)
    ensures exists j :: (0 <= j < |data| && data[j].regionCode == code &&
                         IsPayloadFor(data[j], Plan(data, matches, mode)[code], matches, mode))
  {
    PlanLast(data, matches, mode, code);
    var j :| LastMatchAt(data, matches, code, j) && Plan(data, matches, mode)[code] == Rewrite(data[j], matches, mode);
    var r, r' := data[j], Plan(data, matches, mode)[code];
    var i :| 0 <= i < |r.pools| && matches(r.pools[i].poolLabel);
    assert r'.pools[i] == RewritePool(r.pools[i], matches, mode);
  }

  /** No pool matches anywhere exactly when nothing is planned (and so nothing is PUT). */
  lemma PlanEmptyIffNoMatch(data: seq<Region>, matches: LabelMatch, mode: string)
    ensures Plan(data, matches, mode) == map[] <==>
      forall i, p :: 0 <= i < |data| && 0 <= p < |data[i].pools| ==> !matches(data[i].pools[p].poolLabel)
  {
    if Plan(data, matches, mode) == map[] {
      forall i | 0 <= i < |data|
        ensures !HasMatch(data[i], matches)
      {
        PlanKeys(data, matches, mode, data[i].regionCode);
      }
    } else {
      var code :| code in Plan(data, matches, mode);
      PlanKeys(data, matches, mode, code);
    }
  }

  /** Rewriting is idempotent. */
  lemma RewriteIdempotent(r: Region, matches: LabelMatch, mode: string)
    ensures Rewrite(Rewrite(r, matches, mode), matches, mode) == Rewrite(r, matches, mode)
  {
  }

  /** The regions as the API holds them once every planned PUT has been applied. */
  function Applied(data: seq<Region>, matches: LabelMatch, mode: string): (data': seq<Region>)
    ensures |data'| == |data|
    ensures forall i :: 0 <= i < |data| ==> data'[i] == Rewrite(data[i], matches, mode)
  {
    seq(|data|, i requires 0 <= i < |data| => Rewrite(data[i], matches, mode))
  }

  /** Running again against the updated regions plans the very same PUTs: the planner
      does not skip pools already in the target mode. */
  lemma {:induction false} ReplanIsSame(data: seq<Region>, matches: LabelMatch, mode: string)
    ensures Plan(Applied(data, matches, mode), matches, mode) == Plan(data, matches, mode)
    decreases |data|
  {
    if data != [] {
      var n := |data| - 1;
      var data' := Applied(data, matches, mode);
      assert data'[..n] == Applied(data[..n], matches, mode);
      ReplanIsSame(data[..n], matches, mode);
      var r := data[n];
      RewriteIdempotent(r, matches, mode);
      assert HasMatch(data'[n], matches) <==> HasMatch(r, matches) by {
        if HasMatch(r, matches) {
          var i :| 0 <= i < |r.pools| && matches(r.pools[i].poolLabel);
          assert data'[n].pools[i].poolLabel == r.pools[i].poolLabel;
        }
        if HasMatch(data'[n], matches) {
          var i :| 0 <= i < |data'[n].pools| && matches(data'[n].pools[i].poolLabel);
          assert data'[n].pools[i].poolLabel == r.pools[i].poolLabel;
        }
      }
    }
  }

  /** Pools [0, k) rewritten, pools [k, ..) as read. */
  function RewrittenUpTo(pools: seq<Pool>, k: nat, matches: LabelMatch, mode: string): (ps: seq<Pool>)
    requires k <= |pools|
    ensures |ps| == |pools|
  {
    seq(|pools|, i requires 0 <= i < |pools| => if i < k then RewritePool(pools[i], matches, mode) else pools[i])
  }

  /** The loop of UpdateGslbRegion as written: for each region, for each pool, a
      matching pool is rewritten in the region's pool slice and the region is
      (re)stored under its code. */
  method PlanUpdates(data: seq<Region>, matches: LabelMatch, mode: string) returns (putRequests: map<string, Region>)
    ensures putRequests == Plan(data, matches, mode)
  {
    putRequests := map[];
    for n := 0 to |data|
      invariant putRequests == Plan(data[..n], matches, mode)
    {
      var gslb := data[n];
      var pools := gslb.pools;
      ghost var before := putRequests;
      for index := 0 to |pools|
        invariant pools == RewrittenUpTo(gslb.pools, index, matches, mode)
        invariant putRequests ==
          if exists i :: 0 <= i < index && matches(gslb.pools[i].poolLabel)
          then before[gslb.regionCode := gslb.(pools := pools)]
          else before
      {
        var pool := pools[index];
        if matches(pool.poolLabel) {
          pool := pool.(serveMode := mode);
          pools := pools[index := pool];
          putRequests := putRequests[gslb.regionCode := gslb.(pools := pools)];
        }
      }
      assert pools == Rewrite(gslb, matches, mode).pools;
      assert data[..n + 1][..n] == data[..n];
    }
    assert data[..|data|] == data;
  }

  /** With the default pattern, pools labelled eu-1 and eu-22 are set to the target
      mode and the pool labelled us-1 keeps its mode. */
  lemma DefaultPatternExample(engine: Engine, mode: string)
    requires MatchesDefaultAsRe2(engine)
    ensures var region := Region(1, "", "", "eu", [Pool("a", "eu-1", 1, "no"), Pool("b", "eu-22", 1, "no"), Pool("c", "us-1", 1, "no")]);
      var plan := Plan([region], Matcher(engine, Regexp(DefaultExpr)), mode);
      && plan.Keys == {"eu"}
      && plan["eu"].pools == [Pool("a", "eu-1", 1, mode), Pool("b", "eu-22", 1, mode), Pool("c", "us-1", 1, "no")]
  {
    EuLabelExamples();
    ExamplePlan(Matcher(engine, Regexp(DefaultExpr)), mode);
  }

  /** The same region under any label predicate that accepts eu-1 and eu-22 and rejects us-1. */
  lemma ExamplePlan(matches: LabelMatch, mode: string)
    requires matches("eu-1") && matches("eu-22") && !matches("us-1")
    ensures var region := Region(1, "", "", "eu", [Pool("a", "eu-1", 1, "no"), Pool("b", "eu-22", 1, "no"), Pool("c", "us-1", 1, "no")]);
      var plan := Plan([region], matches, mode);
      && plan.Keys == {"eu"}
      && plan["eu"].pools == [Pool("a", "eu-1", 1, mode), Pool("b", "eu-22", 1, mode), Pool("c", "us-1", 1, "no")]
  {
    var region := Region(1, "", "", "eu", [Pool("a", "eu-1", 1, "no"), Pool("b", "eu-22", 1, "no"), Pool("c", "us-1", 1, "no")]);
    assert matches(region.pools[0].poolLabel);
    assert [region][..0] == [];
    assert Plan([region], matches, mode) == map["eu" := Rewrite(region, matches, mode)];
  }
}
