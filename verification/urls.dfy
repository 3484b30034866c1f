/** Paths of the three Dyn API requests. url.PathEscape is a parameter. */
module Urls {

  type Escaper = string -> string

  /** The DNS zone is fixed in every request. */
  const Zone: string := "ft.com"

  /** An escaper that never leaves a '/' in a path segment, as url.PathEscape does. */
  ghost predicate SegmentSafe(esc: Escaper)
  {
    forall s :: '/' !in esc(s)
  }

  /** Segments joined with '/'. */
  function Join(parts: seq<string>): string
    requires |parts| >= 1
    decreases |parts|
  {
    if |parts| == 1 then parts[0] else parts[0] + "/" + Join(parts[1..])
  }

  /** A join of two or more segments starts with the first and a slash, and ends with a slash and the last. */
  lemma {:induction false} JoinEnds(parts: seq<string>)
    requires |parts| >= 2
    ensures var j, last := Join(parts), parts[|parts| - 1];
      && |j| >= |parts[0]| + |last| + |parts| - 1
      && j[..|parts[0]| + 1] == parts[0] + "/"
      && j[|j| - |last| - 1..] == "/" + last
    decreases |parts|
  {
    var rest := Join(parts[1..]);
    assert Join(parts) == parts[0] + "/" + rest;
    if |parts| > 2 {
      JoinEnds(parts[1..]);
    }
  }

  /** GET of every region of the service, with pool detail. */
  function AllRegionsUrl(esc: Escaper, fqdn: string): (u: string)
    ensures |u| >= 22 && u[..11] == "GSLBRegion/" && u[|u| - 10..] == "/?detail=Y"
  {
    JoinEnds(["GSLBRegion", esc(Zone), esc(fqdn), "?detail=Y"]);
    Join(["GSLBRegion", esc(Zone), esc(fqdn), "?detail=Y"])
  }

  /** PUT of one region. */
  function RegionUrl(esc: Escaper, fqdn: string, regionCode: string): (u: string)
    ensures |u| >= 14 && u[..11] == "GSLBRegion/" && u[|u| - 1] == '/'
  {
    JoinEnds(["GSLBRegion", esc(Zone), esc(fqdn), esc(regionCode), ""]);
    Join(["GSLBRegion", esc(Zone), esc(fqdn), esc(regionCode), ""])
  }

  /** GET of the service itself (its TTL). */
  function ServiceUrl(esc: Escaper, fqdn: string): (u: string)
    ensures |u| >= 7 && u[..5] == "GSLB/" && u[|u| - 1] == '/'
  {
    JoinEnds(["GSLB", esc(Zone), esc(fqdn), ""]);
    Join(["GSLB", esc(Zone), esc(fqdn), ""])
  }

  /** Position of the first '/' in a path (its length when there is none). */
  function FirstSlash(s: string): (k: nat)
    ensures k <= |s|
    ensures k < |s| ==> s[k] == '/'
    ensures '/' !in s[..k]
  {
    if s == [] then 0
    else if s[0] == '/' then 0
    else 1 + FirstSlash(s[1..])
  }

  /** The first '/' after a slash-free head is the one that follows it. */
  lemma {:induction false} FirstSlashAfterHead(a: string, b: string)
    requires '/' !in a
    ensures FirstSlash(a + "/" + b) == |a|
  {
    if a != [] {
      assert (a + "/" + b)[1..] == a[1..] + "/" + b;
      FirstSlashAfterHead(a[1..], b);
    }
  }

  /** A path cut at every '/'. */
  function Segments(s: string): (parts: seq<string>)
    ensures |parts| >= 1
    decreases |s|
  {
    var k := FirstSlash(s);
    if k == |s| then [s] else [s[..k]] + Segments(s[k + 1..])
  }

  lemma SegmentsCons(a: string, b: string)
    requires '/' !in a
    ensures Segments(a + "/" + b) == [a] + Segments(b)
  {
    FirstSlashAfterHead(a, b);
    var s := a + "/" + b;
    assert s[..|a|] == a && s[|a| + 1..] == b;
  }

  /** Cutting a joined path at its slashes gives back the segments, when none of
      them holds a '/'. */
  lemma {:induction false} SegmentsOfJoin(parts: seq<string>)
    requires |parts| >= 1
    requires forall i :: 0 <= i < |parts| ==> '/' !in parts[i]
    ensures Segments(Join(parts)) == parts
    decreases |parts|
  {
    if |parts| == 1 {
      assert FirstSlash(parts[0]) == |parts[0]|;
    } else {
      SegmentsOfJoin(parts[1..]);
      SegmentsCons(parts[0], Join(parts[1..]));
    }
  }

  /** Each path is made of the expected segments, with the escaped zone, service and
      region code each in a segment of its own. */
  lemma UrlSegments(esc: Escaper, fqdn: string, code: string)
    requires SegmentSafe(esc)
    ensures Segments(AllRegionsUrl(esc, fqdn)) == ["GSLBRegion", esc(Zone), esc(fqdn), "?detail=Y"]
    ensures Segments(RegionUrl(esc, fqdn, code)) == ["GSLBRegion", esc(Zone), esc(fqdn), esc(code), ""]
    ensures Segments(ServiceUrl(esc, fqdn)) == ["GSLB", esc(Zone), esc(fqdn), ""]
  {
    SegmentsOfJoin(["GSLBRegion", esc(Zone), esc(fqdn), "?detail=Y"]);
    SegmentsOfJoin(["GSLBRegion", esc(Zone), esc(fqdn), esc(code), ""]);
    SegmentsOfJoin(["GSLB", esc(Zone), esc(fqdn), ""]);
  }

  /** Distinct regions (or services) are never PUT to the same path. */
  lemma RegionUrlInjective(esc: Escaper, f1: string, c1: string, f2: string, c2: string)
    requires SegmentSafe(esc)
    requires RegionUrl(esc, f1, c1) == RegionUrl(esc, f2, c2)
    ensures esc(f1) == esc(f2) && esc(c1) == esc(c2)
  {
    UrlSegments(esc, f1, c1);
    UrlSegments(esc, f2, c2);
  }

  /** The TTL path is never one of the region paths. */
  lemma UrlsDistinct(esc: Escaper, fqdn: string, f: string, code: string)
    ensures ServiceUrl(esc, fqdn) != RegionUrl(esc, f, code)
    ensures ServiceUrl(esc, fqdn) != AllRegionsUrl(esc, f)
  {
    assert ServiceUrl(esc, fqdn)[4] == '/';
    assert RegionUrl(esc, f, code)[4] == 'R';
    assert AllRegionsUrl(esc, f)[4] == 'R';
  }
}
