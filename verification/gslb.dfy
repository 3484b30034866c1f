/** The GSLB data read from and written to the Dyn API, the configuration of one
    update run, and the rule that decides whether an API call succeeded. */
module Gslb {
  import opened Errors
  import opened Durations
  import opened Regex

  /** One pool entry of a region (an address steered by the region). */
  datatype Pool = Pool(address: string, poolLabel: string, weight: int, serveMode: string)

  /** One GSLB region: the payload of GET (as a list) and of PUT (one region). */
  datatype Region = Region(
    serveCount: int,
    failoverMode: string,
    failoverData: string,
    regionCode: string,
    pools: seq<Pool>)

  /** What one update run is asked to do. */
  datatype Config = Config(labelPattern: Regexp, serveMode: string, fqdn: string)

  /** What the HTTP client hands back for one call: its own error, if any, and the
      decoded envelope's status and data. */
  datatype Reply<+T> = Reply(err: Option<string>, status: string, data: T)

  /** The Dyn API as seen by the tool: one function per request shape. A reply is
      determined by the request. */
  datatype Api = Api(
    getRegions: string -> Reply<seq<Region>>,
    getService: string -> Reply<Int64>,
    put: (string, Region) -> Reply<()>)

  const SuccessStatus: string := "success"

  /** The check applied after every API call: a transport error wins, otherwise any
      status other than exactly "success" is an error. */
  function CheckReply<T>(reply: Reply<T>): (r: Result<T>)
    ensures r.Ok? <==> reply.err.None? && reply.status == SuccessStatus
    ensures r.Ok? ==> r.value == reply.data
    ensures reply.err.Some? ==> r.Err? && r.error == Transport(reply.err.value)
    ensures reply.err.None? && reply.status != SuccessStatus ==> r.Err? && r.error == StatusNotSuccess
  {
    match reply.err
    case Some(e) => Err(Transport(e))
    case None => if reply.status == SuccessStatus then Ok(reply.data) else Err(StatusNotSuccess)
  }

  /** A request sent to the Dyn API. */
  datatype Request = Get(url: string) | Put(url: string, payload: Region)

  /** What a PUT worker sends to the collector. */
  datatype HttpResponse = HttpResponse(url: string, err: Option<Error>)

  /** doGslbUpdate: one PUT, checked, reported under the URL it was sent to. */
  function DoGslbUpdate(url: string, reply: Reply<()>): (r: HttpResponse)
    ensures r.url == url
    ensures r.err.None? <==> CheckReply(reply).Ok?
    ensures r.err.Some? ==> r.err == Some(CheckReply(reply).error)
  {
    match CheckReply(reply)
    case Ok(_) => HttpResponse(url, None)
    case Err(e) => HttpResponse(url, Some(e))
  }
}
