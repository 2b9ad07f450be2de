/**
 * The search-client contract shared by the three backends: a `Beatmapset` is a
 * u32 id with a title, and `fetch_new_songs(num)` answers either an error or a
 * list of beatmapsets. The HTTP exchange of one request is modelled as a reply
 * value supplied by the environment.
 */
module Client {

  import opened Wrappers
  import opened Numbers

  datatype Beatmapset = Beatmapset(id: u32, title: string)

  /** The causes with which a fetch fails; each corresponds to one eyre error of the source. */
  datatype FetchError =
    | Transport(cause: string)      // reqwest could not send the request or read the reply
    | Status(code: nat)             // "Request failed with status: {}"
    | Decode(cause: string)         // "can't map to beatmapset search result struct: {}"
    | NoNextPage                    // "failed to get next page"
    | Upstream(cause: string)       // an error reported by the rosu client library

  type FetchResult = Result<seq<Beatmapset>, FetchError>

  /** What one GET returns: a transport failure, or a status and the JSON decoding of the body. */
  datatype HttpReply<B> = TransportError(cause: string) | Reply(status: nat, body: Result<B, string>)

  /** `StatusCode::is_success`. */
  predicate IsSuccess(status: nat) { 200 <= status <= 299 }

  /** The common tail of both REST clients' `search`: status check, then JSON decoding. */
  function Interpret<B>(reply: HttpReply<B>): (r: Result<B, FetchError>)
    ensures r.Success? <==> reply.Reply? && IsSuccess(reply.status) && reply.body.Success?
    ensures r.Success? ==> r.value == reply.body.value
    ensures reply.Reply? && !IsSuccess(reply.status) ==> r == Failure(Status(reply.status))
  {
    match reply
    case TransportError(cause) => Failure(Transport(cause))
    case Reply(status, body) =>
      if !IsSuccess(status) then Failure(Status(status))
      else match body
        case Success(v) => Success(v)
        case Failure(cause) => Failure(Decode(cause))
  }

  /** The ids of a result list, duplicates collapsed. */
  function Ids(songs: seq<Beatmapset>): set<u32>
  {
    set k | 0 <= k < |songs| :: songs[k].id
  }
}
