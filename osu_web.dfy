/**
 * `OsuClient`: the osu! web search, paginated by an opaque cursor. Each response may
 * carry a `cursor_string`; the next request must pass it, and its absence ends the loop.
 */
module OsuWeb {

  import opened Wrappers
  import opened Numbers
  import opened Client

  /** The JSON body as decoded by serde, before `empty_string_as_none` is applied. */
  datatype RawSearchResult = RawSearchResult(beatmapsets: seq<Beatmapset>, cursorString: Option<string>)

  /** `BeatmapsetSearchResult` after decoding. */
  datatype SearchResult = SearchResult(beatmapsets: seq<Beatmapset>, cursorString: Option<string>)

  type Network = string -> HttpReply<RawSearchResult>

  /** `empty_string_as_none`: an empty cursor string is no cursor. */
  function NormalizeCursor(raw: Option<string>): (c: Option<string>)
    ensures c.Some? ==> c.value != [] && raw == c
    ensures raw.Some? && raw.value != [] ==> c == raw
  {
    match raw
    case Some(s) => if s == [] then None else Some(s)
    case None => None
  }

  const UrlPrefix: string := "https://osu.ppy.sh/beatmapsets/search?m=0&s=ranked&nsfw=true&cursor_string="
  const UrlSuffix: string := "&sort=ranked_desc"

  /** The request URL; no cursor is rendered as an empty `cursor_string`. */
  function SearchUrl(cursor: Option<string>): (url: string)
    ensures cursor.None? ==> url == UrlPrefix + UrlSuffix
    ensures cursor.Some? ==> url == UrlPrefix + cursor.value + UrlSuffix
  {
    UrlPrefix + (match cursor case Some(c) => c case None => "") + UrlSuffix
  }

  /**
   * `OsuClient::search(cursor)`: it succeeds exactly on a 2xx reply whose body decodes,
   * keeps the body's beatmapsets and normalizes its cursor.
   */
  function Search(get: Network, cursor: Option<string>): (r: Result<SearchResult, FetchError>)
    ensures var reply := get(SearchUrl(cursor));
      && (r.Success? <==> reply.Reply? && IsSuccess(reply.status) && reply.body.Success?)
      && (r.Success? ==> r.value.beatmapsets == reply.body.value.beatmapsets)
      && (r.Success? ==> r.value.cursorString == NormalizeCursor(reply.body.value.cursorString))
      && (reply.Reply? && !IsSuccess(reply.status) ==> r == Failure(Status(reply.status)))
  {
    match Interpret(get(SearchUrl(cursor)))
    case Success(raw) => Success(SearchResult(raw.beatmapsets, NormalizeCursor(raw.cursorString)))
    case Failure(e) => Failure(e)
  }

  predicate AllSucceed(get: Network, cursors: seq<Option<string>>)
  {
    forall k | 0 <= k < |cursors| :: Search(get, cursors[k]).Success?
  }

  /** Request k + 1 passes the cursor that the response to request k carried. */
  predicate Linked(get: Network, cursors: seq<Option<string>>, k: nat)
    requires k + 1 < |cursors|
  {
    Search(get, cursors[k]).Success? && cursors[k + 1].Some?
    && Search(get, cursors[k]).value.cursorString == cursors[k + 1]
  }

  /** The cursors form a chain: the first is none, each later one is the previous response's. */
  predicate Chained(get: Network, cursors: seq<Option<string>>)
  {
    && (|cursors| > 0 ==> cursors[0] == None)
    && forall k: nat | k + 1 < |cursors| :: Linked(get, cursors, k)
  }

  /** The beatmapsets of the responses to `cursors`, in request order. */
  function Received(get: Network, cursors: seq<Option<string>>): seq<Beatmapset>
    requires AllSucceed(get, cursors)
  {
    if cursors == [] then []
    else Received(get, cursors[..|cursors| - 1]) + Search(get, cursors[|cursors| - 1]).value.beatmapsets
  }

  /** The cursor the next search passes: none at first, then the last response's. */
  function NextCursor(get: Network, cursors: seq<Option<string>>): Option<string>
    requires AllSucceed(get, cursors)
  {
    if cursors == [] then None else Search(get, cursors[|cursors| - 1]).value.cursorString
  }

  lemma ExtendChain(get: Network, cursors: seq<Option<string>>)
    requires Chained(get, cursors) && AllSucceed(get, cursors)
    requires cursors != [] ==> NextCursor(get, cursors).Some?
    ensures Chained(get, cursors + [NextCursor(get, cursors)])
  {
    var next := cursors + [NextCursor(get, cursors)];
    forall k: nat | k + 1 < |next| ensures Linked(get, next, k) {
      if k + 1 < |cursors| {
        assert Linked(get, cursors, k);
      }
    }
  }

  lemma ExtendReceived(get: Network, cursors: seq<Option<string>>, c: Option<string>)
    requires AllSucceed(get, cursors + [c])
    ensures AllSucceed(get, cursors) && Search(get, c).Success?
    ensures Received(get, cursors + [c]) == Received(get, cursors) + Search(get, c).value.beatmapsets
  {
    assert (cursors + [c])[..|cursors|] == cursors;
    assert (cursors + [c])[|cursors|] == c;
  }

  /**
   * `fetch_new_songs`. `requests` lists the cursor passed to each search, in order. At most
   * num/50 searches are made, chained through the cursors; the loop stops early only after a
   * response without a cursor, and a failed search fails the whole call.
   */
  method FetchNewSongs(get: Network, num: u32) returns (requests: seq<Option<string>>, res: FetchResult)
    ensures |requests| <= num as int / 50
    ensures Chained(get, requests)
    ensures res.Success? ==>
      && AllSucceed(get, requests)
      && res.value == Received(get, requests)
      && (|requests| < num as int / 50 ==>
            |requests| > 0 && Search(get, requests[|requests| - 1]).value.cursorString.None?)
    ensures res.Failure? ==>
      && |requests| > 0
      && AllSucceed(get, requests[..|requests| - 1])
      && Search(get, requests[|requests| - 1]) == Failure(res.error)
  {
    var songs: seq<Beatmapset> := [];
    requests := [];
    var n := num / 50;
    var i: u32 := 0;
    while i < n
      invariant i <= n && |requests| == i as int
      invariant Chained(get, requests) && AllSucceed(get, requests)
      invariant songs == Received(get, requests)
      invariant requests != [] ==> NextCursor(get, requests).Some?
    {
      var cursor := NextCursor(get, requests);
      var r := Search(get, cursor);
      ExtendChain(get, requests);
      if r.Failure? {
        ghost var before := requests;
        requests := requests + [cursor];
        assert requests[..|requests| - 1] == before;
        return requests, Failure(r.error);
      }
      ExtendReceived(get, requests, cursor);
      requests := requests + [cursor];
      songs := songs + r.value.beatmapsets;
      if r.value.cursorString.None? {
        break;
      }
      i := i + 1;
    }
    res := Success(songs);
  }

  lemma {:induction false} ReceivedLength(get: Network, cursors: seq<Option<string>>)
    requires AllSucceed(get, cursors)
    requires forall k | 0 <= k < |cursors| :: |Search(get, cursors[k]).value.beatmapsets| == 50
    ensures |Received(get, cursors)| == 50 * |cursors|
  {
    if cursors != [] {
      ReceivedLength(get, cursors[..|cursors| - 1]);
    }
  }

  /**
   * The crate's test: when every search answers fifty beatmapsets and a further cursor,
   * `fetch_new_songs(100)` makes two requests and yields exactly 100 beatmapsets.
   */
  method TestOsuSearch(get: Network) returns (res: FetchResult)
    requires forall c :: Search(get, c).Success?
    requires forall c :: |Search(get, c).value.beatmapsets| == 50 && Search(get, c).value.cursorString.Some?
    ensures res.Success? && |res.value| == 100
  {
    var requests;
    requests, res := FetchNewSongs(get, 100);
    ReceivedLength(get, requests);
  }
}
