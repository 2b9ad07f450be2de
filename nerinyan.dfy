/**
 * `NerinyanClient`: a page-indexed REST search. `fetch_new_songs(num)` asks for the
 * pages 0, 1, ..., num/50 - 1 of fifty results each and concatenates them; the first
 * failing page fails the whole call.
 */
module Nerinyan {

  import opened Wrappers
  import opened Numbers
  import opened Client

  /** The environment's answer to a GET of a URL. */
  type Network = string -> HttpReply<seq<Beatmapset>>

  const PageSize: nat := 50

  /** The fixed parts of the search URL around the page number. */
  const SearchUrlPrefix: string := "https://api.nerinyan.moe/search?m=0&s=ranked&nsfw=true&sort=ranked_desc&p="
  const SearchUrlSuffix: string := "&ps=50"

  function SearchUrl(page: nat): string
  {
    SearchUrlPrefix + DecimalString(page) + SearchUrlSuffix
  }

  /** Different pages are asked for with different URLs. */
  lemma SearchUrlInjective(p: nat, q: nat)
    ensures SearchUrl(p) == SearchUrl(q) ==> p == q
  {
    if SearchUrl(p) == SearchUrl(q) {
      var u := SearchUrl(p);
      var lo, hi := |SearchUrlPrefix|, |u| - |SearchUrlSuffix|;
      assert u[lo..hi] == DecimalString(p);
      assert SearchUrl(q)[lo..hi] == DecimalString(q);
      DigitsValueOfDecimal(p);
      DigitsValueOfDecimal(q);
    }
  }

  /**
   * `NerinyanClient::search(page)`: one GET of the page's URL, then the status check and
   * JSON decoding. It succeeds exactly on a 2xx reply whose body decodes, with that body.
   */
  function Search(get: Network, page: nat): (r: Result<seq<Beatmapset>, FetchError>)
    ensures var reply := get(SearchUrl(page));
      && (r.Success? <==> reply.Reply? && IsSuccess(reply.status) && reply.body.Success?)
      && (r.Success? ==> r.value == reply.body.value)
      && (reply.Reply? && !IsSuccess(reply.status) ==> r == Failure(Status(reply.status)))
  {
    Interpret(get(SearchUrl(page)))
  }

  predicate PagesSucceed(get: Network, k: nat)
  {
    forall p | 0 <= p < k :: Search(get, p).Success?
  }

  /** The pages 0 .. k-1 concatenated in page order. */
  function Pages(get: Network, k: nat): seq<Beatmapset>
    requires PagesSucceed(get, k)
  {
    if k == 0 then [] else Pages(get, k - 1) + Search(get, k - 1).value
  }

  /** The URLs of the pages 0 .. k-1, in page order. */
  function SearchUrls(k: nat): (urls: seq<string>)
    ensures |urls| == k
  {
    if k == 0 then [] else SearchUrls(k - 1) + [SearchUrl(k - 1)]
  }

  lemma {:induction false} SearchUrlsAt(k: nat, j: nat)
    requires j < k
    ensures SearchUrls(k)[j] == SearchUrl(j)
  {
    if j < k - 1 {
      SearchUrlsAt(k - 1, j);
    }
  }

  /**
   * `fetch_new_songs`. `requests` lists the URLs requested, in order. Exactly the pages
   * 0 .. num/50 - 1 are requested when none fails, whatever their sizes (an empty page does
   * not end the loop); otherwise the requests stop at the first failing page and its error
   * is the call's error.
   */
  method FetchNewSongs(get: Network, num: u32) returns (requests: seq<string>, res: FetchResult)
    ensures |requests| <= num as int / PageSize
    ensures requests == SearchUrls(|requests|)
    ensures res.Success? <==> PagesSucceed(get, num as int / PageSize)
    ensures res.Success? ==> |requests| == num as int / PageSize && res.value == Pages(get, num as int / PageSize)
    ensures res.Failure? ==>
      && |requests| >= 1
      && PagesSucceed(get, |requests| - 1)
      && Search(get, |requests| - 1) == Failure(res.error)
  {
    var n := num / 50;
    var songs: seq<Beatmapset> := [];
    requests := [];
    var i: u32 := 0;
    while i < n
      invariant i <= n
      invariant |requests| == i as int
      invariant requests == SearchUrls(i as nat)
      invariant PagesSucceed(get, i as nat) && songs == Pages(get, i as nat)
    {
      requests := requests + [SearchUrl(i as nat)];
      var r := Search(get, i as nat);
      if r.Failure? {
        return requests, Failure(r.error);
      }
      songs := songs + r.value;
      i := i + 1;
    }
    res := Success(songs);
  }

  lemma {:induction false} PagesLength(get: Network, k: nat)
    requires PagesSucceed(get, k)
    requires forall p | 0 <= p < k :: |Search(get, p).value| == PageSize
    ensures |Pages(get, k)| == PageSize * k
  {
    if k > 0 {
      PagesLength(get, k - 1);
    }
  }

  /** The crate's test: with full pages, `fetch_new_songs(100)` yields exactly 100 beatmapsets. */
  method TestNerinyanSearch(get: Network) returns (res: FetchResult)
    requires forall p | 0 <= p < 2 :: Search(get, p).Success? && |Search(get, p).value| == PageSize
    ensures res.Success? && |res.value| == 100
  {
    var requests;
    requests, res := FetchNewSongs(get, 100);
    PagesLength(get, 2);
  }
}
