/**
 * `fetch_new_songs` for the rosu client library: one initial search, then up to num/50
 * rounds that each take the current page's mapsets, stop when the page has no more
 * results, and otherwise ask the library for the next page.
 */
module OsuApi {

  import opened Wrappers
  import opened Numbers
  import opened Client

  /** The part of a rosu mapset the client reads. */
  datatype Mapset = Mapset(mapsetId: u32, title: string)

  /** One page of a rosu search: its mapsets and its `has_more()` answer. */
  datatype SearchPage = SearchPage(mapsets: seq<Mapset>, hasMore: bool)

  /**
   * `page.get_next(osu)`: `None` when the library has no further page to ask for, otherwise
   * the outcome of the request it issues.
   */
  type NextPage = SearchPage -> Option<Result<SearchPage, FetchError>>

  /** How one call went: the number of search requests issued and the call's outcome. */
  datatype Run = Run(searches: nat, result: FetchResult)

  /** The mapset-to-beatmapset mapping: `mapset_id` becomes `id`, the title is copied. */
  function ToBeatmapsets(mapsets: seq<Mapset>): (r: seq<Beatmapset>)
    ensures |r| == |mapsets|
    ensures forall k | 0 <= k < |r| :: r[k].id == mapsets[k].mapsetId && r[k].title == mapsets[k].title
  {
    if mapsets == [] then []
    else [Beatmapset(mapsets[0].mapsetId, mapsets[0].title)] + ToBeatmapsets(mapsets[1..])
  }

  /** A run that first collected `songs` with `searches` requests, then went on as `rest`. */
  function Prepend(songs: seq<Beatmapset>, searches: nat, rest: Run): Run
  {
    Run(searches + rest.searches,
        match rest.result
        case Success(v) => Success(songs + v)
        case Failure(e) => Failure(e))
  }

  /**
   * The loop of `fetch_new_songs` from the current page with `rounds` rounds left: each
   * round issues at most one further search, and a round that is run puts the current
   * page's mapsets first.
   */
  function Rounds(page: SearchPage, getNext: NextPage, rounds: nat): (r: Run)
    ensures r.searches <= rounds
    ensures rounds > 0 && r.result.Success? ==> ToBeatmapsets(page.mapsets) <= r.result.value
    decreases rounds
  {
    if rounds == 0 then Run(0, Success([]))
    else
      var items := ToBeatmapsets(page.mapsets);
      if !page.hasMore then Run(0, Success(items))
      else match getNext(page)
        case None => Run(0, Failure(NoNextPage))
        case Some(Failure(e)) => Run(1, Failure(e))
        case Some(Success(next)) => Prepend(items, 1, Rounds(next, getNext, rounds - 1))
  }

  /**
   * The whole call: the initial search, then num/50 rounds. The initial search is always
   * issued and a failed one ends the call; at most num/50 more follow.
   */
  function Fetch(initial: Result<SearchPage, FetchError>, getNext: NextPage, num: u32): (r: Run)
    ensures 1 <= r.searches <= num as int / 50 + 1
    ensures initial.Failure? ==> r == Run(1, Failure(initial.error))
    ensures initial.Success? && num as int / 50 > 0 && r.result.Success? ==>
      ToBeatmapsets(initial.value.mapsets) <= r.result.value
  {
    match initial
    case Failure(e) => Run(1, Failure(e))
    case Success(page) => Prepend([], 1, Rounds(page, getNext, num as nat / 50))
  }

  /**
   * `fetch_new_songs`: `initial` is the outcome of the initial search, `getNext` the
   * library's pagination. The initial search is always issued, even when num/50 is 0.
   */
  method FetchNewSongs(initial: Result<SearchPage, FetchError>, getNext: NextPage, num: u32)
    returns (searches: nat, res: FetchResult)
    ensures Run(searches, res) == Fetch(initial, getNext, num)
    ensures searches >= 1
    ensures num as int / 50 == 0 ==> searches == 1 && res == (if initial.Success? then Success([]) else Failure(initial.error))
  {
    var n := num / 50;
    searches := 1;
    if initial.Failure? {
      return searches, Failure(initial.error);
    }
    var page := initial.value;
    var songs: seq<Beatmapset> := [];
    var i: u32 := 0;
    ghost var left: nat := n as nat;
    while i < n
      invariant i <= n && left == n as nat - i as nat
      invariant Fetch(initial, getNext, num) == Prepend(songs, searches, Rounds(page, getNext, left))
    {
      var items := ToBeatmapsets(page.mapsets);
      ghost var before := songs;
      songs := songs + items;
      if !page.hasMore {
        assert Rounds(page, getNext, left) == Run(0, Success(items));
        break;
      }
      var answer := getNext(page);
      if answer.None? {
        assert Rounds(page, getNext, left) == Run(0, Failure(NoNextPage));
        return searches, Failure(NoNextPage);
      }
      if answer.value.Failure? {
        assert Rounds(page, getNext, left) == Run(1, Failure(answer.value.error));
        return searches + 1, Failure(answer.value.error);
      }
      var next := answer.value.value;
      assert Rounds(page, getNext, left) == Prepend(items, 1, Rounds(next, getNext, left - 1));
      PrependAssoc(before, items, searches, Rounds(next, getNext, left - 1));
      page := next;
      searches := searches + 1;
      i := i + 1;
      left := left - 1;
    }
    res := Success(songs);
    assert songs + [] == songs;
  }

  lemma PrependAssoc(songs: seq<Beatmapset>, items: seq<Beatmapset>, searches: nat, rest: Run)
    ensures Prepend(songs, searches, Prepend(items, 1, rest)) == Prepend(songs + items, searches + 1, rest)
  {
    if rest.result.Success? {
      assert songs + (items + rest.result.value) == (songs + items) + rest.result.value;
    }
  }

  /**
   * The pages whose mapsets `rounds` rounds take, starting from `page`: each round takes
   * the current page, and the next round starts on the page `getNext` brings, if the
   * current page has more, the request succeeds and a round is left.
   */
  function RoundPages(page: SearchPage, getNext: NextPage, rounds: nat): (pages: seq<SearchPage>)
    ensures 1 <= |pages| && pages[0] == page
    ensures rounds > 0 ==> |pages| <= rounds
    decreases rounds
  {
    if rounds <= 1 || !page.hasMore then [page]
    else match getNext(page)
      case Some(Success(next)) => [page] + RoundPages(next, getNext, rounds - 1)
      case _ => [page]
  }

  /**
   * The loop of `fetch_new_songs` for any pagination: the pages taken are linked by
   * `get_next` and all but the last have more; one search is made per page after the
   * first, plus one if `get_next` issues a request for the last page. A last page without more ends the
   * loop with every page's mapsets in order. After a last page with more, `get_next`
   * answering nothing is "failed to get next page", a failed request is the call's error,
   * and a successful one happens only in the last round, whose page is then dropped.
   */
  lemma {:induction false} RoundsPages(page: SearchPage, getNext: NextPage, rounds: nat)
    ensures rounds == 0 ==> Rounds(page, getNext, rounds) == Run(0, Success([]))
    ensures rounds > 0 ==> PagesDescribeRounds(page, getNext, rounds)
    decreases rounds
  {
    if rounds > 0 {
      if page.hasMore && rounds > 1 && getNext(page).Some? && getNext(page).value.Success? {
        RoundsPages(getNext(page).value.value, getNext, rounds - 1);
        RoundsPagesStep(page, getNext, rounds);
      } else {
        RoundsPagesOne(page, getNext, rounds);
      }
    }
  }

  /** The facts `RoundsPages` states about the rounds from `page` and the pages they take. */
  predicate PagesDescribeRounds(page: SearchPage, getNext: NextPage, rounds: nat)
    requires rounds > 0
  {
    var r := Rounds(page, getNext, rounds);
    var pages := RoundPages(page, getNext, rounds);
    var last := pages[|pages| - 1];
    && (forall i | 0 <= i < |pages| - 1 :: pages[i].hasMore && getNext(pages[i]) == Some(Success(pages[i + 1])))
    && r.searches == |pages| - 1 + (if last.hasMore && getNext(last).Some? then 1 else 0)
    && (!last.hasMore ==> r.result == Success(Collect(pages)))
    && (last.hasMore && getNext(last).None? ==> r.result == Failure(NoNextPage))
    && (last.hasMore && getNext(last).Some? && getNext(last).value.Failure? ==>
          r.result == Failure(getNext(last).value.error))
    && (last.hasMore && getNext(last).Some? && getNext(last).value.Success? ==>
          |pages| == rounds && r.result == Success(Collect(pages)))
  }

  /** A single page is taken when it has no more, when it is the last round, or when `get_next` fails. */
  lemma RoundsPagesOne(page: SearchPage, getNext: NextPage, rounds: nat)
    requires rounds > 0
    requires !(page.hasMore && rounds > 1 && getNext(page).Some? && getNext(page).value.Success?)
    ensures PagesDescribeRounds(page, getNext, rounds)
  {
    var items := ToBeatmapsets(page.mapsets);
    assert RoundPages(page, getNext, rounds) == [page];
    assert [page][1..] == [];
    assert Collect([page]) == items + [];
    assert items + [] == items;
    if !page.hasMore {
      assert Rounds(page, getNext, rounds) == Run(0, Success(items));
    } else if getNext(page).None? {
      assert Rounds(page, getNext, rounds) == Run(0, Failure(NoNextPage));
    } else if getNext(page).value.Failure? {
      assert Rounds(page, getNext, rounds) == Run(1, Failure(getNext(page).value.error));
    } else {
      var next := getNext(page).value.value;
      assert rounds == 1;
      assert Rounds(next, getNext, 0) == Run(0, Success([]));
      assert Rounds(page, getNext, rounds) == Prepend(items, 1, Rounds(next, getNext, 0));
      assert Rounds(page, getNext, rounds) == Run(1, Success(items));
    }
  }

  /** A round that reaches a next page puts the current page in front of the later ones. */
  lemma RoundsPagesStep(page: SearchPage, getNext: NextPage, rounds: nat)
    requires rounds > 1 && page.hasMore && getNext(page).Some? && getNext(page).value.Success?
    requires PagesDescribeRounds(getNext(page).value.value, getNext, rounds - 1)
    ensures PagesDescribeRounds(page, getNext, rounds)
  {
    var next := getNext(page).value.value;
    var tail := RoundPages(next, getNext, rounds - 1);
    var pages := RoundPages(page, getNext, rounds);
    assert pages == [page] + tail;
    assert pages[1..] == tail;
    assert pages[|pages| - 1] == tail[|tail| - 1];
    assert Collect(pages) == ToBeatmapsets(page.mapsets) + Collect(tail);
    assert Rounds(page, getNext, rounds) == Prepend(ToBeatmapsets(page.mapsets), 1, Rounds(next, getNext, rounds - 1));
    forall i | 0 <= i < |pages| - 1
      ensures pages[i].hasMore && getNext(pages[i]) == Some(Success(pages[i + 1]))
    {
      if i > 0 {
        assert pages[i] == tail[i - 1] && pages[i + 1] == tail[i];
      }
    }
  }

  /**
   * The whole call for any pagination: after a successful initial search and at least one
   * round, the result is that of the rounds from the initial page, with one search more.
   */
  lemma FetchPages(initial: Result<SearchPage, FetchError>, getNext: NextPage, num: u32)
    ensures initial.Success? ==>
      && Fetch(initial, getNext, num).result == Rounds(initial.value, getNext, num as nat / 50).result
      && Fetch(initial, getNext, num).searches == 1 + Rounds(initial.value, getNext, num as nat / 50).searches
  {
    if initial.Success? {
      var rest := Rounds(initial.value, getNext, num as nat / 50);
      if rest.result.Success? {
        assert [] + rest.result.value == rest.result.value;
      }
    }
  }

  /** Every page that has more leads to a next page that arrives and has more again. */
  ghost predicate AlwaysMore(getNext: NextPage)
  {
    forall p: SearchPage | p.hasMore ::
      getNext(p).Some? && getNext(p).value.Success? && getNext(p).value.value.hasMore
  }

  /** The pages `rounds` rounds visit under `AlwaysMore`, starting from `page`. */
  ghost function Visited(page: SearchPage, getNext: NextPage, rounds: nat): (pages: seq<SearchPage>)
    requires AlwaysMore(getNext) && page.hasMore
    ensures |pages| == rounds && forall k | 0 <= k < rounds :: pages[k].hasMore
    decreases rounds
  {
    if rounds == 0 then [] else [page] + Visited(getNext(page).value.value, getNext, rounds - 1)
  }

  function Collect(pages: seq<SearchPage>): seq<Beatmapset>
  {
    if pages == [] then [] else ToBeatmapsets(pages[0].mapsets) + Collect(pages[1..])
  }

  /**
   * When every page has more, each round issues a search: `rounds` further searches, of
   * which the last page's mapsets are never used.
   */
  lemma {:induction false} RoundsAlwaysMore(page: SearchPage, getNext: NextPage, rounds: nat)
    requires AlwaysMore(getNext) && page.hasMore
    ensures Rounds(page, getNext, rounds) == Run(rounds, Success(Collect(Visited(page, getNext, rounds))))
    decreases rounds
  {
    if rounds > 0 {
      var next := getNext(page).value.value;
      RoundsAlwaysMore(next, getNext, rounds - 1);
      assert Visited(page, getNext, rounds)[1..] == Visited(next, getNext, rounds - 1);
    }
  }

  lemma {:induction false} CollectLength(pages: seq<SearchPage>)
    requires forall k | 0 <= k < |pages| :: |pages[k].mapsets| == 50
    ensures |Collect(pages)| == 50 * |pages|
  {
    if pages != [] {
      CollectLength(pages[1..]);
    }
  }

  /**
   * The crate's test: when every page holds fifty mapsets and has more, `fetch_new_songs(100)`
   * yields exactly 100 beatmapsets after three searches.
   */
  method TestOsuApiSearch(first: SearchPage, getNext: NextPage) returns (searches: nat, res: FetchResult)
    requires AlwaysMore(getNext) && first.hasMore && |first.mapsets| == 50
    requires forall p: SearchPage | p.hasMore ::
      getNext(p).Some? && getNext(p).value.Success? && |getNext(p).value.value.mapsets| == 50
    ensures searches == 3 && res.Success? && |res.value| == 100
  {
    searches, res := FetchNewSongs(Success(first), getNext, 100);
    RoundsAlwaysMore(first, getNext, 2);
    ghost var pages := Visited(first, getNext, 2);
    assert pages[0] == first && pages[1] == getNext(first).value.value;
    CollectLength(pages);
  }
}
