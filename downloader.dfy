/**
 * `BeatmapDownloaderApp`: the local catalog, the single-flight fetch protocol with the
 * background thread, and the download batch. The background thread and the workers are run
 * as explicit sequential steps; the two channels between the GUI and the background thread
 * are the fields `pendingControl` (signals not yet taken) and `pendingUpdates` (deltas not
 * yet received).
 */
module Downloader {

  import opened Wrappers
  import opened Numbers
  import opened Text
  import opened Client
  import opened SongIds
  import opened Transfer

  // ---------------------------------------------------------------- catalog

  /** The ids a listing yields, one for each entry that `extract` accepts. */
  function Harvest(entries: seq<string>, extract: string -> Option<u32>): (r: set<u32>)
    ensures |r| <= |entries|
  {
    if entries == [] then {}
    else
      Harvest(entries[..|entries| - 1], extract)
      + match extract(entries[|entries| - 1]) case Some(id) => {id} case None => {}
  }

  /** The ids of a Songs folder listing. */
  function CatalogIds(entries: seq<string>): (r: set<u32>)
    ensures |r| <= |entries|
  {
    Harvest(entries, ExtractSongId)
  }

  /** An id is harvested exactly when some entry yields it. */
  lemma {:induction false} HarvestMembers(entries: seq<string>, extract: string -> Option<u32>, id: u32)
    ensures id in Harvest(entries, extract) <==> exists i | 0 <= i < |entries| :: extract(entries[i]) == Some(id)
  {
    if entries != [] {
      var n := |entries| - 1;
      var init := entries[..n];
      HarvestMembers(init, extract, id);
      if id in Harvest(init, extract) {
        var i :| 0 <= i < |init| && extract(init[i]) == Some(id);
        assert entries[i] == init[i];
      } else if extract(entries[n]) != Some(id) {
        forall i | 0 <= i < |entries| ensures extract(entries[i]) != Some(id) {
          if i < n { assert entries[i] == init[i]; }
        }
      }
    }
  }

  /** Harvesting one more entry adds that entry's id, if it has one. */
  lemma HarvestSnoc(entries: seq<string>, extract: string -> Option<u32>, i: nat)
    requires i < |entries|
    ensures Harvest(entries[..i + 1], extract)
      == Harvest(entries[..i], extract) + match extract(entries[i]) case Some(id) => {id} case None => {}
  {
    assert entries[..i + 1][..i] == entries[..i];
  }

  /** Scanning adds an id exactly when some entry's name starts with it as a u32 token. */
  lemma CatalogIdsMembers(entries: seq<string>, id: u32)
    ensures id in CatalogIds(entries) <==> exists i | 0 <= i < |entries| :: ExtractSongId(entries[i]) == Some(id)
  {
    HarvestMembers(entries, ExtractSongId, id);
  }

  /** A listing where entry `i` yields `ids[i]` harvests exactly the ids. */
  lemma {:induction false} HarvestAll(entries: seq<string>, extract: string -> Option<u32>, ids: seq<u32>)
    requires |ids| == |entries|
    requires forall i | 0 <= i < |entries| :: extract(entries[i]) == Some(ids[i])
    ensures Harvest(entries, extract) == set i | 0 <= i < |ids| :: ids[i]
  {
    if entries != [] {
      var n := |entries| - 1;
      forall i | 0 <= i < n ensures extract(entries[..n][i]) == Some(ids[..n][i]) {
        assert entries[..n][i] == entries[i];
      }
      HarvestAll(entries[..n], extract, ids[..n]);
      var all := set i | 0 <= i < |ids| :: ids[i];
      var front := set i | 0 <= i < n :: ids[..n][i];
      forall x | x in all ensures x in front + {ids[n]} {
        var i :| 0 <= i < |ids| && ids[i] == x;
        if i < n { assert ids[..n][i] == x; }
      }
      forall x | x in front ensures x in all {
        var i :| 0 <= i < n && ids[..n][i] == x;
        assert ids[i] == x;
      }
    }
  }

  /** A Songs folder of "<id> <title>" entries lists exactly those ids. */
  lemma CatalogOfSongFolders(ids: seq<u32>, titles: seq<string>, entries: seq<string>)
    requires |ids| == |titles| == |entries|
    requires forall i | 0 <= i < |entries| :: entries[i] == DecimalString(ids[i] as nat) + " " + titles[i]
    ensures CatalogIds(entries) == set i | 0 <= i < |ids| :: ids[i]
  {
    forall i | 0 <= i < |entries| ensures ExtractSongId(entries[i]) == Some(ids[i]) {
      assert entries[i] == DecimalString(ids[i] as nat) + [' '] + titles[i];
      ExtractFromCatalogName(ids[i], ' ', titles[i]);
    }
    HarvestAll(entries, ExtractSongId, ids);
  }

  /** The loop of `load_songs_from_local`: insert each entry's id, if it has one, into `local`. */
  method ScanEntries(local: set<u32>, entries: seq<string>) returns (result: set<u32>)
    ensures result == local + CatalogIds(entries)
  {
    result := local;
    for i := 0 to |entries|
      invariant result == local + Harvest(entries[..i], ExtractSongId)
    {
      HarvestSnoc(entries, ExtractSongId, i);
      var found := ExtractSongId(entries[i]);
      if found.Some? {
        result := result + {found.value};
      }
    }
    assert entries[..|entries|] == entries;
  }

  /** The loop of the update branch: every id of the new list gets a 0.0 cell, others keep theirs. */
  method ResetCells(cells: map<u32, real>, ids: set<u32>) returns (result: map<u32, real>)
    ensures result.Keys == cells.Keys + ids
    ensures forall id | id in ids :: result[id] == 0.0
    ensures forall id | id in cells && id !in ids :: result[id] == cells[id]
  {
    result := cells;
    var rest := ids;
    while rest != {}
      invariant rest <= ids
      invariant result.Keys == cells.Keys + (ids - rest)
      invariant forall id | id in ids - rest :: result[id] == 0.0
      invariant forall id | id in result && id !in ids - rest :: result[id] == cells[id]
      decreases rest
    {
      var id :| id in rest;
      result := result[id := 0.0];
      rest := rest - {id};
    }
  }

  /** The delta the background thread sends: the fetched ids not already on disk. */
  method Delta(result: seq<Beatmapset>, local: set<u32>) returns (delta: set<u32>)
    ensures delta == Ids(result) - local
    ensures delta !! local
  {
    delta := {};
    for k := 0 to |result|
      invariant delta == Ids(result[..k]) - local
    {
      if result[k].id !in local {
        delta := delta + {result[k].id};
      }
      assert Ids(result[..k + 1]) == Ids(result[..k]) + {result[k].id} by {
        assert result[..k + 1][k] == result[k];
        forall x | x in Ids(result[..k + 1]) ensures x in Ids(result[..k]) + {result[k].id} {
          var j :| 0 <= j < k + 1 && result[..k + 1][j].id == x;
          if j < k { assert result[..k][j] == result[..k + 1][j]; }
        }
        forall x | x in Ids(result[..k]) ensures x in Ids(result[..k + 1]) {
          var j :| 0 <= j < k && result[..k][j].id == x;
          assert result[..k + 1][j] == result[..k][j];
        }
      }
    }
    assert result[..|result|] == result;
  }

  /** `order` lists every element of `s` exactly once. */
  predicate IsEnumeration(order: seq<u32>, s: set<u32>)
  {
    && multiset(order) == multiset(s)
    && forall k | 0 <= k < |order| :: order[k] in s
  }

  /** An enumeration has one slot per element, holds only elements, and repeats none. */
  lemma EnumerationFacts(order: seq<u32>, s: set<u32>)
    requires IsEnumeration(order, s)
    ensures |order| == |s|
    ensures forall k | 0 <= k < |order| :: order[k] in s
    ensures forall id | id in s :: id in order
    ensures forall i, j | 0 <= i < j < |order| :: order[i] != order[j]
  {
    assert |multiset(order)| == |order|;
    forall k | 0 <= k < |order| ensures order[k] in s {
      assert order[k] in multiset(order);
    }
    forall id | id in s ensures id in order {
      assert id in multiset(s);
    }
    forall i, j | 0 <= i < j < |order| ensures order[i] != order[j] {
      assert order == order[..j] + order[j..];
      assert multiset(order)[order[j]] == multiset(order[..j])[order[j]] + multiset(order[j..])[order[j]];
      assert order[i] in multiset(order[..j]) by { assert order[..j][i] == order[i]; }
      assert order[j] in multiset(order[j..]) by { assert order[j..][0] == order[j]; }
    }
  }

  /** A set enumerated in some order, every element once: the producer's HashSet iteration. */
  method Enumerate(s: set<u32>) returns (order: seq<u32>)
    ensures IsEnumeration(order, s)
  {
    order := [];
    var rest := s;
    while rest != {}
      invariant rest <= s
      invariant multiset(order) == multiset(s - rest)
      invariant forall k | 0 <= k < |order| :: order[k] in s
      decreases rest
    {
      var id :| id in rest;
      assert s - (rest - {id}) == (s - rest) + {id};
      assert multiset((s - rest) + {id}) == multiset(s - rest) + multiset{id};
      order := order + [id];
      rest := rest - {id};
    }
  }

  /**
   * The correction to `download_v2`: a fresh 0.0 cell for every id of the batch that has
   * none, existing cells kept.
   */
  method AddMissingCells(cells: map<u32, real>, ids: set<u32>) returns (result: map<u32, real>)
    ensures result.Keys == cells.Keys + ids
    ensures forall id | id in cells :: result[id] == cells[id]
    ensures forall id | id in ids && id !in cells :: result[id] == 0.0
  {
    result := cells;
    var rest := ids;
    while rest != {}
      invariant rest <= ids
      invariant result.Keys == cells.Keys + (ids - rest)
      invariant forall id | id in cells :: result[id] == cells[id]
      invariant forall id | id in ids - rest && id !in cells :: result[id] == 0.0
      decreases rest
    {
      var id :| id in rest;
      if id !in result {
        result := result[id := 0.0];
      }
      rest := rest - {id};
    }
  }

  /** `(n / 50) * 50`, the fetch count written back on every frame. */
  function RoundToPage(n: u32): (r: u32)
    ensures r as int % 50 == 0
    ensures r <= n && n as int - r as int < 50
  {
    (n / 50) * 50
  }

  /** Rounding a rounded count changes nothing. */
  lemma RoundToPageIdempotent(n: u32)
    ensures RoundToPage(RoundToPage(n)) == RoundToPage(n)
  {
    var r := RoundToPage(n);
    assert r as int == (r as int / 50) * 50;
  }

  /**
   * The name a download gets when the reply carries none. The catalog scan does not read
   * an id from it: its first token "<id>.osz" is not a number.
   */
  function DefaultFileName(id: u32): (name: string)
    ensures name == DecimalString(id as nat) + ".osz"
    ensures ExtractSongId(name) == None
  {
    var digits := DecimalString(id as nat);
    var name := digits + ".osz";
    DigitsAreNotWhitespace(digits);
    assert NoWhitespace(name) by {
      forall i | 0 <= i < |name| ensures !IsWhitespace(name[i]) {
        if i < |digits| { assert name[i] == digits[i]; }
      }
    }
    FirstTokenOf([], name, []);
    assert [] + name + [] == name;
    assert name[|digits|] == '.';
    ParseRejects(0, [], name);
    name
  }

  /** One worker's handling of one id; `last` is the last value it wrote to the progress cell. */
  datatype Download = Download(id: u32, url: string, file: Option<string>, last: Option<real>, outcome: Result<(), DownloadError>)

  /** The GET each worker sends, as an oracle from URL to reply. */
  type Fetcher = string -> Result<Response, string>

  /**
   * What the worker for `id` does: send the GET to the rendered URL, name the file after
   * the reply's header or "<id>.osz", and stream the body into it.
   */
  function Worker(id: u32, template: string, get: Fetcher, decode: Decode): (d: Download)
    ensures d.id == id && d.url == Render(template, id)
  {
    var url := Render(template, id);
    match get(url)
    case Failure(e) => Download(id, url, None, None, Failure(Request(e)))
    case Success(response) =>
      match FileName(response.contentDisposition, DefaultFileName(id), decode)
      case Failure(e) => Download(id, url, None, None, Failure(e))
      case Success(name) =>
        Download(id, url, Some(name),
          if response.chunks == [] then None else Some(Progress(Sum(response.chunks), TotalSize(response))),
          if response.streamError.None? then Success(()) else Failure(Stream(response.streamError.value)))
  }

  /**
   * A failed GET creates no file; a reply without a Content-Disposition header saves
   * "<id>.osz"; a file is created exactly when a cell value is, apart from an empty body;
   * the cell ends at a fraction, and at 1.0 once the announced total has arrived; the
   * download succeeds exactly when the file is created and the stream ends cleanly.
   */
  lemma WorkerFacts(id: u32, template: string, get: Fetcher, decode: Decode)
    ensures var d := Worker(id, template, get, decode);
      && (get(d.url).Failure? ==> d.file == None && d.last == None && d.outcome == Failure(Request(get(d.url).error)))
      && (get(d.url).Success? && get(d.url).value.contentDisposition.None? ==> d.file == Some(DefaultFileName(id)))
      && (d.file.None? ==> d.last == None && d.outcome.Failure?)
      && (d.last.Some? ==> 0.0 <= d.last.value <= 1.0)
      && (get(d.url).Success? && d.file.Some? ==>
            && (d.last.None? <==> get(d.url).value.chunks == [])
            && (d.outcome.Success? <==> get(d.url).value.streamError.None?)
            && (d.last.Some? && Sum(get(d.url).value.chunks) >= TotalSize(get(d.url).value) ==> d.last == Some(1.0)))
  {
  }

  /** The value a worker leaves in its cell is a fraction. */
  lemma WorkerFraction(id: u32, template: string, get: Fetcher, decode: Decode)
    ensures var d := Worker(id, template, get, decode); d.last.Some? ==> 0.0 <= d.last.value <= 1.0
  {
    WorkerFacts(id, template, get, decode);
  }

  /** One worker handling one id by running `download_file` on the reply to its URL. */
  method DownloadOne(id: u32, template: string, get: Fetcher, decode: Decode) returns (d: Download)
    ensures d == Worker(id, template, get, decode)
  {
    var url := Render(template, id);
    var reply := get(url);
    var file, log, outcome := DownloadFile(reply, DefaultFileName(id), decode);
    if reply.Failure? {
      d := Download(id, url, file, None, outcome);
    } else {
      var response := reply.value;
      var name := FileName(response.contentDisposition, DefaultFileName(id), decode);
      if name.Failure? {
        d := Download(id, url, file, None, outcome);
      } else {
        var last: Option<real> := None;
        if log != [] {
          var chunks := response.chunks;
          assert chunks[..|chunks|] == chunks;
          assert log[|log| - 1] == Progress(Sum(chunks[..|log|]), TotalSize(response));
          last := Some(log[|log| - 1]);
        }
        d := Download(id, url, file, last, outcome);
      }
    }
  }

  /** The downloads are the queue's ids in order, each handled by its worker. */
  predicate Downloaded(downloads: seq<Download>, queue: seq<u32>, template: string, get: Fetcher, decode: Decode)
  {
    && |downloads| == |queue|
    && forall k | 0 <= k < |queue| :: downloads[k] == Worker(queue[k], template, get, decode)
  }

  /** The workers' results for `queue`, in queue order. */
  function Workers(queue: seq<u32>, template: string, get: Fetcher, decode: Decode): (ds: seq<Download>)
    ensures Downloaded(ds, queue, template, get, decode)
  {
    seq(|queue|, k requires 0 <= k < |queue| => Worker(queue[k], template, get, decode))
  }

  lemma WorkersSnoc(queue: seq<u32>, k: nat, template: string, get: Fetcher, decode: Decode)
    requires k < |queue|
    ensures Workers(queue[..k + 1], template, get, decode)
      == Workers(queue[..k], template, get, decode) + [Worker(queue[k], template, get, decode)]
  {
    var ws := Workers(queue[..k + 1], template, get, decode);
    var vs := Workers(queue[..k], template, get, decode) + [Worker(queue[k], template, get, decode)];
    forall j | 0 <= j < k + 1 ensures ws[j] == vs[j] {
    }
  }

  /** No id is queued twice. */
  predicate Distinct(queue: seq<u32>)
  {
    forall i, j | 0 <= i < j < |queue| :: queue[i] != queue[j]
  }

  /** A progress cell after its download: the last value written, else what it held before. */
  function After(d: Download, before: real): real
  {
    match d.last
    case Some(v) => v
    case None => before
  }

  /** No key is added, every cell is its old value or a fraction, and unqueued cells are kept. */
  predicate CellsKept(queue: seq<u32>, cells: map<u32, real>, result: map<u32, real>)
  {
    && result.Keys == cells.Keys
    && (forall id | id in result :: result[id] == cells[id] || 0.0 <= result[id] <= 1.0)
    && (forall id | id in cells && id !in queue :: result[id] == cells[id])
  }

  /** Writing a fraction into a queued cell keeps the cells in bounds. */
  lemma CellsKeptStep(queue: seq<u32>, k: nat, cells: map<u32, real>, result: map<u32, real>, d: Download, result': map<u32, real>)
    requires k < |queue| && queue[k] in result
    requires d.last.Some? ==> 0.0 <= d.last.value <= 1.0
    requires CellsKept(queue, cells, result)
    requires result' == result[queue[k] := After(d, result[queue[k]])]
    ensures CellsKept(queue, cells, result')
  {
  }

  /** The cells of a repeat-free queue once its first `k` ids are downloaded. */
  predicate CellsAfter(queue: seq<u32>, k: nat, cells: map<u32, real>, result: map<u32, real>, downloads: seq<Download>)
    requires k <= |queue| && |downloads| == k
    requires forall j | 0 <= j < k :: queue[j] in cells
  {
    && result.Keys == cells.Keys
    && (forall j | 0 <= j < k :: result[queue[j]] == After(downloads[j], cells[queue[j]]))
    && (forall j | k <= j < |queue| && queue[j] in cells :: result[queue[j]] == cells[queue[j]])
  }

  /** One more download of a repeat-free queue moves its cell and no later one. */
  lemma CellsAfterStep(queue: seq<u32>, k: nat, cells: map<u32, real>, result: map<u32, real>,
                       downloads: seq<Download>, d: Download, result': map<u32, real>)
    requires Distinct(queue) && k < |queue| && |downloads| == k
    requires forall j | 0 <= j <= k :: queue[j] in cells
    requires CellsAfter(queue, k, cells, result, downloads)
    requires result' == result[queue[k] := After(d, result[queue[k]])]
    ensures CellsAfter(queue, k + 1, cells, result', downloads + [d])
  {
    var ds := downloads + [d];
    forall j | 0 <= j < k + 1
      ensures result'[queue[j]] == After(ds[j], cells[queue[j]])
    {
      if j < k {
        assert queue[j] != queue[k];
      }
    }
    forall j | k + 1 <= j < |queue| && queue[j] in cells
      ensures result'[queue[j]] == cells[queue[j]]
    {
      assert queue[k] != queue[j];
    }
  }

  /**
   * One worker's turn on the k-th queued id: download it and leave the last progress value
   * in its cell.
   */
  method WorkStep(queue: seq<u32>, k: nat, cells: map<u32, real>, template: string, get: Fetcher, decode: Decode)
    returns (d: Download, result: map<u32, real>)
    requires k < |queue| && queue[k] in cells
    ensures Workers(queue[..k + 1], template, get, decode) == Workers(queue[..k], template, get, decode) + [d]
    ensures d.last.Some? ==> 0.0 <= d.last.value <= 1.0
    ensures result == cells[queue[k] := After(d, cells[queue[k]])]
  {
    var id := queue[k];
    d := DownloadOne(id, template, get, decode);
    WorkerFraction(id, template, get, decode);
    WorkersSnoc(queue, k, template, get, decode);
    result := cells;
    if d.last.Some? {
      result := result[id := d.last.value];
    }
  }

  /**
   * The workers of `download_v2`, run one id after another in queue order: each looks up
   * the id's progress cell (a missing cell panics at its `unwrap`) and runs the download;
   * the cell ends at the last fraction written. A download's own error is ignored.
   */
  method RunWorkers(queue: seq<u32>, cells: map<u32, real>, template: string, get: Fetcher, decode: Decode)
    returns (downloads: seq<Download>, result: map<u32, real>, panicked: bool)
    ensures panicked <==> exists k | 0 <= k < |queue| :: queue[k] !in cells
    ensures !panicked ==> Downloaded(downloads, queue, template, get, decode)
    ensures result.Keys == cells.Keys
    ensures forall id | id in result :: result[id] == cells[id] || 0.0 <= result[id] <= 1.0
    ensures forall id | id in cells && id !in queue :: result[id] == cells[id]
    ensures !panicked && Distinct(queue) ==>
      forall k | 0 <= k < |queue| :: result[queue[k]] == After(downloads[k], cells[queue[k]])
  {
    result := cells;
    downloads := [];
    var k := 0;
    while k < |queue| && queue[k] in result
      invariant 0 <= k <= |queue|
      invariant CellsKept(queue, cells, result)
      invariant forall j | 0 <= j < k :: queue[j] in cells
      invariant downloads == Workers(queue[..k], template, get, decode)
      invariant Distinct(queue) ==> CellsAfter(queue, k, cells, result, downloads)
    {
      var before := result;
      var d;
      d, result := WorkStep(queue, k, result, template, get, decode);
      CellsKeptStep(queue, k, cells, before, d, result);
      if Distinct(queue) {
        CellsAfterStep(queue, k, cells, before, downloads, d, result);
      }
      downloads := downloads + [d];
      k := k + 1;
    }
    // A worker whose id has no cell panics at its `unwrap`, and so does the join.
    panicked := k < |queue|;
    if !panicked {
      assert queue[..k] == queue;
    }
  }

  /**
   * The batch `download_v2` starts, with the correction that every id of the batch gets a
   * progress cell first: the producer's order, the downloads, the cells afterwards and
   * whether the finish flag is raised. With no workers the producer's sends fail, and
   * only an empty batch finishes.
   */
  method StartBatch(cells: map<u32, real>, ids: set<u32>, template: string, workers: u64, get: Fetcher, decode: Decode)
    returns (sent: seq<u32>, downloads: seq<Download>, result: map<u32, real>, finish: bool)
    ensures IsEnumeration(sent, ids)
    ensures result.Keys == cells.Keys + ids
    ensures forall id | id in result :: (id in cells && result[id] == cells[id]) || 0.0 <= result[id] <= 1.0
    ensures forall id | id in cells && id !in ids :: result[id] == cells[id]
    ensures workers == 0 ==> downloads == [] && (finish <==> ids == {})
    ensures workers == 0 ==> forall id | id in ids :: result[id] == if id in cells then cells[id] else 0.0
    ensures workers > 0 ==> finish && Downloaded(downloads, sent, template, get, decode)
    ensures workers > 0 ==> forall k | 0 <= k < |sent| ::
      result[sent[k]] == After(downloads[k], if sent[k] in cells then cells[sent[k]] else 0.0)
  {
    result := AddMissingCells(cells, ids);
    sent := Enumerate(ids);
    downloads := [];
    finish := ids == {};
    EnumerationFacts(sent, ids);
    if workers > 0 {
      var prepared := result;
      var panicked;
      downloads, result, panicked := RunWorkers(sent, prepared, template, get, decode);
      forall id | id in cells && id !in ids ensures id !in sent {
      }
      finish := true;
    }
  }

  /**
   * The batch as `download_v2` starts it: the workers use whatever cells the map holds,
   * and one that finds none panics, which keeps the finish flag down.
   */
  method StartBatchAsWritten(cells: map<u32, real>, ids: set<u32>, template: string, workers: u64, get: Fetcher, decode: Decode)
    returns (sent: seq<u32>, downloads: seq<Download>, result: map<u32, real>, finish: bool, panicked: bool)
    ensures IsEnumeration(sent, ids)
    ensures result.Keys == cells.Keys
    ensures forall id | id in cells && id !in ids :: result[id] == cells[id]
    ensures workers == 0 ==> downloads == [] && !panicked && (finish <==> ids == {}) && result == cells
    ensures workers > 0 ==> (panicked <==> !(ids <= cells.Keys)) && (finish <==> !panicked)
    ensures workers > 0 && !panicked ==> Downloaded(downloads, sent, template, get, decode)
    ensures workers > 0 && !panicked ==> forall k | 0 <= k < |sent| :: result[sent[k]] == After(downloads[k], cells[sent[k]])
  {
    result := cells;
    sent := Enumerate(ids);
    downloads := [];
    finish := ids == {};
    panicked := false;
    EnumerationFacts(sent, ids);
    if workers > 0 {
      downloads, result, panicked := RunWorkers(sent, result, template, get, decode);
      forall id | id in cells && id !in ids ensures id !in sent {
      }
      finish := !panicked;
    }
  }

  class App {
    var numberOfFetchSongs: u32
    var songsPath: string
    var localSongs: set<u32>
    var newSongs: set<u32>
    var isFetching: bool
    var isDownload: bool
    var isDownloadFinish: bool
    var selectedServer: string
    var numberOfSimultaneousDownloads: u64
    var server: map<string, string>
    var percentage: map<u32, real>
    /** Signals on `tx_control` the background thread has not taken yet. */
    var pendingControl: nat
    /** Deltas on `rx_update` the GUI has not received yet. */
    var pendingUpdates: seq<set<u32>>
    /** False once a failed fetch has made the background thread panic. */
    var backgroundAlive: bool

    /**
     * At most one fetch is in flight, and only while `isFetching`; a dead background
     * thread holds no signal; every progress value is a fraction; while a batch is marked
     * as downloading, every listed id has a progress cell.
     */
    ghost predicate Valid()
      reads this
      ensures Valid() ==> pendingControl <= 1 && |pendingUpdates| <= 1
      ensures Valid() && isDownload ==> forall id | id in newSongs :: id in percentage
    {
      && pendingControl + |pendingUpdates| <= 1
      && (!isFetching ==> pendingControl == 0 && pendingUpdates == [])
      && (isFetching && backgroundAlive ==> pendingControl + |pendingUpdates| == 1)
      && (!backgroundAlive ==> pendingControl == 0)
      && (forall id | id in percentage :: 0.0 <= percentage[id] <= 1.0)
      && (isDownload ==> newSongs <= percentage.Keys)
    }

    /** `BeatmapDownloaderApp::new`, followed by its scan of the Songs folder `entries`. */
    constructor (songsPath: string, numberOfFetch: u32, server: map<string, string>,
                 selectedServer: string, numberOfSimultaneousDownloads: u64, entries: seq<string>)
      ensures Valid()
      ensures this.numberOfFetchSongs == numberOfFetch && this.songsPath == songsPath
      ensures this.server == server && this.selectedServer == selectedServer
      ensures this.numberOfSimultaneousDownloads == numberOfSimultaneousDownloads
      ensures localSongs == CatalogIds(entries)
      ensures newSongs == {} && percentage == map[]
      ensures !isFetching && !isDownload && isDownloadFinish
      ensures pendingControl == 0 && pendingUpdates == [] && backgroundAlive
    {
      this.numberOfFetchSongs := numberOfFetch;
      this.songsPath := songsPath;
      this.localSongs := {};
      this.newSongs := {};
      this.isFetching := false;
      this.isDownload := false;
      this.isDownloadFinish := true;
      this.selectedServer := selectedServer;
      this.numberOfSimultaneousDownloads := numberOfSimultaneousDownloads;
      this.server := server;
      this.percentage := map[];
      this.pendingControl := 0;
      this.pendingUpdates := [];
      this.backgroundAlive := true;
      new;
      LoadSongsFromLocal(entries);
    }

    /** `load_songs_from_local`: adds every parseable id of the listing, removes nothing. */
    method LoadSongsFromLocal(entries: seq<string>)
      modifies this
      ensures localSongs == old(localSongs) + CatalogIds(entries)
      ensures old(localSongs) <= localSongs
      ensures numberOfFetchSongs == old(numberOfFetchSongs) && songsPath == old(songsPath)
      ensures selectedServer == old(selectedServer) && server == old(server)
      ensures numberOfSimultaneousDownloads == old(numberOfSimultaneousDownloads)
      ensures newSongs == old(newSongs) && percentage == old(percentage)
      ensures isFetching == old(isFetching) && isDownload == old(isDownload)
      ensures isDownloadFinish == old(isDownloadFinish) && backgroundAlive == old(backgroundAlive)
      ensures pendingControl == old(pendingControl) && pendingUpdates == old(pendingUpdates)
    {
      localSongs := ScanEntries(localSongs, entries);
    }

    /** `find_new_songs`: signal the background thread unless a fetch is already in flight. */
    method FindNewSongs()
      requires Valid()
      modifies this
      ensures Valid()
      ensures isFetching
      ensures old(isFetching) ==> pendingControl == old(pendingControl)
      ensures !old(isFetching) ==> pendingControl == (if backgroundAlive then 1 else 0)
      ensures numberOfFetchSongs == old(numberOfFetchSongs) && songsPath == old(songsPath)
      ensures selectedServer == old(selectedServer) && server == old(server)
      ensures numberOfSimultaneousDownloads == old(numberOfSimultaneousDownloads)
      ensures localSongs == old(localSongs) && newSongs == old(newSongs)
      ensures percentage == old(percentage) && isDownload == old(isDownload)
      ensures isDownloadFinish == old(isDownloadFinish) && backgroundAlive == old(backgroundAlive)
      ensures pendingUpdates == old(pendingUpdates)
    {
      if !isFetching {
        isFetching := true;
        // a send to a thread that has died fails and is ignored
        if backgroundAlive {
          pendingControl := pendingControl + 1;
        }
      }
    }

    /** The "Find new beatmaps" button: leave download mode, drop all progress, then find. */
    method FindClicked()
      requires Valid()
      modifies this
      ensures Valid()
      ensures isFetching && !isDownload && percentage == map[]
      ensures old(isFetching) ==> pendingControl == old(pendingControl)
      ensures !old(isFetching) ==> pendingControl == (if backgroundAlive then 1 else 0)
      ensures numberOfFetchSongs == old(numberOfFetchSongs) && songsPath == old(songsPath)
      ensures selectedServer == old(selectedServer) && server == old(server)
      ensures numberOfSimultaneousDownloads == old(numberOfSimultaneousDownloads)
      ensures localSongs == old(localSongs) && newSongs == old(newSongs)
      ensures isDownloadFinish == old(isDownloadFinish) && backgroundAlive == old(backgroundAlive)
      ensures pendingUpdates == old(pendingUpdates)
    {
      isDownload := false;
      percentage := map[];
      FindNewSongs();
    }

    /**
     * One pass of `background_process`'s loop: if a signal is waiting, fetch
     * `fetch(numberOfFetchSongs)` and send the delta against the local set. A failed fetch
     * panics at its `unwrap`, which ends the thread.
     */
    method BackgroundStep(fetch: u32 -> FetchResult)
      requires Valid()
      modifies this
      ensures Valid()
      ensures !old(backgroundAlive && pendingControl > 0) ==>
        (pendingControl == old(pendingControl) && pendingUpdates == old(pendingUpdates)
         && backgroundAlive == old(backgroundAlive))
      ensures old(backgroundAlive && pendingControl > 0) ==> pendingControl == 0
      ensures old(backgroundAlive && pendingControl > 0) && fetch(numberOfFetchSongs).Failure? ==>
        (!backgroundAlive && pendingUpdates == old(pendingUpdates))
      ensures old(backgroundAlive && pendingControl > 0) && fetch(numberOfFetchSongs).Success? ==>
        (backgroundAlive && pendingUpdates == old(pendingUpdates) + [Ids(fetch(numberOfFetchSongs).value) - localSongs])
      ensures numberOfFetchSongs == old(numberOfFetchSongs) && songsPath == old(songsPath)
      ensures selectedServer == old(selectedServer) && server == old(server)
      ensures numberOfSimultaneousDownloads == old(numberOfSimultaneousDownloads)
      ensures localSongs == old(localSongs) && newSongs == old(newSongs)
      ensures percentage == old(percentage) && isFetching == old(isFetching)
      ensures isDownload == old(isDownload) && isDownloadFinish == old(isDownloadFinish)
    {
      if backgroundAlive && pendingControl > 0 {
        pendingControl := pendingControl - 1;
        var result := fetch(numberOfFetchSongs);
        if result.Failure? {
          backgroundAlive := false;
        } else {
          var delta := Delta(result.value, localSongs);
          pendingUpdates := pendingUpdates + [delta];
        }
      }
    }

    /**
     * The update branch of `list_new_songs`: a waiting delta replaces the listed songs,
     * ends the fetch and download modes, and gives every listed id progress 0.0.
     */
    method ReceiveUpdate() returns (received: bool)
      requires Valid()
      modifies this
      ensures Valid()
      ensures received <==> old(pendingUpdates) != []
      ensures received ==>
        && newSongs == old(pendingUpdates[0]) && pendingUpdates == old(pendingUpdates[1..])
        && !isFetching && !isDownload
        && percentage.Keys == old(percentage).Keys + newSongs
        && (forall id | id in newSongs :: percentage[id] == 0.0)
        && (forall id | id in old(percentage) && id !in newSongs :: percentage[id] == old(percentage)[id])
      ensures !received ==>
        (newSongs == old(newSongs) && pendingUpdates == old(pendingUpdates)
         && isFetching == old(isFetching) && isDownload == old(isDownload) && percentage == old(percentage))
      ensures numberOfFetchSongs == old(numberOfFetchSongs) && songsPath == old(songsPath)
      ensures selectedServer == old(selectedServer) && server == old(server)
      ensures numberOfSimultaneousDownloads == old(numberOfSimultaneousDownloads)
      ensures localSongs == old(localSongs) && pendingControl == old(pendingControl)
      ensures isDownloadFinish == old(isDownloadFinish) && backgroundAlive == old(backgroundAlive)
    {
      if pendingUpdates == [] {
        return false;
      }
      received := true;
      var update := pendingUpdates[0];
      var cells := ResetCells(percentage, update);
      isFetching, newSongs, pendingUpdates, isDownload, percentage :=
        false, update, pendingUpdates[1..], false, cells;
    }

    /** The page rounding `update` applies to the fetch count. */
    method RoundFetchCount()
      modifies this
      ensures numberOfFetchSongs == RoundToPage(old(numberOfFetchSongs))
      ensures songsPath == old(songsPath) && selectedServer == old(selectedServer) && server == old(server)
      ensures numberOfSimultaneousDownloads == old(numberOfSimultaneousDownloads)
      ensures localSongs == old(localSongs) && newSongs == old(newSongs) && percentage == old(percentage)
      ensures isFetching == old(isFetching) && isDownload == old(isDownload)
      ensures isDownloadFinish == old(isDownloadFinish) && backgroundAlive == old(backgroundAlive)
      ensures pendingControl == old(pendingControl) && pendingUpdates == old(pendingUpdates)
    {
      numberOfFetchSongs := RoundToPage(numberOfFetchSongs);
    }

    /** The server combo box: it only offers keys of the server table. */
    method SelectServer(option: string)
      requires option in server
      modifies this
      ensures selectedServer == option && selectedServer in server
      ensures numberOfFetchSongs == old(numberOfFetchSongs) && songsPath == old(songsPath) && server == old(server)
      ensures numberOfSimultaneousDownloads == old(numberOfSimultaneousDownloads)
      ensures localSongs == old(localSongs) && newSongs == old(newSongs) && percentage == old(percentage)
      ensures isFetching == old(isFetching) && isDownload == old(isDownload)
      ensures isDownloadFinish == old(isDownloadFinish) && backgroundAlive == old(backgroundAlive)
      ensures pendingControl == old(pendingControl) && pendingUpdates == old(pendingUpdates)
    {
      selectedServer := option;
    }

    /**
     * `download_v2` with every listed id given a progress cell before the workers start.
     * Outside download mode it starts a batch: the producer sends each listed id exactly
     * once, the workers download them, and the finish flag is raised after they have all
     * been joined. With no workers the producer's sends fail and only an empty batch
     * finishes. In download mode it does nothing.
     */
    method DownloadV2(get: Fetcher, decode: Decode) returns (sent: seq<u32>, downloads: seq<Download>)
      requires Valid()
      requires isDownload || selectedServer in server
      modifies this
      ensures Valid()
      ensures numberOfFetchSongs == old(numberOfFetchSongs) && songsPath == old(songsPath)
      ensures selectedServer == old(selectedServer) && server == old(server)
      ensures numberOfSimultaneousDownloads == old(numberOfSimultaneousDownloads)
      ensures localSongs == old(localSongs) && newSongs == old(newSongs)
      ensures isFetching == old(isFetching) && backgroundAlive == old(backgroundAlive)
      ensures pendingControl == old(pendingControl) && pendingUpdates == old(pendingUpdates)
      ensures isDownload
      ensures old(isDownload) ==> (sent == [] && downloads == [] && isDownloadFinish == old(isDownloadFinish)
        && percentage == old(percentage))
      ensures !old(isDownload) ==> IsEnumeration(sent, newSongs)
      ensures !old(isDownload) ==> percentage.Keys == old(percentage).Keys + newSongs
      ensures !old(isDownload) ==> forall id | id in old(percentage) && id !in newSongs :: percentage[id] == old(percentage)[id]
      ensures !old(isDownload) && numberOfSimultaneousDownloads == 0 ==>
        (downloads == [] && (isDownloadFinish <==> newSongs == {}))
      ensures !old(isDownload) && numberOfSimultaneousDownloads == 0 ==>
        forall id | id in newSongs :: percentage[id] == if id in old(percentage) then old(percentage)[id] else 0.0
      ensures !old(isDownload) && numberOfSimultaneousDownloads > 0 ==>
        (isDownloadFinish && Downloaded(downloads, sent, server[selectedServer], get, decode))
      ensures !old(isDownload) && numberOfSimultaneousDownloads > 0 ==> forall k | 0 <= k < |sent| ::
        percentage[sent[k]] == After(downloads[k], if sent[k] in old(percentage) then old(percentage)[sent[k]] else 0.0)
    {
      sent, downloads := [], [];
      if isDownload {
        return;
      }
      var cells, finish;
      sent, downloads, cells, finish :=
        StartBatch(percentage, newSongs, server[selectedServer], numberOfSimultaneousDownloads, get, decode);
      isDownload := true;
      percentage := cells;
      isDownloadFinish := finish;
    }

    /**
     * `download_v2` as the source has it: the progress cells are whatever the map holds.
     * When a batch starts with a listed id missing from the map, a worker panics on its
     * lookup, the producer's join then panics too, and the finish flag is never raised.
     */
    method DownloadV2AsWritten(get: Fetcher, decode: Decode) returns (sent: seq<u32>, downloads: seq<Download>, panicked: bool)
      requires isDownload || selectedServer in server
      modifies this
      ensures numberOfFetchSongs == old(numberOfFetchSongs) && songsPath == old(songsPath)
      ensures selectedServer == old(selectedServer) && server == old(server)
      ensures numberOfSimultaneousDownloads == old(numberOfSimultaneousDownloads)
      ensures localSongs == old(localSongs) && newSongs == old(newSongs)
      ensures isFetching == old(isFetching) && backgroundAlive == old(backgroundAlive)
      ensures pendingControl == old(pendingControl) && pendingUpdates == old(pendingUpdates)
      ensures isDownload && percentage.Keys == old(percentage).Keys
      ensures old(isDownload) ==> (sent == [] && downloads == [] && !panicked
        && isDownloadFinish == old(isDownloadFinish) && percentage == old(percentage))
      ensures !old(isDownload) ==> IsEnumeration(sent, newSongs)
      ensures !old(isDownload) && numberOfSimultaneousDownloads > 0 ==>
        (panicked <==> !(newSongs <= old(percentage).Keys))
      ensures panicked ==> !isDownloadFinish
      ensures forall id | id in old(percentage) && id !in newSongs :: percentage[id] == old(percentage)[id]
      ensures !old(isDownload) && numberOfSimultaneousDownloads > 0 && !panicked ==>
        && isDownloadFinish && Downloaded(downloads, sent, server[selectedServer], get, decode)
        && forall k | 0 <= k < |sent| :: percentage[sent[k]] == After(downloads[k], old(percentage)[sent[k]])
    {
      sent, downloads, panicked := [], [], false;
      if isDownload {
        return;
      }
      var cells, finish;
      sent, downloads, cells, finish, panicked :=
        StartBatchAsWritten(percentage, newSongs, server[selectedServer], numberOfSimultaneousDownloads, get, decode);
      isDownload := true;
      percentage := cells;
      isDownloadFinish := finish;
    }
  }

  /** Ids shared by several search results collapse into one. */
  lemma IdsRepeated(result: seq<Beatmapset>, k: nat, title: string)
    requires k < |result|
    ensures Ids(result + [Beatmapset(result[k].id, title)]) == Ids(result)
  {
    var longer := result + [Beatmapset(result[k].id, title)];
    assert longer[k] == result[k];
    forall x | x in Ids(longer) ensures x in Ids(result) {
      var j :| 0 <= j < |longer| && longer[j].id == x;
      if j < |result| { assert result[j] == longer[j]; }
    }
    forall x | x in Ids(result) ensures x in Ids(longer) {
      var j :| 0 <= j < |result| && result[j].id == x;
      assert longer[j] == result[j];
    }
  }

  /** Two clicks on "Find new beatmaps" before an answer send one signal. */
  method FindTwiceSignalsOnce(template: string) returns (signals: nat)
    ensures signals == 1
  {
    var app := new App("", 250, map["nerinyan" := template], "nerinyan", 5, []);
    app.FindClicked();
    app.FindClicked();
    signals := app.pendingControl;
  }

  /** The app after fetching the single new song 7 and then clicking "Find new beatmaps". */
  method FindAfterUpdate(template: string) returns (app: App)
    ensures fresh(app) && app.Valid()
    ensures app.newSongs == {7} && app.percentage == map[] && !app.isDownload
    ensures app.server == map["nerinyan" := template] && app.selectedServer == "nerinyan"
    ensures app.numberOfSimultaneousDownloads == 5
  {
    app := new App("", 250, map["nerinyan" := template], "nerinyan", 5, []);
    app.FindClicked();
    app.BackgroundStep((n: u32) => Success([Beatmapset(7, "song")]));
    assert Ids([Beatmapset(7, "song")]) == {7} by {
      assert [Beatmapset(7, "song")][0].id == 7;
    }
    var received := app.ReceiveUpdate();
    app.FindClicked();
  }

  /**
   * Find, then Download before the new answer arrives: the listed songs are the old ones but
   * their progress cells are gone, so the as-written batch panics and never finishes.
   */
  method DownloadAfterFindPanics(template: string, get: Fetcher, decode: Decode) returns (panicked: bool, finished: bool)
    ensures panicked && !finished
  {
    var app := FindAfterUpdate(template);
    var sent, downloads;
    sent, downloads, panicked := app.DownloadV2AsWritten(get, decode);
    finished := app.isDownloadFinish;
  }

  /** The same clicks with the corrected batch: song 7 is downloaded and the batch finishes. */
  method DownloadAfterFindFinishes(template: string, get: Fetcher, decode: Decode)
    returns (downloads: seq<Download>, finished: bool)
    ensures finished && |downloads| == 1
    ensures downloads[0].id == 7 && downloads[0].url == Render(template, 7)
  {
    var app := FindAfterUpdate(template);
    var sent;
    sent, downloads := app.DownloadV2(get, decode);
    EnumerationFacts(sent, {7});
    finished := app.isDownloadFinish;
  }
}
