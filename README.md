# osu! Beatmaps Downloader — a verified model of its core

The osu! Beatmaps Downloader is a desktop tool with two parts.

- It scans the local osu! `Songs` folder for the ids of the beatmap sets already installed.
- It asks one of three search backends for the latest ranked beatmap sets: the Nerinyan mirror, the osu! website search, or the osu! API through rosu.
- It lists the ids that are not yet installed.
- It downloads them from a configurable mirror, with a pool of worker threads and a progress cell per id.

A small stand-alone Python script (`downloader.py`) downloads a list of ids, retrying each up to three times.

This project restates the sequential rules under the GUI, the HTTP and the threads in Dafny, and proves them. The modules follow the program's files.

| module | file | what it holds |
|---|---|---|
| `Wrappers` | `wrappers.dfy` | `Option`, `Result` |
| `Numbers` | `numbers.dfy` | `u32`/`u64`, Rust's `u32` parse, decimal rendering |
| `Text` | `text.dfy` | substring search, the `{beatmap_id}` template substitution |
| `Client` | `client.dfy` | `Beatmapset`, how an HTTP reply becomes a result, the id set of a result list (`src/client.rs`) |
| `Nerinyan` | `nerinyan.dfy` | the page-index loop (`src/client/nerinyan.rs`) |
| `OsuWeb` | `osu_web.dfy` | the cursor loop (`src/client/osu.rs`) |
| `OsuApi` | `osu_api.dfy` | the `has_more`/`get_next` loop (`src/client/osu_api.rs`) |
| `Settings` | `settings.dfy` | the default configuration (`src/settings.rs`) |
| `Launcher` | `launcher.dfy` | `create_search_client` (`src/main.rs`) |
| `SongIds` | `song_ids.dfy` | `extract_song_id` (`src/downloader.rs`) |
| `Transfer` | `transfer.dfy` | `download_file`: file name and progress (`src/downloader.rs`) |
| `Downloader` | `downloader.dfy` | the catalog scan, the fetch delta, the application state machine `App` and the download batch (`src/downloader.rs`) |
| `PyDownloader` | `py_downloader.dfy` | `downloader.py`: file-name extraction and the retry schedule |

## How the model is built

- **The network is a parameter.** Each search client takes an oracle from a request to its reply.
  - Nerinyan: page URL to HTTP reply.
  - osu! web: cursor URL to HTTP reply.
  - rosu: the outcome of the initial search, and `get_next` as a function from page to next page.
- **Requests are outputs.** The clients return the requests they make, in order, as real out-parameters. Their contracts can then say which requests are made, how many, and in which order.
- **`App` is a class.** `Downloader.App` holds the fields of `BeatmapDownloaderApp` that the model keeps.
  - The two channels become fields. `pendingControl` counts signals on `tx_control` not yet taken. `pendingUpdates` holds the deltas on `rx_update` not yet received.
  - `backgroundAlive` turns false when a failed fetch panics the background thread at its `unwrap`.
  - The background thread is run as explicit steps (`BackgroundStep`).
  - `Valid()` states the single-flight invariant: at most one fetch is in flight, and only while `isFetching`.
- **The worker pool runs one id after another.**
  - The producer's `HashSet` iteration is an arbitrary enumeration: every id exactly once, in any order.
  - The finish flag is raised only after every worker has run.
- **`download_file` takes the reply as input.** It receives the headers, the chunk sizes of the body and how the body stream ended, and returns every value it writes to the progress cell.
- **Progress is a `real`**, the exact ratio that the source computes in `f32`.
- **Foreign libraries are parameters.** The percent-decoding of the file name is an uninterpreted function. The rosu client's construction is an oracle.
- **`strfmt` is modelled as replacing every `{beatmap_id}` with the decimal id.** For the shipped templates this is what `strfmt` does.

## Model

| member | source | states |
|---|---|---|
| Numbers.DecimalString | src/downloader.rs:217 | the decimal rendering of an id is non-empty, all ASCII digits, and has no leading zero unless it is "0" |
| Numbers.ParseU32 | src/downloader.rs:117 | a token that parses is an optional '+' followed by ASCII digits only, and without the '+' its value is the value of its digits |
| Numbers.DigitsValueOfDecimal | src/downloader.rs:217 | reading the decimal rendering of n gives back n |
| Numbers.DecimalOfDigitsValue | src/downloader.rs:117 | a digit string without a leading zero is the decimal rendering of its value |
| Numbers.ParseDecimalRoundTrip | src/downloader.rs:117 | the u32 parse reads back the decimal rendering of every u32, with or without a leading '+' |
| Numbers.ParseRejects | src/downloader.rs:117 | the parse refuses the empty token, a lone '+', a '-' sign, any value above 4294967295, and any token without a leading '+' that is not all digits |
| Numbers.ParseLeadingZero | src/downloader.rs:117 | leading zeros do not change the parsed value |
| Text.FindFirst | src/downloader.rs:339 | the first occurrence of a pattern is an occurrence with none before it, and there is none exactly when the pattern does not occur |
| Text.ReplaceAll | src/downloader.rs:208-210 | a text in which the pattern's first character does not occur is left unchanged |
| Text.Render | src/downloader.rs:208-210 | a template without '{' renders to itself, whatever the id |
| Text.RenderSinglePlaceholder | src/downloader.rs:158-161 | a template with one `{beatmap_id}` and no other brace renders as prefix, decimal id, suffix |
| Client.Interpret | src/client/nerinyan.rs:27-36 | a reply succeeds exactly when it arrives with a 2xx status and a body that decodes; a non-2xx status is a status error |
| Settings.NewConfig | src/settings.rs:34-68 | the default table has exactly the five mirror names, each template holds `{beatmap_id}`, the selected server "nerinyan" is a key, the backend "nerinyan" is an offered option, 250 fetches (a multiple of 50), 5 downloads, id 0, empty secret and path |
| Launcher.CreateSearchClient | src/main.rs:30-45 | "nerinyan" and "osu" give their clients; "osu_api" gives a rosu client, or the connection's error as a client-creation error |
| Launcher.BackendOptionsAccepted | src/main.rs:34-44 | a name is accepted exactly when the configuration window offers it (and, for osu_api, the credentials connect); any other name is an "Unknown client type" error |
| Launcher.DefaultSearchClient | src/settings.rs:65 | the first-start configuration selects the Nerinyan client |
| Nerinyan.SearchUrlsAt | src/client/nerinyan.rs:17-20 | the k-th request of the page sequence is the search URL of page k |
| Nerinyan.SearchUrlInjective | src/client/nerinyan.rs:17-20 | different pages are requested with different URLs |
| Nerinyan.Search | src/client/nerinyan.rs:16-37 | a page succeeds exactly on a 2xx reply to its URL whose body decodes, and then with that body; a non-2xx status is a status error |
| Nerinyan.FetchNewSongs | src/client/nerinyan.rs:42-50 | requests are pages 0, 1, … in order, at most num/50; the call succeeds exactly when pages 0 .. num/50-1 all succeed, then with all of them, concatenated in order; otherwise it stops at the first failing page with that page's error |
| Nerinyan.PagesLength | src/client/nerinyan.rs:44-49 | full pages concatenate to 50 items per page |
| Nerinyan.TestNerinyanSearch | src/client.rs:25-35 | two full pages give exactly 100 songs for `fetch_new_songs(100)` |
| OsuWeb.NormalizeCursor | src/client/osu.rs:14-15 | an empty cursor string becomes no cursor; a non-empty one is kept |
| OsuWeb.SearchUrl | src/client/osu.rs:26-33 | no cursor renders as an empty `cursor_string`; a cursor is inserted verbatim |
| OsuWeb.Search | src/client/osu.rs:25-44 | a search succeeds exactly on a 2xx reply whose body decodes; it keeps the body's beatmap sets and its cursor with an empty string read as none; a non-2xx status is a status error |
| OsuWeb.ExtendChain | src/client/osu.rs:59 | following the cursor of the last reply keeps the request chain linked |
| OsuWeb.ExtendReceived | src/client/osu.rs:55 | one more successful page adds its beatmap sets at the end |
| OsuWeb.FetchNewSongs | src/client/osu.rs:49-62 | at most num/50 requests; the first has no cursor and each later one the previous reply's cursor; on success the result is every page in order, and fewer than num/50 requests means the last reply had no cursor; a failure is the last request's error |
| OsuWeb.ReceivedLength | src/client/osu.rs:51-55 | full pages concatenate to 50 items per page |
| OsuWeb.TestOsuSearch | src/client.rs:37-48 | full pages that always carry a cursor give exactly 100 songs for `fetch_new_songs(100)` |
| OsuApi.ToBeatmapsets | src/client/osu_api.rs:15-20 | each mapset becomes a beatmap set with its `mapset_id` as id and its title, in order |
| OsuApi.Rounds | src/client/osu_api.rs:14-29 | the rounds make at most one further search each, and a successful run of at least one round starts with the current page's mapsets |
| OsuApi.Fetch | src/client/osu_api.rs:6-31 | the initial search is always made and a failed one ends the call with its error; at most num/50 further searches follow; with at least one round, a success starts with the first page's mapsets |
| OsuApi.RoundPages | src/client/osu_api.rs:14-29 | the pages taken start with the current page, and there are at least one and at most `rounds` of them |
| OsuApi.RoundsPages | src/client/osu_api.rs:14-29 | for any pagination, the pages taken are linked by `get_next` and all but the last have more. One search is made per later page, plus one if `get_next` requests a page after the last. A last page without more ends the loop with every page's mapsets in order. After a last page with more, no next page is "failed to get next page" and a failed request is the call's error. A successful request happens only in the last round, and the result is then every page in order |
| OsuApi.RoundsPagesOne | src/client/osu_api.rs:21-28 | a page without more, the last round, or a `get_next` that brings no page takes only the current page, with the stop, the missing page or the error as the outcome |
| OsuApi.RoundsPagesStep | src/client/osu_api.rs:14-25 | a round that reaches a next page puts the current page in front of the pages taken after it |
| OsuApi.FetchPages | src/client/osu_api.rs:6-31 | after a successful initial search the call's result is that of the rounds from the initial page, with one search more |
| OsuApi.FetchNewSongs | src/client/osu_api.rs:6-31 | the searches made and the result equal those of the round-by-round definition `Fetch`; the initial search is always made, and with num/50 = 0 the result is empty or the initial error |
| OsuApi.PrependAssoc | src/client/osu_api.rs:15-19 | adding two pages' songs one after the other is adding their concatenation |
| OsuApi.RoundsAlwaysMore | src/client/osu_api.rs:14-29 | when every page has more, each round makes one further search, and the later pages' songs are collected in order |
| OsuApi.CollectLength | src/client/osu_api.rs:15-20 | pages of fifty mapsets give fifty songs each |
| OsuApi.TestOsuApiSearch | src/client.rs:50-63 | with a first page of fifty mapsets, and next pages that always arrive with fifty mapsets and more to come, `fetch_new_songs(100)` makes three searches and yields exactly 100 songs |
| SongIds.TrimStart | src/downloader.rs:116 | the result is a suffix, everything dropped is whitespace, and it does not start with whitespace |
| SongIds.TokenLength | src/downloader.rs:116 | the first token is whitespace-free and ends at whitespace or the end of the name |
| SongIds.FirstToken | src/downloader.rs:116 | the first token is non-empty and whitespace-free; there is none exactly when the name is all whitespace |
| SongIds.FirstTokenOf | src/downloader.rs:116 | after leading whitespace, a token followed by whitespace or the end is the first token |
| SongIds.ExtractSongId | src/downloader.rs:113-118 | a name that is all whitespace yields no id |
| SongIds.ExtractSongIdOf | src/downloader.rs:113-118 | after leading whitespace, a name yields exactly the u32 parse of its first whitespace-delimited token |
| SongIds.ExtractFromCatalogName | src/downloader.rs:113-118 | a folder named "<id> <title>", or just "<id>", yields that id |
| SongIds.ExtractRejects | src/downloader.rs:113-118 | a name whose first token starts with anything but a digit or '+' yields no id |
| Downloader.HarvestMembers | src/downloader.rs:123-129 | an id is collected from a listing exactly when some entry yields it |
| Downloader.Harvest | src/downloader.rs:123-129 | a listing yields at most one id per entry |
| Downloader.CatalogIds | src/downloader.rs:120-129 | the local set read from a folder has at most as many ids as the folder has entries |
| Downloader.CatalogIdsMembers | src/downloader.rs:113-129 | an id is in the catalog exactly when some entry's first token parses to it |
| Downloader.HarvestAll | src/downloader.rs:123-129 | when entry i yields ids[i], the listing gives exactly the set of those ids |
| Downloader.CatalogOfSongFolders | src/downloader.rs:113-129 | a Songs folder of "<id> <title>" entries gives exactly its ids |
| Downloader.ScanEntries | src/downloader.rs:123-129 | the loop ends with the old set united with the listing's ids |
| Downloader.ResetCells | src/downloader.rs:137-140 | every id of the update gets a 0.0 cell; other cells are kept; no other key is added |
| Downloader.Delta | src/downloader.rs:98-106 | the delta is exactly the fetched ids that are not local, and it is disjoint from the local set |
| Downloader.IdsRepeated | src/downloader.rs:101-104 | repeated ids in a search result collapse into one |
| Downloader.Enumerate | src/downloader.rs:228-230 | the producer's order holds every id of the set exactly once |
| Downloader.EnumerationFacts | src/downloader.rs:228-230 | such an order has one slot per id, only ids of the set, every id of the set, and no repeats |
| Downloader.AddMissingCells | src/downloader.rs:212-213 | every id of the batch ends with a cell; existing cells are kept; new cells are 0.0 |
| Downloader.RoundToPage | src/downloader.rs:260-269 | the fetch count becomes a multiple of 50, at most the old count and less than 50 below it |
| Downloader.RoundToPageIdempotent | src/downloader.rs:260-269 | rounding twice is rounding once |
| Downloader.DefaultFileName | src/downloader.rs:217 | the default name is "<id>.osz", and the catalog scan reads no id from such a name, since "<id>.osz" does not parse as a u32 |
| Downloader.Worker | src/downloader.rs:207-219 | a worker downloads its own id from the template rendered with that id |
| Downloader.WorkerFacts | src/downloader.rs:207-219 | a failed request gives no file, no progress and a request error; with no name header the file is "<id>.osz"; no file means no progress and a failure; the progress left is a fraction; with a file, progress is written exactly when the body has chunks, the download succeeds exactly when the stream ends cleanly, and the progress is 1.0 once the total is reached |
| Downloader.WorkerFraction | src/downloader.rs:213-219 | the progress a worker leaves in its cell is a fraction |
| Downloader.Workers | src/downloader.rs:207-221 | the workers' results for a queue are, position by position, the `Worker` of each queued id |
| Downloader.WorkersSnoc | src/downloader.rs:207-221 | one more queued id adds its worker's result at the end |
| Downloader.WorkStep | src/downloader.rs:207-219 | one worker's turn adds its `Worker` result, leaves a fraction, and sets exactly its own cell to its last progress value, or leaves it if none was written |
| Downloader.CellsKeptStep | src/downloader.rs:213-219 | writing a fraction into a queued cell adds no key and keeps every other cell |
| Downloader.CellsAfterStep | src/downloader.rs:207-221 | in a queue without repeats, one more download sets its own cell to its last progress value, or leaves it if none was written, and leaves every later cell as it was |
| Downloader.DownloadOne | src/downloader.rs:207-219 | a worker's download is exactly `Worker` of its id: the URL rendered with the id, the file name, the last progress value and the outcome of `download_file` on the reply to that URL |
| Downloader.RunWorkers | src/downloader.rs:207-221 | the workers panic exactly when some queued id has no cell; otherwise the downloads are each queued id's `Worker`, in queue order; no key is added, cells stay their old value or a fraction, and cells of ids not queued are kept; in a queue without repeats each queued cell ends at its download's last progress value, or its old value if none was written |
| Downloader.StartBatch | src/downloader.rs:195-237 | corrected batch: each id is sent exactly once, every id gets a cell, and cells outside the batch are kept; with workers, each sent id is downloaded by its `Worker`, its cell ends at its last progress value (from its old value or 0.0), and the finish flag is raised after the workers have run; with no workers there is no download, each batch cell is its old value or 0.0, and only an empty batch finishes |
| Downloader.StartBatchAsWritten | src/downloader.rs:195-237 | batch as the source has it: cells outside the batch are kept; with workers, it panics exactly when some id has no cell, and it finishes exactly when it does not panic, having downloaded each sent id into its cell's last progress value; with no workers nothing changes |
| Downloader.App.constructor | src/downloader.rs:37-84 | the fields start as `new` sets them, with the local set read from the listing, and the invariant holds |
| Downloader.App.Valid | src/downloader.rs:180-185 | under the invariant at most one signal and at most one delta are pending, and in download mode every listed id has a progress cell |
| Downloader.App.LoadSongsFromLocal | src/downloader.rs:120-130 | the local set grows by the listing's ids and loses nothing; no other field changes |
| Downloader.App.FindNewSongs | src/downloader.rs:180-185 | a signal is sent only when no fetch is in flight (and the background thread is alive); afterwards a fetch is in flight |
| Downloader.App.FindClicked | src/downloader.rs:293-297 | the Find button leaves download mode, clears every progress cell, then finds |
| Downloader.App.BackgroundStep | src/downloader.rs:95-110 | a waiting signal is taken; a successful fetch sends the delta against the local set; a failed fetch ends the thread; with no signal nothing changes |
| Downloader.App.ReceiveUpdate | src/downloader.rs:133-141 | a waiting delta replaces the listed songs, ends fetch and download mode, and gives each listed id a 0.0 cell, other cells kept; with none waiting nothing changes |
| Downloader.App.RoundFetchCount | src/downloader.rs:260-269 | the fetch count becomes its page-rounded value; nothing else changes |
| Downloader.App.SelectServer | src/downloader.rs:281-288 | the combo box sets the server to an offered key, so it stays a key of the table |
| Downloader.App.DownloadV2 | src/downloader.rs:187-239 | corrected `download_v2`: nothing in download mode; otherwise every listed id is sent exactly once and gets a cell, cells of unlisted ids are kept, each sent id is downloaded by its `Worker` from the selected server's template and its cell ends at its last progress value, and the finish flag is raised after the workers have run; the invariant is kept |
| Downloader.App.DownloadV2AsWritten | src/downloader.rs:187-239 | `download_v2` as written: every listed id is sent exactly once and cells of unlisted ids are kept; with workers, it panics exactly when a listed id has no cell, and then it never finishes; without a panic each sent id is downloaded into its cell's last progress value and the batch finishes |
| Downloader.FindTwiceSignalsOnce | src/downloader.rs:180-185 | two Find clicks before an answer send one signal |
| Downloader.FindAfterUpdate | src/downloader.rs:133-141 | a fetch, its update and a Find click leave song 7 listed with no progress cells |
| Downloader.DownloadAfterFindPanics | src/downloader.rs:212-213 | Download after that Find panics and never finishes |
| Downloader.DownloadAfterFindFinishes | src/downloader.rs:187-239 | with the correction, the same clicks download song 7 and finish |
| Transfer.Progress | src/downloader.rs:358-362 | progress is a fraction: downloaded/total below the total, and 1.0 at or past it, including an unknown total of 0 |
| Transfer.ProgressMonotone | src/downloader.rs:354-362 | more bytes downloaded never lowers the progress |
| Transfer.SplitSecond | src/downloader.rs:339 | the segment is taken from just after the first `filename=`: it is a prefix of the rest, holds no `filename=`, and ends at the next one or at the end; there is none exactly when the key does not occur |
| Transfer.SplitSecondOf | src/downloader.rs:339 | with a first `filename=` after a key-free prefix and a key-free rest, the segment is the rest |
| Transfer.TrimLeadingQuotes | src/downloader.rs:340 | only '"' characters are dropped from the front, and the result does not start with one |
| Transfer.TrimTrailingQuotes | src/downloader.rs:340 | only '"' characters are dropped from the back, and the result does not end with one |
| Transfer.TrimQuotes | src/downloader.rs:340 | a non-empty result neither starts nor ends with '"' |
| Transfer.QuoteFreeTrim | src/downloader.rs:340 | a quoted quote-free name is unquoted exactly |
| Transfer.FileName | src/downloader.rs:335-344 | with no header, a header that is not visible ASCII, or no `filename=`, the default name is kept |
| Transfer.FileNameFromQuotedHeader | src/downloader.rs:335-344 | the header `…filename="<name>"` names the file decode(<name>), or fails with the decode error |
| Transfer.DownloadFile | src/downloader.rs:316-370 | a failed request or name creates no file and writes no progress; otherwise the named file is created, one progress value is written per chunk as the fraction of bytes so far, and the call succeeds exactly when the stream ends cleanly; the values are fractions that never decrease and end at 1.0 once the total is reached |
| Transfer.StreamBody | src/downloader.rs:346-364 | the chunk loop writes, per chunk, the fraction of bytes so far; the values are fractions, never decrease, and end at 1.0 once the total is reached |
| PyDownloader.FormatOnce | downloader.py:37 | a template without `{}` is unchanged |
| PyDownloader.FormatOnceOf | downloader.py:37 | the first `{}` after a brace-free prefix is replaced by the beatmap |
| PyDownloader.BeatmapUrl | downloader.py:9 | the shipped base URL gives "https://api.nerinyan.moe/d/<beatmap>" |
| PyDownloader.QuoteFreeRun | downloader.py:26 | the run stops at the first '"' or at the end, and holds no '"' |
| PyDownloader.GroupAt | downloader.py:26-28 | a match's group is non-empty and quote-free |
| PyDownloader.SearchFrom | downloader.py:26 | the search finds the leftmost match at or after its start, or there is none |
| PyDownloader.GetFilenameSpec | downloader.py:20-29 | the name is non-empty and quote-free and is the group of the leftmost match; there is none exactly when the header is absent or holds no `filename="…"` match |
| PyDownloader.GetFilenameOf | downloader.py:20-29 | in `…filename="<name>"…` with no earlier match, the name is found |
| PyDownloader.QuoteFreeRunOf | downloader.py:26 | a quote-free text followed by '"' is one run |
| PyDownloader.GetFilename | downloader.py:20-29 | a name found is non-empty and quote-free; an absent header gives none |
| PyDownloader.FileName | downloader.py:44-46 | with no header the name is "<beatmap>.<extension>"; any other name is a non-empty, quote-free name from the header |
| PyDownloader.Schedule | downloader.py:35-62 | an attempt within the retry limit starts with a request to the URL, and a save can only be the last event |
| PyDownloader.DownloadFile | downloader.py:33-62 | the events of the call (requests, the save, the sleeps) are the schedule of attempts 1 to 3 with the URL formatted once |
| PyDownloader.TryOnce | downloader.py:36-62 | one attempt succeeds exactly on a 200 answer and is then the last; otherwise its events followed by later attempts' are the schedule |
| PyDownloader.FailedAttempt | downloader.py:53-62 | a failed attempt before the last is a request and a 30-second sleep, then the next attempt |
| PyDownloader.SucceededAttempt | downloader.py:42-52 | a 200 attempt is a request and a save under the chosen name, with nothing after |
| PyDownloader.LastAttemptFails | downloader.py:59-62 | a failed third attempt is a request with no sleep after it |
| PyDownloader.FirstAttemptSucceeds | downloader.py:42-52 | a 200 on the first attempt: one request, then the save |
| PyDownloader.SecondAttemptSucceeds | downloader.py:35-62 | a 200 on the second attempt: request, sleep, request, save |
| PyDownloader.ThirdAttemptSucceeds | downloader.py:35-62 | a 200 on the third attempt: three requests with two sleeps between, then the save |
| PyDownloader.AllAttemptsFail | downloader.py:35-62 | three failures: three requests with two sleeps between, no save, and the call returns without raising |
| PyDownloader.CountsCons | downloader.py:35-62 | counting requests and sleeps distributes over one more event |
| PyDownloader.RetryCounts | downloader.py:35-62 | the three request prefixes count one, two and three requests and zero, one and two sleeps |
| PyDownloader.NoRequestOrSleepCounts | downloader.py:42-52 | a tail of saves holds no request and no sleep |
| PyDownloader.DownloadCounts | downloader.py:15-17 | every call makes one to three requests and sleeps exactly once fewer than it requests |
| PyDownloader.DownloadSaves | downloader.py:42-52 | only the last event can be a save, and it is one exactly when some attempt gets a 200 |

## Left out

- The egui/eframe rendering is UI and is not modelled: widgets, the song grid, progress bars, `ConfigApp::update` and the folder dialog. `SelectServer` keeps only what the combo box promises.
- Threads, channels, `RwLock`s, the 10 ms poll sleep and the bounded(5) queue are concurrency. The model runs the background thread and the workers as sequential steps.
- The `Arc` sharing of progress cells is not modelled. After a Find reset, workers of an earlier batch go on writing to the old cells; the model has a single map.
- HTTP (reqwest, aiohttp), tokio's `block_on` and the rosu_v2 client are network I/O and foreign code. They are oracle parameters.
- File I/O is not modelled: `fs::read_dir`, `File::create`/`write_all`, the YAML config read and write, `check_config_file`, the Python script's `open`/`write` and `os.makedirs`. Listings are `seq<string>`. `Transfer.DownloadFile` reports the file name it would create.
- `f32` arithmetic is not modelled; progress is an exact `real`.
- `Transfer.DownloadFile`: the `u64` byte counter is unbounded, so its wrap-around past 2^64 bytes is not modelled.
- `urlencoding::decode` is a foreign function and is an uninterpreted parameter (`Decode`). So is the `to_str` failure of a header, which the model reads as "not visible ASCII".
- `strfmt` is modelled as replacing every `{beatmap_id}`. Its other features (escaped braces, other keys, errors) are not: the shipped templates use only `{beatmap_id}`.
- `crate::utils::empty_string_as_none` is not part of this model. `OsuWeb.NormalizeCursor` turns an empty cursor string into no cursor, as its name says.
- Panics at `unwrap()` that the model covers are explicit outcomes, not preconditions. A failed fetch ends the background thread, and a missing progress cell panics a worker and its join. The `unwrap` on `server.get(&selected_server)` becomes the precondition `selectedServer in server` on `DownloadV2`, which `Settings.NewConfig` and `App.SelectServer` establish.
- The `unwrap()` on `File::create(dest_path)` (src/downloader.rs:352) and on `write_all` (src/downloader.rs:367) are not modelled, since file I/O is not. In the source, either panic kills the worker, and with it the join (233) or a later send (229).
- `Downloader.StartBatch`: file creation and every write are taken to succeed, so "with workers the batch finishes" holds only when they do. A header `filename=""`, for example, names the folder itself, and creating that file fails in the source.
- `Downloader.App.DownloadV2`: the same assumption applies: the finish flag is raised with workers only when every file is created and written.
- `Downloader.App.RoundFetchCount`: the page count after the drag widget is taken as `n / 50`, unchanged. A value the user drags it to, and the `u32` overflow of `number_of_page * 50` at src/downloader.rs:269, are UI input and are not modelled.
- `Downloader.StartBatch`: with no workers, a batch of five ids or fewer races in the source. The producer may fail its first send, or its sends may succeed while the queue has room, and then the batch finishes. The model takes the first branch: no download happens, and only an empty batch finishes.
- `Downloader.App.DownloadV2`: a download's own error is ignored, as in the source, and its file name is not carried back into the app state.
- `download_concurrently` in downloader.py is not modelled: its semaphore and `asyncio.gather` are concurrency. Each id is handled by `PyDownloader.DownloadFile` on its own. The script's top-level reading of `output` is file I/O.
- Printing in downloader.py is output only and is not modelled.
- `os.path.join` is not modelled: a saved file is recorded as its (folder, name) pair.
- `PyDownloader.DownloadFile`: the URL template is a parameter. `PyDownloader.BeatmapUrl` proves what the shipped constant gives.
- `PyDownloader.DownloadFile`: an exception while reading the body or writing the file counts as a raised attempt, like any other exception in the `try` block.
- `PyDownloader.FormatOnce`: only a template with a single `{}` field is modelled. Numbered fields such as `{0}`, escaped braces `{{` and the errors of `str.format` are not; the shipped template has one `{}`.
- `PyDownloader.GetFilename` is modelled for the one regular expression `filename="([^"]+)"`. Python's general `re` engine is not modelled.
- `Transfer.TrimQuotes` is stated only at its ends: the result neither starts nor ends with '"', and `QuoteFreeTrim` gives its exact value for a quoted quote-free name. That it drops nothing but quotes is proved for each half (`TrimLeadingQuotes`, `TrimTrailingQuotes`), not for the composition.
- build.rs compiles a Windows resource and is not modelled.

## Findings

| source | as written | input that shows it | evidently intended | confidence | as-written member | corrected member |
|---|---|---|---|---|---|---|
| src/downloader.rs:187-239 | "Find new beatmaps" empties the progress map (293-297) but leaves `new_songs` listed until the next answer arrives. A Download click in between starts workers that `unwrap` a missing progress cell (213) and panic, the producer's `join().unwrap()` (233) panics, and `is_download_finish` (235-236) is never set back to true. In the same frame the GUI thread itself unwraps the missing cell (164-166), since `is_download` is now true. Once every worker has panicked, a send still pending fails, so the producer's `send(...).unwrap()` (229) can panic even before the join | fetch one new song (id 7), receive it, click Find, then click Download before the new answer arrives | every id of the batch has a progress cell when the workers start, so the batch runs and the finish flag is raised | not executed | Downloader.App.DownloadV2AsWritten, Downloader.DownloadAfterFindPanics | Downloader.App.DownloadV2, Downloader.DownloadAfterFindFinishes |
