/**
 * The standalone Python downloader: the retry schedule of `download_file`, the file name
 * taken from a `filename="..."` parameter of Content-Disposition, and the URL template.
 */
module PyDownloader {

  import opened Wrappers
  import opened Text

  /** Attempts per beatmap. */
  const MaxRetries: nat := 3
  /** Seconds slept after a failed attempt that is not the last. */
  const RetryDelay: nat := 30
  const BeatmapBaseUrl: string := "https://api.nerinyan.moe/d/{}"
  const Extension: string := "osz"

  // ---------------------------------------------------------------- URL

  /** `template.format(arg)` for a template whose only replacement field is one `{}`. */
  function FormatOnce(template: string, arg: string): (r: string)
    ensures !Occurs("{}", template) ==> r == template
  {
    match FindFirst(template, "{}")
    case None => template
    case Some(i) => template[..i] + arg + template[i + 2..]
  }

  /** A template "<prefix>{}<suffix>" with no brace before the field becomes "<prefix><arg><suffix>". */
  lemma FormatOnceOf(prefix: string, suffix: string, arg: string)
    requires '{' !in prefix
    ensures FormatOnce(prefix + "{}" + suffix, arg) == prefix + arg + suffix
  {
    var t := prefix + "{}" + suffix;
    assert t[|prefix|..|prefix| + 2] == "{}";
    assert OccursAt(t, "{}", |prefix|);
    forall j | 0 <= j < |prefix| ensures !OccursAt(t, "{}", j) {
      assert t[j] == prefix[j];
    }
    assert t[..|prefix|] == prefix && t[|prefix| + 2..] == suffix;
  }

  /** The URL every attempt for `beatmap` requests. */
  lemma BeatmapUrl(beatmap: string)
    ensures FormatOnce(BeatmapBaseUrl, beatmap) == "https://api.nerinyan.moe/d/" + beatmap
  {
    assert BeatmapBaseUrl == "https://api.nerinyan.moe/d/" + "{}" + "";
    FormatOnceOf("https://api.nerinyan.moe/d/", "", beatmap);
    assert "https://api.nerinyan.moe/d/" + beatmap + "" == "https://api.nerinyan.moe/d/" + beatmap;
  }

  // ---------------------------------------------------------------- file name

  const NameKey: string := "filename=\""

  /** The length of the longest prefix of `s` without a double quote. */
  function QuoteFreeRun(s: string): (n: nat)
    ensures n <= |s| && '"' !in s[..n]
    ensures n < |s| ==> s[n] == '"'
  {
    if s == [] || s[0] == '"' then 0
    else
      var n := 1 + QuoteFreeRun(s[1..]);
      assert s[..n] == [s[0]] + s[1..][..n - 1];
      n
  }

  /** The pattern `filename="([^"]+)"` matches at `i`. */
  predicate MatchAt(s: string, i: nat)
  {
    && OccursAt(s, NameKey, i)
    && var rest := s[i + |NameKey|..];
       0 < QuoteFreeRun(rest) < |rest|
  }

  /** The group of a match at `i`: the quote-free run after `filename="`. */
  function GroupAt(s: string, i: nat): (g: string)
    requires MatchAt(s, i)
    ensures g != [] && '"' !in g
  {
    var rest := s[i + |NameKey|..];
    rest[..QuoteFreeRun(rest)]
  }

  /** `re.search` from position `i`: the leftmost match at or after `i`. */
  function SearchFrom(s: string, i: nat): (r: Option<nat>)
    requires i <= |s|
    ensures r.Some? ==> i <= r.value <= |s| && MatchAt(s, r.value)
    ensures r.Some? ==> forall j | i <= j < r.value :: !MatchAt(s, j)
    ensures r.None? ==> forall j | i <= j <= |s| :: !MatchAt(s, j)
    decreases |s| - i
  {
    if MatchAt(s, i) then Some(i)
    else if i == |s| then None
    else SearchFrom(s, i + 1)
  }

  /** `get_filename_from_response` on the Content-Disposition header, if any. */
  function GetFilename(contentDisposition: Option<string>): (r: Option<string>)
    ensures r.Some? ==> r.value != [] && '"' !in r.value
    ensures contentDisposition.None? ==> r.None?
  {
    match contentDisposition
    case None => None
    case Some(header) =>
      if header == [] then None
      else match SearchFrom(header, 0)
        case None => None
        case Some(i) => Some(GroupAt(header, i))
  }

  /**
   * The name found is non-empty and quote-free, and is the group of the leftmost match;
   * there is none exactly when the header is absent or holds no match.
   */
  lemma GetFilenameSpec(contentDisposition: Option<string>)
    ensures var r := GetFilename(contentDisposition);
      && (r.Some? ==> r.value != [] && '"' !in r.value)
      && (r.None? <==>
           (contentDisposition.None? || forall j | 0 <= j <= |contentDisposition.value| :: !MatchAt(contentDisposition.value, j)))
      && (r.Some? ==> exists i | 0 <= i <= |contentDisposition.value| ::
           MatchAt(contentDisposition.value, i) && r.value == GroupAt(contentDisposition.value, i)
           && forall j | 0 <= j < i :: !MatchAt(contentDisposition.value, j))
  {
    if contentDisposition.Some? {
      var header := contentDisposition.value;
      if header == [] {
        assert !MatchAt(header, 0);
      } else if SearchFrom(header, 0).Some? {
        var i := SearchFrom(header, 0).value;
        assert MatchAt(header, i) && GetFilename(contentDisposition) == Some(GroupAt(header, i));
      }
    }
  }

  /** The first well-formed `filename="..."` wins; text before it holds no match. */
  lemma GetFilenameOf(prefix: string, name: string, suffix: string)
    requires name != [] && '"' !in name
    requires forall j | 0 <= j < |prefix| :: !MatchAt(prefix + NameKey + name + "\"" + suffix, j)
    ensures GetFilename(Some(prefix + NameKey + name + "\"" + suffix)) == Some(name)
  {
    var h := prefix + NameKey + name + "\"" + suffix;
    var rest := name + "\"" + suffix;
    assert h[|prefix|..|prefix| + |NameKey|] == NameKey;
    assert h[|prefix| + |NameKey|..] == rest;
    QuoteFreeRunOf(name, "\"" + suffix);
    assert rest == name + ("\"" + suffix);
    assert MatchAt(h, |prefix|);
    assert rest[..|name|] == name;
  }

  lemma {:induction false} QuoteFreeRunOf(a: string, b: string)
    requires '"' !in a && b != [] && b[0] == '"'
    ensures QuoteFreeRun(a + b) == |a|
  {
    if a != [] {
      assert (a + b)[1..] == a[1..] + b;
      QuoteFreeRunOf(a[1..], b);
    } else {
      assert a + b == b;
    }
  }

  /**
   * The name the file is saved under: the header's name, else "<beatmap>.<extension>";
   * a name taken from the header is non-empty and quote-free.
   */
  function FileName(contentDisposition: Option<string>, beatmap: string, extension: string): (r: string)
    ensures contentDisposition.None? ==> r == beatmap + "." + extension
    ensures r == beatmap + "." + extension || (r != [] && '"' !in r)
  {
    match GetFilename(contentDisposition)
    case Some(n) => n
    case None => beatmap + "." + extension
  }

  // ---------------------------------------------------------------- retries

  /** How one attempt went: an HTTP answer, or an exception raised on the way. */
  datatype Attempt =
    | Answered(status: int, contentDisposition: Option<string>)
    | Raised(message: string)

  /** What `download_file` does that can be seen from outside. */
  datatype Event =
    | Get(url: string)
    | Saved(folder: string, name: string)
    | Sleep(seconds: nat)

  predicate Succeeded(a: Attempt) { a.Answered? && a.status == 200 }

  /**
   * The events of attempts `attempt` to MaxRetries, where `outcome(k)` is how attempt `k`
   * goes: a 200 answer saves the file and ends the call; any other answer or an exception is
   * followed by a sleep, except after the last attempt.
   */
  function Schedule(outcome: nat -> Attempt, url: string, folder: string, beatmap: string, extension: string, attempt: nat): (r: seq<Event>)
    ensures attempt <= MaxRetries ==> r != [] && r[0] == Get(url)
    ensures forall k | 0 <= k < |r| && r[k].Saved? :: k == |r| - 1
    decreases MaxRetries + 1 - attempt
  {
    if attempt > MaxRetries then []
    else if Succeeded(outcome(attempt)) then
      [Get(url), Saved(folder, FileName(outcome(attempt).contentDisposition, beatmap, extension))]
    else if attempt < MaxRetries then
      [Get(url), Sleep(RetryDelay)] + Schedule(outcome, url, folder, beatmap, extension, attempt + 1)
    else
      [Get(url)] + Schedule(outcome, url, folder, beatmap, extension, attempt + 1)
  }

  /**
   * `download_file(session, beatmap, dest_folder, extension)`, with the module's URL template
   * `baseUrl` (BeatmapBaseUrl as shipped) passed in.
   */
  method DownloadFile(outcome: nat -> Attempt, baseUrl: string, beatmap: string, folder: string, extension: string)
    returns (events: seq<Event>)
    ensures events == Schedule(outcome, FormatOnce(baseUrl, beatmap), folder, beatmap, extension, 1)
  {
    events := [];
    var url := FormatOnce(baseUrl, beatmap);
    var attempt := 1;
    while attempt <= MaxRetries
      invariant 1 <= attempt <= MaxRetries + 1
      invariant events + Schedule(outcome, url, folder, beatmap, extension, attempt)
        == Schedule(outcome, url, folder, beatmap, extension, 1)
      decreases MaxRetries + 1 - attempt
    {
      var step, done := TryOnce(outcome, url, folder, beatmap, extension, attempt);
      if done {
        events := events + step;
        return;
      }
      AppendAssoc(events, step, Schedule(outcome, url, folder, beatmap, extension, attempt + 1));
      events := events + step;
      attempt := attempt + 1;
    }
    assert Schedule(outcome, url, folder, beatmap, extension, attempt) == [];
    assert events + [] == events;
  }

  /**
   * One pass of the loop body for attempt `attempt`: `done` when the attempt saved the
   * file and the call returns.
   */
  method TryOnce(outcome: nat -> Attempt, url: string, folder: string, beatmap: string, extension: string, attempt: nat)
    returns (step: seq<Event>, done: bool)
    requires 1 <= attempt <= MaxRetries
    ensures done <==> Succeeded(outcome(attempt))
    ensures done ==> step == Schedule(outcome, url, folder, beatmap, extension, attempt)
    ensures !done ==>
      (step + Schedule(outcome, url, folder, beatmap, extension, attempt + 1)
         == Schedule(outcome, url, folder, beatmap, extension, attempt))
  {
    step := [Get(url)];
    var a := outcome(attempt);
    if a.Answered? && a.status == 200 {
      var name := FileName(a.contentDisposition, beatmap, extension);
      step := step + [Saved(folder, name)];
      SucceededAttempt(outcome, url, folder, beatmap, extension, attempt);
      return step, true;
    }
    if attempt < MaxRetries {
      step := step + [Sleep(RetryDelay)];
      FailedAttempt(outcome, url, folder, beatmap, extension, attempt);
    } else {
      LastAttemptFails(outcome, url, folder, beatmap, extension);
      assert Schedule(outcome, url, folder, beatmap, extension, attempt + 1) == [];
    }
    done := false;
  }

  /** Concatenation is associative. */
  lemma AppendAssoc<T>(a: seq<T>, b: seq<T>, c: seq<T>)
    ensures a + b + c == a + (b + c)
  {
  }

  /** The event of saving the answer to attempt `k`. */
  function SavedAt(outcome: nat -> Attempt, folder: string, beatmap: string, extension: string, k: nat): Event
    requires outcome(k).Answered?
  {
    Saved(folder, FileName(outcome(k).contentDisposition, beatmap, extension))
  }

  /** A failed attempt that is not the last: one request, one sleep, then the next attempt. */
  lemma FailedAttempt(outcome: nat -> Attempt, url: string, folder: string, beatmap: string, extension: string, k: nat)
    requires 1 <= k < MaxRetries && !Succeeded(outcome(k))
    ensures Schedule(outcome, url, folder, beatmap, extension, k)
      == [Get(url), Sleep(RetryDelay)] + Schedule(outcome, url, folder, beatmap, extension, k + 1)
  {
  }

  /** An attempt that gets a 200: one request, then the save, and nothing after. */
  lemma SucceededAttempt(outcome: nat -> Attempt, url: string, folder: string, beatmap: string, extension: string, k: nat)
    requires 1 <= k <= MaxRetries && Succeeded(outcome(k))
    ensures Schedule(outcome, url, folder, beatmap, extension, k)
      == [Get(url), SavedAt(outcome, folder, beatmap, extension, k)]
  {
  }

  /** The last attempt, failed: one request and no sleep. */
  lemma LastAttemptFails(outcome: nat -> Attempt, url: string, folder: string, beatmap: string, extension: string)
    requires !Succeeded(outcome(MaxRetries))
    ensures Schedule(outcome, url, folder, beatmap, extension, MaxRetries) == [Get(url)]
  {
    assert Schedule(outcome, url, folder, beatmap, extension, MaxRetries + 1) == [];
    assert [Get(url)] + [] == [Get(url)];
  }

  /** A first answer of 200 saves at once: one request, no sleep, no further attempt. */
  lemma FirstAttemptSucceeds(outcome: nat -> Attempt, url: string, folder: string, beatmap: string, extension: string)
    requires Succeeded(outcome(1))
    ensures Schedule(outcome, url, folder, beatmap, extension, 1)
      == [Get(url), SavedAt(outcome, folder, beatmap, extension, 1)]
  {
    SucceededAttempt(outcome, url, folder, beatmap, extension, 1);
  }

  /** A failed first attempt and a 200 on the second: a sleep of RetryDelay between the two requests. */
  lemma SecondAttemptSucceeds(outcome: nat -> Attempt, url: string, folder: string, beatmap: string, extension: string)
    requires !Succeeded(outcome(1)) && Succeeded(outcome(2))
    ensures Schedule(outcome, url, folder, beatmap, extension, 1)
      == [Get(url), Sleep(RetryDelay), Get(url), SavedAt(outcome, folder, beatmap, extension, 2)]
  {
    FailedAttempt(outcome, url, folder, beatmap, extension, 1);
    SucceededAttempt(outcome, url, folder, beatmap, extension, 2);
  }

  /** Two failures and a 200 on the last attempt: two sleeps, three requests, then the save. */
  lemma ThirdAttemptSucceeds(outcome: nat -> Attempt, url: string, folder: string, beatmap: string, extension: string)
    requires !Succeeded(outcome(1)) && !Succeeded(outcome(2)) && Succeeded(outcome(3))
    ensures Schedule(outcome, url, folder, beatmap, extension, 1)
      == [Get(url), Sleep(RetryDelay), Get(url), Sleep(RetryDelay), Get(url), SavedAt(outcome, folder, beatmap, extension, 3)]
  {
    FailedAttempt(outcome, url, folder, beatmap, extension, 1);
    FailedAttempt(outcome, url, folder, beatmap, extension, 2);
    SucceededAttempt(outcome, url, folder, beatmap, extension, 3);
  }

  /** Three failures: three requests with a sleep of RetryDelay between each two, no file, no error. */
  lemma AllAttemptsFail(outcome: nat -> Attempt, url: string, folder: string, beatmap: string, extension: string)
    requires !Succeeded(outcome(1)) && !Succeeded(outcome(2)) && !Succeeded(outcome(3))
    ensures Schedule(outcome, url, folder, beatmap, extension, 1)
      == [Get(url), Sleep(RetryDelay), Get(url), Sleep(RetryDelay), Get(url)]
  {
    FailedAttempt(outcome, url, folder, beatmap, extension, 1);
    FailedAttempt(outcome, url, folder, beatmap, extension, 2);
    LastAttemptFails(outcome, url, folder, beatmap, extension);
  }

  /** The number of requests in `events`. */
  function Gets(events: seq<Event>): nat
  {
    if events == [] then 0 else Gets(events[1..]) + if events[0].Get? then 1 else 0
  }

  /** The number of sleeps in `events`. */
  function Sleeps(events: seq<Event>): nat
  {
    if events == [] then 0 else Sleeps(events[1..]) + if events[0].Sleep? then 1 else 0
  }

  lemma CountsCons(e: Event, rest: seq<Event>)
    ensures Gets([e] + rest) == Gets(rest) + (if e.Get? then 1 else 0)
    ensures Sleeps([e] + rest) == Sleeps(rest) + (if e.Sleep? then 1 else 0)
  {
    assert ([e] + rest)[1..] == rest;
  }

  /** `n` failed attempts, each followed by a sleep, then one more request: n + 1 requests, n sleeps. */
  lemma RetryCounts(url: string, rest: seq<Event>)
    requires NoRequestOrSleep(rest)
    ensures Gets([Get(url)] + rest) == 1 && Sleeps([Get(url)] + rest) == 0
    ensures Gets([Get(url), Sleep(RetryDelay), Get(url)] + rest) == 2
    ensures Sleeps([Get(url), Sleep(RetryDelay), Get(url)] + rest) == 1
    ensures Gets([Get(url), Sleep(RetryDelay), Get(url), Sleep(RetryDelay), Get(url)] + rest) == 3
    ensures Sleeps([Get(url), Sleep(RetryDelay), Get(url), Sleep(RetryDelay), Get(url)] + rest) == 2
  {
    var g, z := Get(url), Sleep(RetryDelay);
    NoRequestOrSleepCounts(rest);
    CountsCons(g, rest);
    CountsCons(z, [g] + rest);
    CountsCons(g, [z] + ([g] + rest));
    CountsCons(z, [g] + ([z] + ([g] + rest)));
    CountsCons(g, [z] + ([g] + ([z] + ([g] + rest))));
    assert [g, z, g] + rest == [g] + ([z] + ([g] + rest));
    assert [g, z, g, z, g] + rest == [g] + ([z] + ([g] + ([z] + ([g] + rest))));
  }

  predicate NoRequestOrSleep(events: seq<Event>) { forall k | 0 <= k < |events| :: events[k].Saved? }

  lemma {:induction false} NoRequestOrSleepCounts(events: seq<Event>)
    requires NoRequestOrSleep(events)
    ensures Gets(events) == 0 && Sleeps(events) == 0
  {
    if events != [] {
      NoRequestOrSleepCounts(events[1..]);
    }
  }

  /** The whole call makes one to three requests, and sleeps once fewer than it requests. */
  lemma DownloadCounts(outcome: nat -> Attempt, url: string, folder: string, beatmap: string, extension: string)
    ensures var s := Schedule(outcome, url, folder, beatmap, extension, 1);
      1 <= Gets(s) <= MaxRetries && Sleeps(s) == Gets(s) - 1
  {
    var g, z := Get(url), Sleep(RetryDelay);
    if Succeeded(outcome(1)) {
      FirstAttemptSucceeds(outcome, url, folder, beatmap, extension);
      var n := SavedAt(outcome, folder, beatmap, extension, 1);
      RetryCounts(url, [n]);
      assert [g, n] == [g] + [n];
    } else if Succeeded(outcome(2)) {
      SecondAttemptSucceeds(outcome, url, folder, beatmap, extension);
      var n := SavedAt(outcome, folder, beatmap, extension, 2);
      RetryCounts(url, [n]);
      assert [g, z, g, n] == [g, z, g] + [n];
    } else if Succeeded(outcome(3)) {
      ThirdAttemptSucceeds(outcome, url, folder, beatmap, extension);
      var n := SavedAt(outcome, folder, beatmap, extension, 3);
      RetryCounts(url, [n]);
      assert [g, z, g, z, g, n] == [g, z, g, z, g] + [n];
    } else {
      AllAttemptsFail(outcome, url, folder, beatmap, extension);
      RetryCounts(url, []);
      assert [g, z, g, z, g] + [] == [g, z, g, z, g];
    }
  }

  /** The whole call saves only as its very last event, and saves exactly when some attempt gets a 200. */
  lemma DownloadSaves(outcome: nat -> Attempt, url: string, folder: string, beatmap: string, extension: string)
    ensures var s := Schedule(outcome, url, folder, beatmap, extension, 1);
      && (forall k | 0 <= k < |s| - 1 :: !s[k].Saved?)
      && (s[|s| - 1].Saved? <==> exists k | 1 <= k <= MaxRetries :: Succeeded(outcome(k)))
  {
    if Succeeded(outcome(1)) {
      FirstAttemptSucceeds(outcome, url, folder, beatmap, extension);
    } else if Succeeded(outcome(2)) {
      SecondAttemptSucceeds(outcome, url, folder, beatmap, extension);
    } else if Succeeded(outcome(3)) {
      ThirdAttemptSucceeds(outcome, url, folder, beatmap, extension);
    } else {
      AllAttemptsFail(outcome, url, folder, beatmap, extension);
    }
  }
}
