/**
 * `download_file`: one streaming GET whose body is written under a name taken from the
 * Content-Disposition header or defaulted to "<id>.osz", with the download's completion
 * fraction written after every chunk.
 */
module Transfer {

  import opened Wrappers
  import opened Numbers
  import opened Text

  // ---------------------------------------------------------------- progress

  /**
   * The fraction written after each chunk: `downloaded / total` while less than the total,
   * 1.0 from then on. An unknown Content-Length counts as a total of 0. Exact rationals
   * stand in for the source's `f32`.
   */
  function Progress(downloaded: nat, total: nat): (p: real)
    ensures 0.0 <= p <= 1.0
    ensures downloaded >= total ==> p == 1.0
    ensures downloaded < total ==> p * (total as real) == downloaded as real
  {
    if downloaded < total then (downloaded as real) / (total as real) else 1.0
  }

  /** More bytes never mean less progress. */
  lemma ProgressMonotone(d1: nat, d2: nat, total: nat)
    requires d1 <= d2
    ensures Progress(d1, total) <= Progress(d2, total)
  {
    if d2 < total {
      var t := total as real;
      assert (d2 as real) / t - (d1 as real) / t == ((d2 - d1) as real) / t;
    }
  }

  function Sum(sizes: seq<nat>): nat
  {
    if sizes == [] then 0 else Sum(sizes[..|sizes| - 1]) + sizes[|sizes| - 1]
  }

  // ---------------------------------------------------------------- file name

  /** Content-Disposition yields a `&str` only if it holds visible ASCII (or tabs). */
  predicate VisibleAscii(s: string)
  {
    forall i | 0 <= i < |s| :: s[i] == '\t' || ' ' <= s[i] <= '~'
  }

  const FilenameKey: string := "filename="

  /**
   * `s.split(pat).nth(1)`: the text after the first occurrence of `pat`, up to the next
   * occurrence or the end.
   */
  function SplitSecond(s: string, pat: string): (r: Option<string>)
    requires pat != []
    ensures r.None? <==> !Occurs(pat, s)
    ensures r.Some? ==> !Occurs(pat, r.value)
    ensures r.Some? ==> FindFirst(s, pat).Some?
    ensures r.Some? ==>
      (var rest := s[FindFirst(s, pat).value + |pat|..];
       && r.value <= rest
       && (forall j | 0 <= j < |r.value| :: !OccursAt(rest, pat, j))
       && (|r.value| == |rest| || OccursAt(rest, pat, |r.value|)))
  {
    match FindFirst(s, pat)
    case None => None
    case Some(i) =>
      var rest := s[i + |pat|..];
      match FindFirst(rest, pat)
      case None => Some(rest)
      case Some(j) =>
        assert !Occurs(pat, rest[..j]) by {
          forall k | OccursAt(rest[..j], pat, k) ensures false {
            assert k + |pat| <= j;
            assert rest[..j][k..k + |pat|] == rest[k..k + |pat|];
            assert OccursAt(rest, pat, k);
          }
        }
        Some(rest[..j])
  }

  lemma SplitSecondOf(a: string, pat: string, b: string)
    requires pat != []
    requires forall j | 0 <= j < |a| :: !OccursAt(a + pat + b, pat, j)
    requires !Occurs(pat, b)
    ensures SplitSecond(a + pat + b, pat) == Some(b)
  {
    var s := a + pat + b;
    assert s[|a|..|a| + |pat|] == pat;
    assert OccursAt(s, pat, |a|);
    var i := FindFirst(s, pat).value;
    assert i == |a|;
    assert s[i + |pat|..] == b;
  }

  /** `trim_start_matches('"')`. */
  function TrimLeadingQuotes(s: string): (r: string)
    ensures |r| <= |s| && r == s[|s| - |r|..]
    ensures forall i | 0 <= i < |s| - |r| :: s[i] == '"'
    ensures r != [] ==> r[0] != '"'
  {
    if s != [] && s[0] == '"' then TrimLeadingQuotes(s[1..]) else s
  }

  /** `trim_end_matches('"')`. */
  function TrimTrailingQuotes(s: string): (r: string)
    ensures |r| <= |s| && r == s[..|r|]
    ensures forall i | |r| <= i < |s| :: s[i] == '"'
    ensures r != [] ==> r[|r| - 1] != '"'
  {
    if s != [] && s[|s| - 1] == '"' then TrimTrailingQuotes(s[..|s| - 1]) else s
  }

  /** `trim_matches('"')`: every leading and trailing quote removed. */
  function TrimQuotes(s: string): (r: string)
    ensures r != [] ==> r[0] != '"' && r[|r| - 1] != '"'
  {
    TrimTrailingQuotes(TrimLeadingQuotes(s))
  }

  lemma QuoteFreeTrim(name: string)
    requires '"' !in name
    ensures TrimQuotes("\"" + name + "\"") == name
  {
    var s := "\"" + name + "\"";
    assert s[1..] == name + "\"";
    if name == [] {
      assert s == "\"\"";
      assert TrimLeadingQuotes(s) == TrimLeadingQuotes("\"");
      assert "\""[1..] == [];
    } else {
      assert (name + "\"")[0] == name[0];
      assert TrimLeadingQuotes(name + "\"") == name + "\"";
      assert (name + "\"")[..|name|] == name;
      assert TrimTrailingQuotes(name + "\"") == TrimTrailingQuotes(name);
    }
  }

  datatype DownloadError =
    | Request(cause: string)   // sending the GET or reading its headers failed
    | Name(cause: string)      // the header's file name is not valid percent-encoded UTF-8
    | Stream(cause: string)    // reading a body chunk failed

  /** Percent-decoding of the file name; a foreign function, left uninterpreted. */
  type Decode = string -> Result<string, string>

  /** The file name `download_file` writes to. */
  function FileName(disposition: Option<string>, defaultName: string, decode: Decode): (r: Result<string, DownloadError>)
    ensures disposition.None? ==> r == Success(defaultName)
    ensures disposition.Some? && (!VisibleAscii(disposition.value) || !Occurs(FilenameKey, disposition.value))
      ==> r == Success(defaultName)
  {
    match disposition
    case None => Success(defaultName)
    case Some(header) =>
      if !VisibleAscii(header) then Success(defaultName)
      else match SplitSecond(header, FilenameKey)
        case None => Success(defaultName)
        case Some(segment) =>
          match decode(TrimQuotes(segment))
          case Success(name) => Success(name)
          case Failure(e) => Failure(Name(e))
  }

  /**
   * The usual header `attachment; filename="<name>"` names the file `decode(<name>)`.
   */
  lemma FileNameFromQuotedHeader(prefix: string, name: string, defaultName: string, decode: Decode)
    requires VisibleAscii(prefix + FilenameKey + "\"" + name + "\"")
    requires forall j | 0 <= j < |prefix| :: !OccursAt(prefix + FilenameKey + ("\"" + name + "\""), FilenameKey, j)
    requires !Occurs(FilenameKey, "\"" + name + "\"") && '"' !in name
    ensures FileName(Some(prefix + FilenameKey + "\"" + name + "\""), defaultName, decode)
      == match decode(name) case Success(n) => Success(n) case Failure(e) => Failure(Name(e))
  {
    var quoted := "\"" + name + "\"";
    assert prefix + FilenameKey + "\"" + name + "\"" == prefix + FilenameKey + quoted;
    SplitSecondOf(prefix, FilenameKey, quoted);
    QuoteFreeTrim(name);
  }

  /** A reply as the model sees it: headers, the sizes of the body chunks, and how the body ended. */
  datatype Response = Response(
    contentDisposition: Option<string>,
    contentLength: Option<u64>,
    chunks: seq<nat>,
    streamError: Option<string>)

  function TotalSize(response: Response): nat
  {
    match response.contentLength
    case Some(n) => n as nat
    case None => 0
  }

  /**
   * `download_file`. `reply` is the outcome of sending the GET. `created` is the name of the
   * file created, `progress` every value written to the progress cell, in order.
   */
  method DownloadFile(reply: Result<Response, string>, defaultName: string, decode: Decode)
    returns (created: Option<string>, progress: seq<real>, res: Result<(), DownloadError>)
    ensures reply.Failure? ==> created == None && progress == [] && res == Failure(Request(reply.error))
    ensures reply.Success? && FileName(reply.value.contentDisposition, defaultName, decode).Failure? ==>
      created == None && progress == [] && res == Failure(FileName(reply.value.contentDisposition, defaultName, decode).error)
    ensures reply.Success? && FileName(reply.value.contentDisposition, defaultName, decode).Success? ==>
      && created == Some(FileName(reply.value.contentDisposition, defaultName, decode).value)
      && |progress| == |reply.value.chunks|
      && (forall k | 0 <= k < |progress| :: progress[k] == Progress(Sum(reply.value.chunks[..k + 1]), TotalSize(reply.value)))
      && res == (if reply.value.streamError.None? then Success(()) else Failure(Stream(reply.value.streamError.value)))
    ensures forall k | 0 <= k < |progress| :: 0.0 <= progress[k] <= 1.0
    ensures forall i, j | 0 <= i <= j < |progress| :: progress[i] <= progress[j]
    ensures reply.Success? && progress != [] && Sum(reply.value.chunks) >= TotalSize(reply.value) ==>
      progress[|progress| - 1] == 1.0
  {
    if reply.Failure? {
      return None, [], Failure(Request(reply.error));
    }
    var response := reply.value;
    var name := FileName(response.contentDisposition, defaultName, decode);
    if name.Failure? {
      return None, [], Failure(name.error);
    }
    created := Some(name.value);
    progress := StreamBody(response.chunks, TotalSize(response));
    res := if response.streamError.None? then Success(()) else Failure(Stream(response.streamError.value));
  }

  /**
   * The body loop of `download_file`: after each chunk the progress cell receives the bytes
   * so far over the announced total.
   */
  method StreamBody(chunks: seq<nat>, total: nat) returns (progress: seq<real>)
    ensures |progress| == |chunks|
    ensures forall k | 0 <= k < |progress| :: progress[k] == Progress(Sum(chunks[..k + 1]), total)
    ensures forall k | 0 <= k < |progress| :: 0.0 <= progress[k] <= 1.0
    ensures forall i, j | 0 <= i <= j < |progress| :: progress[i] <= progress[j]
    ensures progress != [] && Sum(chunks) >= total ==> progress[|progress| - 1] == 1.0
  {
    var downloaded: nat := 0;
    progress := [];
    var k := 0;
    while k < |chunks|
      invariant k <= |chunks| && |progress| == k
      invariant downloaded == Sum(chunks[..k])
      invariant forall j | 0 <= j < k :: progress[j] == Progress(Sum(chunks[..j + 1]), total)
      invariant forall i, j | 0 <= i <= j < k :: progress[i] <= progress[j]
    {
      assert chunks[..k + 1][..k] == chunks[..k];
      assert k > 0 ==> progress[k - 1] == Progress(downloaded, total);
      ProgressMonotone(downloaded, downloaded + chunks[k], total);
      downloaded := downloaded + chunks[k];
      progress := progress + [Progress(downloaded, total)];
      k := k + 1;
    }
    assert chunks[..k] == chunks;
  }
}
