/**
 * `extract_song_id`: a catalog entry is named "<id> <title>"; the id is the first
 * whitespace-separated token of the entry name, read as a u32.
 */
module SongIds {

  import opened Wrappers
  import opened Numbers

  /** Unicode White_Space, the separator set of `str::split_whitespace`. */
  predicate IsWhitespace(c: char)
  {
    || '\U{0009}' <= c <= '\U{000D}'
    || c == ' ' || c == '\U{0085}' || c == '\U{00A0}' || c == '\U{1680}'
    || '\U{2000}' <= c <= '\U{200A}'
    || c == '\U{2028}' || c == '\U{2029}' || c == '\U{202F}' || c == '\U{205F}' || c == '\U{3000}'
  }

  predicate AllWhitespace(s: string) { forall i | 0 <= i < |s| :: IsWhitespace(s[i]) }

  predicate NoWhitespace(s: string) { forall i | 0 <= i < |s| :: !IsWhitespace(s[i]) }

  /** `s` with its leading whitespace removed. */
  function TrimStart(s: string): (r: string)
    ensures |r| <= |s| && r == s[|s| - |r|..]
    ensures forall i | 0 <= i < |s| - |r| :: IsWhitespace(s[i])
    ensures r != [] ==> !IsWhitespace(r[0])
  {
    if s != [] && IsWhitespace(s[0]) then TrimStart(s[1..]) else s
  }

  /** The length of the longest whitespace-free prefix. */
  function TokenLength(s: string): (n: nat)
    ensures n <= |s| && NoWhitespace(s[..n])
    ensures n < |s| ==> IsWhitespace(s[n])
  {
    if s != [] && !IsWhitespace(s[0]) then
      var n := 1 + TokenLength(s[1..]);
      assert s[..n] == [s[0]] + s[1..][..n - 1];
      n
    else 0
  }

  /** `split_whitespace().next()`. */
  function FirstToken(s: string): (r: Option<string>)
    ensures r.Some? ==> r.value != [] && NoWhitespace(r.value)
    ensures r.None? <==> AllWhitespace(s)
  {
    var t := TrimStart(s);
    if t == [] then
      assert s[..|s|] == s;
      None
    else
      assert !AllWhitespace(s) by { assert s[|s| - |t|] == t[0]; }
      Some(t[..TokenLength(t)])
  }

  /** `extract_song_id` on an entry's file name. */
  function ExtractSongId(name: string): (r: Option<u32>)
    ensures AllWhitespace(name) ==> r == None
  {
    match FirstToken(name)
    case None => None
    case Some(token) => ParseU32(token)
  }

  lemma {:induction false} TrimStartOf(ws: string, t: string)
    requires AllWhitespace(ws) && (t != [] ==> !IsWhitespace(t[0]))
    ensures TrimStart(ws + t) == t
  {
    if ws != [] {
      assert (ws + t)[1..] == ws[1..] + t;
      TrimStartOf(ws[1..], t);
    } else {
      assert ws + t == t;
    }
  }

  lemma {:induction false} TokenLengthOf(token: string, rest: string)
    requires NoWhitespace(token) && (rest != [] ==> IsWhitespace(rest[0]))
    ensures TokenLength(token + rest) == |token|
  {
    if token != [] {
      assert (token + rest)[1..] == token[1..] + rest;
      TokenLengthOf(token[1..], rest);
    } else {
      assert token + rest == rest;
    }
  }

  /**
   * The first token of a name is the whitespace-free run after the leading whitespace,
   * ending at the next whitespace character or at the end of the name.
   */
  lemma FirstTokenOf(ws: string, token: string, rest: string)
    requires AllWhitespace(ws) && token != [] && NoWhitespace(token)
    requires rest == [] || IsWhitespace(rest[0])
    ensures FirstToken(ws + token + rest) == Some(token)
  {
    assert ws + token + rest == ws + (token + rest);
    TrimStartOf(ws, token + rest);
    TokenLengthOf(token, rest);
    assert (token + rest)[..|token|] == token;
  }

  /**
   * `extract_song_id` parses exactly the first whitespace-separated token: whatever follows
   * the token plays no part.
   */
  lemma ExtractSongIdOf(ws: string, token: string, rest: string)
    requires AllWhitespace(ws) && token != [] && NoWhitespace(token)
    requires rest == [] || IsWhitespace(rest[0])
    ensures ExtractSongId(ws + token + rest) == ParseU32(token)
  {
    FirstTokenOf(ws, token, rest);
  }

  /** A catalog entry named "<id> <title>" (or just "<id>") yields its id. */
  lemma ExtractFromCatalogName(id: u32, sep: char, title: string)
    requires IsWhitespace(sep)
    ensures ExtractSongId(DecimalString(id as nat) + [sep] + title) == Some(id)
    ensures ExtractSongId(DecimalString(id as nat)) == Some(id)
  {
    var digits := DecimalString(id as nat);
    DigitsAreNotWhitespace(digits);
    FirstTokenOf([], digits, [sep] + title);
    assert [] + digits + ([sep] + title) == digits + [sep] + title;
    FirstTokenOf([], digits, []);
    assert [] + digits + [] == digits;
    ParseDecimalRoundTrip(id);
  }

  lemma DigitsAreNotWhitespace(s: string)
    requires AllDigits(s)
    ensures NoWhitespace(s)
  {
    forall i | 0 <= i < |s| ensures !IsWhitespace(s[i]) {
      assert IsAsciiDigit(s[i]);
    }
  }

  /** An entry whose name begins, after any whitespace, with neither a digit nor `+` is skipped. */
  lemma ExtractRejects(ws: string, c: char, rest: string)
    requires AllWhitespace(ws) && !IsWhitespace(c) && !IsAsciiDigit(c) && c != '+'
    ensures ExtractSongId(ws + [c] + rest) == None
  {
    assert ws + [c] + rest == ws + ([c] + rest);
    TrimStartOf(ws, [c] + rest);
  }
}
