/**
 * String searching shared by the header parsing and the URL templates, and the
 * single-key `strfmt` substitution used to render download URLs.
 */
module Text {

  import opened Wrappers
  import opened Numbers

  predicate OccursAt(s: string, pat: string, j: int)
  {
    0 <= j && j + |pat| <= |s| && s[j..j + |pat|] == pat
  }

  ghost predicate Occurs(pat: string, s: string)
  {
    exists j :: OccursAt(s, pat, j)
  }

  /** The first index at or after `i` where `pat` occurs in `s`, as `str::find` reports it. */
  function FindFrom(s: string, pat: string, i: nat): (r: Option<nat>)
    requires i <= |s|
    ensures r.Some? ==> i <= r.value && OccursAt(s, pat, r.value)
    ensures r.Some? ==> forall j | i <= j < r.value :: !OccursAt(s, pat, j)
    ensures r.None? ==> forall j | i <= j :: !OccursAt(s, pat, j)
    decreases |s| - i
  {
    if i + |pat| > |s| then None
    else if s[i..i + |pat|] == pat then Some(i)
    else FindFrom(s, pat, i + 1)
  }

  function FindFirst(s: string, pat: string): (r: Option<nat>)
    ensures r.Some? ==> OccursAt(s, pat, r.value) && forall j | 0 <= j < r.value :: !OccursAt(s, pat, j)
    ensures r.None? <==> !Occurs(pat, s)
  {
    FindFrom(s, pat, 0)
  }

  /** The placeholder every download-server template carries. */
  const Placeholder: string := "{beatmap_id}"

  /** Replaces every occurrence of `pat`, scanning left to right without overlaps. */
  function ReplaceAll(s: string, pat: string, rep: string): (r: string)
    requires pat != []
    ensures pat[0] !in s ==> r == s
    decreases |s|
  {
    if |s| < |pat| then s
    else if s[..|pat|] == pat then rep + ReplaceAll(s[|pat|..], pat, rep)
    else [s[0]] + ReplaceAll(s[1..], pat, rep)
  }

  /** `strfmt(template, {"beatmap_id": id})`; a template without braces renders to itself. */
  function Render(template: string, id: u32): (r: string)
    ensures '{' !in template ==> r == template
  {
    assert Placeholder[0] == '{';
    ReplaceAll(template, Placeholder, DecimalString(id as nat))
  }

  lemma {:induction false} ReplaceAllBraceFree(s: string, rest: string, rep: string)
    requires '{' !in s
    ensures ReplaceAll(s + rest, Placeholder, rep) == s + ReplaceAll(rest, Placeholder, rep)
  {
    if s != [] {
      var t := s + rest;
      assert t[1..] == s[1..] + rest;
      ReplaceAllBraceFree(s[1..], rest, rep);
      if |t| < |Placeholder| {
        assert ReplaceAll(rest, Placeholder, rep) == rest;
      } else {
        assert t[0] == s[0] != '{';
        assert t[..|Placeholder|] != Placeholder by { assert Placeholder[0] == '{'; }
        assert ReplaceAll(t, Placeholder, rep) == [t[0]] + ReplaceAll(t[1..], Placeholder, rep);
        assert s == [s[0]] + s[1..];
      }
    } else {
      assert s + rest == rest;
    }
  }

  /**
   * A template with one placeholder and no other brace renders to its text with the
   * placeholder replaced by the decimal id.
   */
  lemma RenderSinglePlaceholder(prefix: string, suffix: string, id: u32)
    requires '{' !in prefix && '{' !in suffix
    ensures Render(prefix + Placeholder + suffix, id) == prefix + DecimalString(id as nat) + suffix
  {
    var rep := DecimalString(id as nat);
    assert prefix + Placeholder + suffix == prefix + (Placeholder + suffix);
    ReplaceAllBraceFree(prefix, Placeholder + suffix, rep);
    assert (Placeholder + suffix)[..|Placeholder|] == Placeholder;
    assert (Placeholder + suffix)[|Placeholder|..] == suffix;
    ReplaceAllBraceFree(suffix, [], rep);
    assert suffix + [] == suffix;
  }

  lemma OccursInMiddle(a: string, pat: string, b: string)
    ensures Occurs(pat, a + pat + b)
  {
    assert (a + pat + b)[|a|..|a| + |pat|] == pat;
    assert OccursAt(a + pat + b, pat, |a|);
  }
}
