/**
 * The parts of Foundation's `URL` the chat client reads: `URL(string:)`,
 * `url.scheme` and `url.pathComponents`. Parsing follows the generic syntax
 * of RFC 3986 (section 3): `scheme ":" ["//" authority] path ["?" query] ["#" fragment]`.
 * Since iOS 17, `URL(string:)` percent-encodes characters the syntax does not
 * allow instead of failing, so only the empty string gives nil.
 */
module Urls {
  import opened Wrappers
  import opened Text

  /** A parsed URL: its scheme, if any, and its path. */
  datatype Url = Url(scheme: Option<string>, path: string)

  predicate IsAsciiLetter(c: char) {
    'a' <= c <= 'z' || 'A' <= c <= 'Z'
  }

  predicate IsAsciiDigit(c: char) {
    '0' <= c <= '9'
  }

  /** Characters allowed after the first one in a scheme (RFC 3986 section 3.1). */
  predicate IsSchemeChar(c: char) {
    IsAsciiLetter(c) || IsAsciiDigit(c) || c == '+' || c == '-' || c == '.'
  }

  /** The scheme: the text before the first `:`, when it is a letter followed by scheme characters. */
  function SchemeOf(s: string): (r: Option<string>)
    ensures r.Some? ==> 0 < |r.value| < |s| && r.value == s[..|r.value|] && s[|r.value|] == ':'
    ensures r.Some? ==> IsAsciiLetter(r.value[0]) && ':' !in r.value
    ensures r.Some? ==> forall k | 0 <= k < |r.value| :: IsSchemeChar(r.value[k])
    ensures ':' !in s ==> r.None?
  {
    var i := IndexOfChar(s, ':');
    if 0 < i < |s| && IsAsciiLetter(s[0]) && (forall k | 0 <= k < i :: IsSchemeChar(s[k])) then
      Some(s[..i])
    else
      None
  }

  /** A scheme followed by `:` is read back as that scheme. */
  lemma SchemeOfPrefix(scheme: string, rest: string)
    requires scheme != [] && IsAsciiLetter(scheme[0])
    requires forall k | 0 <= k < |scheme| :: IsSchemeChar(scheme[k])
    ensures SchemeOf(scheme + ":" + rest) == Some(scheme)
  {
    var s := scheme + ":" + rest;
    assert ':' !in scheme by {
      forall k | 0 <= k < |scheme| ensures scheme[k] != ':' {
        assert IsSchemeChar(scheme[k]);
      }
    }
    assert s[..|scheme|] == scheme;
    assert s[|scheme|] == ':';
    assert ':' !in s[..|scheme|];
  }

  /** The index of the first `?` or `#`: where the path part of `s` ends. */
  function PathEnd(s: string): (i: nat)
    ensures i <= |s|
    ensures '?' !in s[..i] && '#' !in s[..i]
    ensures i < |s| ==> s[i] == '?' || s[i] == '#'
  {
    var q := IndexOfChar(s, '?');
    var h := IndexOfChar(s, '#');
    if q <= h then
      assert s[..q] <= s[..h];
      q
    else
      assert s[..h] <= s[..q];
      h
  }

  /** The path of a hierarchical part: after `//authority` when there is one. */
  function PathOf(hier: string): (p: string)
    ensures |p| <= |hier|
    ensures p == hier[|hier| - |p|..]
  {
    if |hier| >= 2 && hier[0] == '/' && hier[1] == '/' then
      var afterSlashes := hier[2..];
      var i := IndexOfChar(afterSlashes, '/');
      afterSlashes[i..]
    else
      hier
  }

  /**
   * `URL(string: s)` as built for iOS 17: nil for the empty string; any other
   * text is repaired by percent-encoding and parsed into its scheme and path.
   * The path is kept as written, which is what `pathComponents` decodes the
   * encoded characters back to.
   */
  function ParseUrl(s: string): (r: Option<Url>)
    ensures r.Some? <==> s != []
    ensures r.Some? ==> r.value.scheme == SchemeOf(s)
  {
    if s == [] then None
    else
      var scheme := SchemeOf(s);
      var rest := if scheme.Some? then s[|scheme.value| + 1..] else s;
      Some(Url(scheme, PathOf(rest[..PathEnd(rest)])))
  }

  /** The non-empty pieces of `parts`, in order. */
  function NonEmpty(parts: seq<string>): (r: seq<string>)
    ensures |r| <= |parts|
    ensures forall k | 0 <= k < |r| :: r[k] != [] && r[k] in parts
    ensures forall p | p in parts && p != [] :: p in r
  {
    if parts == [] then []
    else if parts[0] == [] then NonEmpty(parts[1..])
    else [parts[0]] + NonEmpty(parts[1..])
  }

  /**
   * `url.pathComponents`: the non-empty `/`-separated segments of the path,
   * preceded by `"/"` when the path is absolute.
   */
  function PathComponents(u: Url): (r: seq<string>)
    ensures forall k | 0 <= k < |r| :: r[k] != []
    ensures forall k | 0 <= k < |r| :: r[k] == "/" || '/' !in r[k]
    ensures forall k | 0 < k < |r| :: '/' !in r[k]
    ensures u.path == [] ==> r == []
    ensures u.path != [] && u.path[0] == '/' ==> r != [] && r[0] == "/"
  {
    if u.path == [] then []
    else
      SplitPiecesLackSeparator(u.path, '/');
      var segments := NonEmpty(Split(u.path, '/'));
      if u.path[0] == '/' then ["/"] + segments else segments
  }
}
