/**
 * The two pure rules of the sync engine: how the text of a message decides
 * its kind (link or plain text), and where in a storage bucket the public
 * URL of an uploaded image points.
 */
module ChatRules {
  import opened Wrappers
  import opened Text
  import opened Urls
  import CM = ChatModel

  /** The storage bucket that holds chat images. */
  const ChatImagesBucket: string := "chat-images"

  /** The scheme is `http` or `https`, in any letter case. */
  predicate IsWebScheme(scheme: string) {
    Lowercased(scheme) == "http" || Lowercased(scheme) == "https"
  }

  /**
   * The kind of a text message: a link when the (already trimmed) text
   * parses as a URL with a web scheme, plain text otherwise.
   */
  function Classify(trimmed: string): (t: CM.ChatMessageType)
    ensures t != CM.Image
    ensures t == CM.Link <==>
      (ParseUrl(trimmed).Some? && ParseUrl(trimmed).value.scheme.Some?
       && IsWebScheme(ParseUrl(trimmed).value.scheme.value))
  {
    var url := ParseUrl(trimmed);
    if url.Some? && url.value.scheme.Some? && IsWebScheme(url.value.scheme.value) then CM.Link
    else CM.Text
  }

  /** Text with no `:` has no scheme, so it is never a link. */
  lemma NoColonIsText(s: string)
    requires ':' !in s
    ensures Classify(s) == CM.Text
  {
  }

  /**
   * A scheme followed by `:` decides the kind on its own: a link exactly
   * when the scheme is `http` or `https` in some letter case, whatever
   * follows the colon.
   */
  lemma {:induction false} SchemeDecidesKind(scheme: string, rest: string)
    requires scheme != [] && IsAsciiLetter(scheme[0])
    requires forall k | 0 <= k < |scheme| :: IsSchemeChar(scheme[k])
    ensures Classify(scheme + ":" + rest) == if IsWebScheme(scheme) then CM.Link else CM.Text
  {
    SchemeOfPrefix(scheme, rest);
  }

  /**
   * `https:` followed by anything, spaces included, is a link: the parser
   * encodes the characters a URL may not hold rather than failing.
   */
  lemma HttpsPrefixIsLink(rest: string)
    ensures Classify("https" + ":" + rest) == CM.Link
  {
    assert IsWebScheme("https") by {
      assert Lowercased("https") == "https";
    }
    SchemeDecidesKind("https", rest);
  }

  /** A URL with another scheme, such as `ftp:`, is plain text whatever follows. */
  lemma OtherSchemeIsText(rest: string)
    ensures Classify("ftp" + ":" + rest) == CM.Text
  {
    assert !IsWebScheme("ftp") by {
      assert Lowercased("ftp")[0] == 'f';
    }
    SchemeDecidesKind("ftp", rest);
  }

  /** The first index of `x` in `xs`: `firstIndex(of:)`. */
  function FirstIndex(xs: seq<string>, x: string): (r: Option<nat>)
    ensures r.None? <==> x !in xs
    ensures r.Some? ==> r.value < |xs| && xs[r.value] == x && x !in xs[..r.value]
  {
    if xs == [] then None
    else if xs[0] == x then Some(0)
    else
      match FirstIndex(xs[1..], x)
      case Some(i) =>
        assert xs[..i + 1] == [xs[0]] + xs[1..][..i];
        Some(i + 1)
      case None => None
  }

  /**
   * The path components after the first occurrence of `bucket`, joined
   * with `/`; nothing when the bucket is absent or is the last component.
   */
  function PathAfterBucket(components: seq<string>, bucket: string): (r: Option<string>)
    ensures r.Some? <==> bucket in components && FirstIndex(components, bucket).value < |components| - 1
  {
    match FirstIndex(components, bucket)
    case Some(i) =>
      if i < |components| - 1 then Some(Join(components[i + 1..], "/")) else None
    case None => None
  }

  /** `storagePath(from:bucket:)`: where in the bucket a public URL points. */
  function StoragePath(publicUrl: string, bucket: string): (r: Option<string>)
    ensures r.Some? ==> ParseUrl(publicUrl).Some?
    ensures ParseUrl(publicUrl).Some? ==> r == PathAfterBucket(PathComponents(ParseUrl(publicUrl).value), bucket)
  {
    match ParseUrl(publicUrl)
    case Some(url) => PathAfterBucket(PathComponents(url), bucket)
    case None => None
  }

  /**
   * The storage path, split at `/`, is exactly the components that follow
   * the first occurrence of the bucket: nothing before it, nothing dropped.
   */
  lemma {:induction false} StoragePathSegments(publicUrl: string, bucket: string)
    requires StoragePath(publicUrl, bucket).Some?
    ensures var cs := PathComponents(ParseUrl(publicUrl).value);
      var i := FirstIndex(cs, bucket).value;
      && i + 1 < |cs| && cs[i] == bucket && bucket !in cs[..i]
      && Split(StoragePath(publicUrl, bucket).value, '/') == cs[i + 1..]
  {
    var cs := PathComponents(ParseUrl(publicUrl).value);
    var i := FirstIndex(cs, bucket).value;
    var tail := cs[i + 1..];
    forall k | 0 <= k < |tail| ensures '/' !in tail[k] {
      assert tail[k] == cs[i + 1 + k];
    }
    SplitJoin(tail, '/');
  }

  /** A URL whose path lacks the bucket, or ends with it, gives no storage path. */
  lemma StoragePathAbsent(publicUrl: string, bucket: string)
    requires ParseUrl(publicUrl).Some?
    requires var cs := PathComponents(ParseUrl(publicUrl).value);
      bucket !in cs || (cs != [] && cs[|cs| - 1] == bucket && bucket !in cs[..|cs| - 1])
    ensures StoragePath(publicUrl, bucket).None?
  {
    var cs := PathComponents(ParseUrl(publicUrl).value);
    if bucket in cs {
      forall j | 0 <= j < |cs| - 1 ensures cs[j] != bucket {
        assert cs[j] == cs[..|cs| - 1][j];
      }
    }
  }
}
