/**
 * The identifier helpers shared by the whole runner: `shortname` (the part of a
 * CWL identifier after its last '#'), `flatten` (nested lists to a flat list of
 * leaves) and `url_shortname` (the last path segment of an identifier's URI
 * fragment, or of its path when the fragment is empty).
 */
module CwlUtils {
  import opened Wrappers
  import opened Json
  import Strings

  // ---------------------------------------------------------------- shortname

  /** `n.split("#")[-1]`. */
  function Shortname(n: string): (r: string)
    ensures '#' !in r
    ensures '#' !in n ==> r == n
  {
    Strings.LastSegment(n, '#')
  }

  /** A shortname is its own shortname. */
  lemma ShortnameIdempotent(n: string)
    ensures Shortname(Shortname(n)) == Shortname(n)
  {
  }

  // ------------------------------------------------------------------ flatten

  /** The leaves one list element contributes: a nested list contributes its own
   *  leaves, anything else contributes itself. */
  function Leaves(x: Json): seq<Json>
    decreases x, 0
  {
    if x.JArray? then Flat(x.items) else [x]
  }

  /** The leaves of a list, left to right: what `flatten` returns. */
  function Flat(xs: seq<Json>): (r: seq<Json>)
    decreases xs, 1
    ensures forall i :: 0 <= i < |r| ==> !r[i].JArray?
  {
    if xs == [] then []
    else
      var last := xs[|xs| - 1];
      var front := Flat(xs[..|xs| - 1]);
      if last.JArray? then front + Flat(last.items) else front + [last]
  }

  /** `flatten(input_list)`: the loop that extends `result` with the flattened
   *  nested lists and appends everything else. */
  method Flatten(input: seq<Json>) returns (result: seq<Json>)
    decreases input
    ensures result == Flat(input)
  {
    result := [];
    var i := 0;
    while i < |input|
      invariant 0 <= i <= |input|
      invariant result == Flat(input[..i])
    {
      var item := input[i];
      assert input[..i + 1][..i] == input[..i];
      if item.JArray? {
        var inner := Flatten(item.items);
        result := result + inner;
      } else {
        result := result + [item];
      }
      i := i + 1;
    }
    assert input[..|input|] == input;
  }

  /** Flattening keeps left-to-right order: it distributes over concatenation. */
  lemma {:induction false} FlatAppend(a: seq<Json>, b: seq<Json>)
    ensures Flat(a + b) == Flat(a) + Flat(b)
    decreases |b|
  {
    if b == [] {
      assert a + b == a;
    } else {
      var b' := b[..|b| - 1];
      assert (a + b)[..|a + b| - 1] == a + b';
      assert (a + b)[|a + b| - 1] == b[|b| - 1];
      FlatAppend(a, b');
    }
  }

  /** A list without nested lists is returned unchanged. */
  lemma {:induction false} FlatOfFlat(xs: seq<Json>)
    requires forall i :: 0 <= i < |xs| ==> !xs[i].JArray?
    ensures Flat(xs) == xs
  {
    if xs != [] {
      FlatOfFlat(xs[..|xs| - 1]);
      assert xs == xs[..|xs| - 1] + [xs[|xs| - 1]];
    }
  }

  /** Flattening twice is flattening once. */
  lemma FlatIdempotent(xs: seq<Json>)
    ensures Flat(Flat(xs)) == Flat(xs)
  {
    FlatOfFlat(Flat(xs));
  }

  /** The number of non-list leaves in a (nested) list. */
  function LeafCount(xs: seq<Json>): nat
    decreases xs
  {
    if xs == [] then 0
    else (if xs[0].JArray? then LeafCount(xs[0].items) else 1) + LeafCount(xs[1..])
  }

  /** `len(flatten(xs))` is the number of leaves of `xs`. */
  lemma {:induction false} FlatLength(xs: seq<Json>)
    ensures |Flat(xs)| == LeafCount(xs)
    decreases xs
  {
    if xs != [] {
      assert xs == [xs[0]] + xs[1..];
      FlatAppend([xs[0]], xs[1..]);
      FlatLength(xs[1..]);
      if xs[0].JArray? {
        FlatLength(xs[0].items);
        assert Flat([xs[0]]) == Flat([xs[0]][..0]) + Flat(xs[0].items);
      } else {
        assert Flat([xs[0]]) == Flat([xs[0]][..0]) + [xs[0]];
      }
    }
  }

  /** A leaf of one element is a leaf of any list holding that element. */
  lemma {:induction false} LeafOfElement(xs: seq<Json>, i: nat, x: Json)
    requires i < |xs| && x in Leaves(xs[i])
    ensures x in Flat(xs)
    decreases |xs|
  {
    var front := xs[..|xs| - 1];
    assert Flat(xs) == Flat(front) + Leaves(xs[|xs| - 1]);
    if i < |xs| - 1 {
      assert front[i] == xs[i];
      LeafOfElement(front, i, x);
    }
  }

  /** Every leaf of a list comes from one of its elements. */
  lemma {:induction false} LeafHasElement(xs: seq<Json>, x: Json) returns (i: nat)
    requires x in Flat(xs)
    ensures i < |xs| && x in Leaves(xs[i])
    decreases |xs|
  {
    var front := xs[..|xs| - 1];
    if x in Flat(front) {
      i := LeafHasElement(front, x);
      assert front[i] == xs[i];
    } else {
      i := |xs| - 1;
    }
  }

  // ------------------------------------------------------------- url_shortname

  /** What `urlparse.urlparse` returns. */
  datatype UrlParts = UrlParts(scheme: string, netloc: string, path: string,
                               params: string, query: string, fragment: string)

  /** `urlparse` raises ValueError for a network location with unbalanced brackets. */
  datatype UrlError = InvalidIPv6Url

  /** `urlparse.scheme_chars`. */
  predicate IsSchemeChar(c: char)
  {
    ('a' <= c <= 'z') || ('A' <= c <= 'Z') || ('0' <= c <= '9') || c == '+' || c == '-' || c == '.'
  }

  /** `urlparse.uses_params`: the schemes whose last path segment may carry ';' parameters. */
  predicate UsesParams(scheme: string)
  {
    scheme in {"ftp", "hdl", "prospero", "http", "imap", "https", "shttp", "rtsp", "rtspu",
               "sip", "sips", "mms", "", "sftp", "tel"}
  }

  /** The text after the first `c` of `s` (`s.split(c, 1)[1]`). */
  function AfterFirst(s: string, c: char): (r: string)
    requires c in s
    ensures s == Strings.FirstSegment(s, c) + [c] + r
  {
    var head := Strings.FirstSegment(s, c);
    assert s == head + [c] + s[|head| + 1..];
    s[|head| + 1..]
  }

  /** `s.split(c, 1)` as a pair, with "" as the second part when `c` is absent. */
  function SplitOnce(s: string, c: char): (r: (string, string))
    ensures c in s ==> r == (Strings.FirstSegment(s, c), AfterFirst(s, c))
    ensures c !in s ==> r == (s, "")
  {
    if c in s then (Strings.FirstSegment(s, c), AfterFirst(s, c)) else (s, "")
  }

  /** The first index at or after `from` that holds '/', '?' or '#', or `|s|`. */
  function NetlocEnd(s: string, from: nat): (r: nat)
    requires from <= |s|
    decreases |s| - from
    ensures from <= r <= |s|
    ensures forall j :: from <= j < r ==> s[j] !in "/?#"
    ensures r < |s| ==> s[r] in "/?#"
  {
    if from == |s| || s[from] in "/?#" then from else NetlocEnd(s, from + 1)
  }

  /** Whether a would-be scheme is accepted: "http" always (the fast path), any
   *  other run of scheme characters only when what follows is not a port number. */
  predicate TakesScheme(url: string, i: nat)
    requires i < |url|
  {
    url[..i] == "http"
    || ((forall j :: 0 <= j < i ==> IsSchemeChar(url[j]))
        && (i + 1 == |url| || exists j :: i + 1 <= j < |url| && !('0' <= url[j] <= '9')))
  }

  /** The scheme `urlsplit` recognises and the text after its ':' (no scheme: "" and all of `url`). */
  function SplitScheme(url: string): (r: (string, string))
    ensures |r.1| <= |url| && r.1 == url[|url| - |r.1|..]
    ensures '#' !in url[..|url| - |r.1|]
  {
    var colon := |Strings.FirstSegment(url, ':')|;
    if ':' in url && colon > 0 && TakesScheme(url, colon) then
      assert '#' !in url[..colon + 1] by {
        assert url[colon] == ':';
        forall j | 0 <= j < colon ensures url[j] != '#' {
          if url[..colon] == "http" {
            assert url[j] == "http"[j];
          } else {
            assert IsSchemeChar(url[j]);
          }
        }
      }
      (Strings.ToLower(url[..colon]), url[colon + 1..])
    else ("", url)
  }

  /** `_splitnetloc`: after a leading "//", the network location up to the first
   *  '/', '?' or '#', and the rest. */
  function SplitNetloc(rest: string): (r: (string, string))
    ensures |r.1| <= |rest| && r.1 == rest[|rest| - |r.1|..]
    ensures '#' !in rest[..|rest| - |r.1|]
  {
    if |rest| >= 2 && rest[..2] == "//" then
      var e := NetlocEnd(rest, 2);
      (rest[2..e], rest[e..])
    else ("", rest)
  }

  /** `urlparse.urlsplit(url)` of Python 2.7. */
  function UrlSplit(url: string): Result<UrlParts, UrlError>
  {
    var (scheme, rest) := SplitScheme(url);
    var (netloc, rest') := SplitNetloc(rest);
    if ('[' in netloc && ']' !in netloc) || (']' in netloc && '[' !in netloc) then Err(InvalidIPv6Url)
    else
      var (beforeFragment, fragment) := SplitOnce(rest', '#');
      var (path, query) := SplitOnce(beforeFragment, '?');
      Ok(UrlParts(scheme, netloc, path, "", query, fragment))
  }

  /** `urlparse._splitparams`: the ';' parameters of the last path segment. */
  function SplitParams(path: string): (string, string)
  {
    Strings.LastSegmentSuffix(path, '/');
    var from := if '/' in path then |path| - |Strings.LastSegment(path, '/')| - 1 else 0;
    match Strings.FindFrom(path, ";", from)
    case None => (path, "")
    case Some(i) => (path[..i], path[i + 1..])
  }

  /** Where `_splitparams` starts looking for ';': the last '/', or the start. */
  function ParamsFrom(path: string): (r: nat)
    ensures r <= |path| - |Strings.LastSegment(path, '/')| <= |path|
    ensures r < |path| - |Strings.LastSegment(path, '/')| ==>
              r + 1 == |path| - |Strings.LastSegment(path, '/')| && path[r] == '/'
    ensures ';' !in path[r..] <==> ';' !in Strings.LastSegment(path, '/')
  {
    Strings.LastSegmentSuffix(path, '/');
    var start := |path| - |Strings.LastSegment(path, '/')|;
    if '/' in path then
      assert path[start - 1..] == ['/'] + path[start..];
      start - 1
    else 0
  }

  /** The parameters start at the first ';' of the last path segment; a ';' in an
   *  earlier segment does not count, and without one the path is left whole. */
  lemma SplitParamsInLastSegment(path: string)
    ensures var r, start := SplitParams(path), |path| - |Strings.LastSegment(path, '/')|;
      if ';' in Strings.LastSegment(path, '/')
      then 0 <= start <= |r.0| && path == r.0 + ";" + r.1 && ';' !in r.0[start..]
      else r == (path, "")
  {
    var from := ParamsFrom(path);
    var start := |path| - |Strings.LastSegment(path, '/')|;
    Strings.FindCharFrom(path, ';', from);
    assert ";" == [';'];
    if ';' in Strings.LastSegment(path, '/') {
      var i := Strings.FindFrom(path, ";", from).value;
      SplitParamsAt(path, from, start, i);
    }
  }

  /** The split at the first ';' found from `from`, past the last '/'. */
  lemma SplitParamsAt(path: string, from: nat, start: nat, i: nat)
    requires from == ParamsFrom(path) && start == |path| - |Strings.LastSegment(path, '/')|
    requires Strings.FindFrom(path, ";", from) == Some(i)
    requires i < |path| && path[i] == ';' && ';' !in path[from..i]
    ensures start <= i && path == SplitParams(path).0 + ";" + SplitParams(path).1
    ensures ';' !in SplitParams(path).0[start..]
  {
    assert SplitParams(path) == (path[..i], path[i + 1..]);
    Strings.SplitAtIndex(path, i);
    assert path[..i][start..] == path[start..i];
  }

  /** `urlparse.urlparse(url)`. */
  function UrlParse(url: string): (r: Result<UrlParts, UrlError>)
    ensures r.Ok? <==> UrlSplit(url).Ok?
    ensures r.Ok? ==> r.value.(path := UrlSplit(url).value.path, params := "") == UrlSplit(url).value
  {
    var parts :- UrlSplit(url);
    if UsesParams(parts.scheme) && ';' in parts.path then
      var (path, params) := SplitParams(parts.path);
      Ok(parts.(path := path, params := params))
    else Ok(parts)
  }

  /** `url_shortname(inputid)`: the last '/'-segment of the fragment when there is
   *  one, otherwise the last '/'-segment of the path. */
  function UrlShortname(inputid: string): (r: Result<string, UrlError>)
    ensures r.Ok? ==> '/' !in r.value
  {
    var d :- UrlParse(inputid);
    if d.fragment != "" then Ok(Strings.LastSegment(d.fragment, '/'))
    else Ok(Strings.LastSegment(d.path, '/'))
  }

  /** Text before the first `c` leaves the text after it alone. */
  lemma AfterFirstSkipsPrefix(a: string, b: string, c: char)
    requires c !in a
    ensures c in a + b <==> c in b
    ensures c in b ==> AfterFirst(a + b, c) == AfterFirst(b, c)
    decreases |a|
  {
    if a != [] {
      assert (a + b)[1..] == a[1..] + b;
      AfterFirstSkipsPrefix(a[1..], b, c);
    } else {
      assert a + b == b;
    }
  }

  /** Dropping a prefix without '#' does not move the text after the first '#'. */
  lemma FragmentOfSuffix(s: string, k: nat)
    requires k <= |s| && '#' !in s[..k]
    ensures SplitOnce(s[k..], '#').1 == SplitOnce(s, '#').1
  {
    assert s == s[..k] + s[k..];
    AfterFirstSkipsPrefix(s[..k], s[k..], '#');
  }

  /** The fragment `urlparse` finds is the text after the first '#', wherever the
   *  scheme and network location end. */
  lemma FragmentAfterFirstHash(url: string)
    requires UrlSplit(url).Ok?
    ensures UrlSplit(url).value.fragment == SplitOnce(url, '#').1
  {
    FragmentOfRest(url);
  }

  /** Neither the scheme nor the network location holds a '#'. */
  lemma FragmentOfRest(url: string)
    ensures SplitOnce(SplitNetloc(SplitScheme(url).1).1, '#').1 == SplitOnce(url, '#').1
  {
    var rest := SplitScheme(url).1;
    FragmentOfSuffix(url, |url| - |rest|);
    var rest' := SplitNetloc(rest).1;
    FragmentOfSuffix(rest, |rest| - |rest'|);
  }

  /** With a non-empty fragment, `url_shortname` is the last '/'-segment of the text
   *  after the first '#'; when that text holds no further '#', it is also the last
   *  '/'-segment of the `shortname`. */
  lemma UrlShortnameOfFragment(url: string)
    requires UrlParse(url).Ok? && '#' in url && AfterFirst(url, '#') != ""
    ensures UrlShortname(url) == Ok(Strings.LastSegment(AfterFirst(url, '#'), '/'))
    ensures '#' !in AfterFirst(url, '#') ==>
              UrlShortname(url) == Ok(Strings.LastSegment(Shortname(url), '/'))
  {
    FragmentAfterFirstHash(url);
    assert UrlParse(url).value.fragment == UrlSplit(url).value.fragment;
    if '#' !in AfterFirst(url, '#') {
      Strings.LastSegmentAfter(Strings.FirstSegment(url, '#'), AfterFirst(url, '#'), '#');
    }
  }

  /** The text left after the scheme and the network location. */
  function AfterNetloc(url: string): (r: string)
    ensures |r| <= |url| && r == url[|url| - |r|..]
  {
    SplitNetloc(SplitScheme(url).1).1
  }

  /** A URL without '#' or '?' splits into an empty fragment and query, and its path
   *  is what follows the scheme and the network location. */
  lemma PlainUrlSplit(url: string)
    requires '#' !in url && '?' !in url
    requires UrlSplit(url).Ok?
    ensures UrlSplit(url).value.fragment == "" && UrlSplit(url).value.query == ""
    ensures UrlSplit(url).value.path == AfterNetloc(url)
  {
    var rest' := AfterNetloc(url);
    Strings.NotInSuffix(url, rest', '#');
    Strings.NotInSuffix(url, rest', '?');
  }

  /** Without ';' as well, `urlparse` leaves that split alone. */
  lemma PlainUrlParts(url: string)
    requires '#' !in url && '?' !in url && ';' !in url
    requires UrlParse(url).Ok?
    ensures UrlParse(url).value.fragment == ""
    ensures UrlParse(url).value.path == AfterNetloc(url)
  {
    PlainUrlSplit(url);
    var d := UrlSplit(url).value;
    Strings.NotInSuffix(url, AfterNetloc(url), ';');
    assert !(UsesParams(d.scheme) && ';' in d.path);
  }

  /** Without a fragment, query or parameters, `url_shortname` is the last
   *  '/'-segment of the path that follows the scheme and network location; when
   *  that path holds a '/', it is the text after the last '/' of the whole URL. */
  lemma UrlShortnameOfPath(url: string)
    requires '#' !in url && '?' !in url && ';' !in url
    requires UrlParse(url).Ok?
    ensures UrlShortname(url) == Ok(Strings.LastSegment(AfterNetloc(url), '/'))
    ensures '/' in AfterNetloc(url) ==> UrlShortname(url) == Ok(Strings.LastSegment(url, '/'))
  {
    PlainUrlParts(url);
    var path := AfterNetloc(url);
    if '/' in path {
      Strings.LastSegmentOfSuffix(url, |url| - |path|, '/');
    }
  }
}
