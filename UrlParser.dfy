/**
 * A small stand-in for `new URL(url)` and its `searchParams`, covering the
 * shapes the intent handler reads: the scheme, an optional `//authority`, the
 * pathname, and `name=value` pairs of the query, with the first value of a
 * name winning in `get`.
 */
module UrlParser {
  import opened Wrappers
  import opened Strings

  /** What the handler reads from a parsed URL: the pathname and the query pairs, in order. */
  datatype Url = Url(pathname: string, searchParams: seq<(string, string)>)

  predicate IsAsciiAlpha(c: char) {
    'a' <= c <= 'z' || 'A' <= c <= 'Z'
  }

  predicate IsSchemeChar(c: char) {
    IsAsciiAlpha(c) || '0' <= c <= '9' || c == '+' || c == '-' || c == '.'
  }

  /** A scheme: an ASCII letter, then letters, digits, `+`, `-` or `.`. */
  predicate IsScheme(s: string) {
    |s| > 0 && IsAsciiAlpha(s[0]) && forall k | 0 <= k < |s| :: IsSchemeChar(s[k])
  }

  /** A scheme never holds the `:` that ends it. */
  lemma SchemeHasNoColon(s: string)
    requires IsScheme(s)
    ensures ':' !in s
  {
    forall k | 0 <= k < |s| ensures s[k] != ':' { assert IsSchemeChar(s[k]); }
  }

  /** A one-character pattern occurs exactly where that character stands. */
  lemma CharOccursAt(s: string, c: char, k: nat)
    ensures OccursAt(s, [c], k) <==> k < |s| && s[k] == c
  {
    if k < |s| {
      assert s[k..k + 1] == [s[k]];
    }
  }

  /** The first `c` in `a + [c] + b` is the one right after `a` when `a` has none. */
  lemma FirstCharIndex(a: string, c: char, b: string)
    requires c !in a
    ensures IndexOf(a + [c] + b, [c]) == Some(|a|)
  {
    var s := a + [c] + b;
    CharOccursAt(s, c, |a|);
    forall k: nat | k < |a|
      ensures !OccursAt(s, [c], k)
    {
      CharOccursAt(s, c, k);
      assert s[k] == a[k];
    }
    assert Contains(s, [c]);
  }

  /** A string without `c` has no index of `c`. */
  lemma NoCharIndex(s: string, c: char)
    requires c !in s
    ensures IndexOf(s, [c]) == None
  {
    forall k: nat | k <= |s|
      ensures !OccursAt(s, [c], k)
    {
      CharOccursAt(s, c, k);
    }
  }

  /** `s` up to its first `c`, or all of `s`. */
  function UpTo(s: string, c: char): (r: string)
    ensures c !in r && StartsWith(s, r)
  {
    match IndexOf(s, [c])
    case None =>
      forall k | 0 <= k < |s| ensures s[k] != c { CharOccursAt(s, c, k); }
      s
    case Some(i) =>
      forall k | 0 <= k < i ensures s[k] != c { CharOccursAt(s, c, k); }
      s[..i]
  }

  /** What follows the first `c` in `s`, or `""` when there is none. */
  function AfterFirst(s: string, c: char): string {
    match IndexOf(s, [c])
    case None => ""
    case Some(i) => s[i + 1..]
  }

  /** The pathname of what follows the scheme's `:` (fragment and query already cut off). */
  function PathnameOf(hierPart: string): (pathname: string)
    ensures |pathname| <= |hierPart| && hierPart[|hierPart| - |pathname|..] == pathname
    ensures !StartsWith(hierPart, "//") ==> pathname == hierPart
    ensures StartsWith(hierPart, "//") && pathname != "" ==> pathname[0] == '/'
  {
    if StartsWith(hierPart, "//") then
      var authorityAndPath := hierPart[2..];
      match IndexOf(authorityAndPath, "/")
      case None => ""
      case Some(j) =>
        CharOccursAt(authorityAndPath, '/', j);
        assert authorityAndPath[j..] == hierPart[2 + j..];
        authorityAndPath[j..]
    else
      hierPart
  }

  /** A prefix of a string without `c` has no `c` either. */
  lemma PrefixLacks(s: string, prefix: string, c: char)
    requires StartsWith(s, prefix) && c !in s
    ensures c !in prefix
  {
    forall k | 0 <= k < |prefix| ensures prefix[k] != c { assert prefix[k] == s[k]; }
  }

  /** The pathname is a tail of the part it is read from, so it lacks what that part lacks. */
  lemma PathnameLacks(hierPart: string, c: char)
    requires c !in hierPart
    ensures c !in PathnameOf(hierPart)
  {
    if StartsWith(hierPart, "//") {
      var authorityAndPath := hierPart[2..];
      match IndexOf(authorityAndPath, "/")
      case None =>
      case Some(j) =>
        forall k | 0 <= k < |authorityAndPath| - j ensures authorityAndPath[j..][k] != c {
          assert authorityAndPath[j..][k] == hierPart[2 + j + k];
        }
    }
  }

  /**
   * `new URL(input)`; `None` stands for the thrown exception (no `:` at all,
   * or a scheme that is not one).
   */
  function ParseUrl(input: string): (r: Option<Url>)
    ensures r.None? <==> IndexOf(input, ":").None? || !IsScheme(input[..IndexOf(input, ":").value])
    ensures r.Some? ==> '?' !in r.value.pathname && '#' !in r.value.pathname
  {
    match IndexOf(input, ":")
    case None => None
    case Some(i) =>
      if !IsScheme(input[..i]) then None
      else
        var rest := UpTo(input[i + 1..], '#');
        var hierPart := UpTo(rest, '?');
        PrefixLacks(rest, hierPart, '#');
        PathnameLacks(hierPart, '#');
        PathnameLacks(hierPart, '?');
        var query := AfterFirst(rest, '?');
        Some(Url(PathnameOf(hierPart), ParseSearchParams(query)))
  }

  /** One `name=value` piece of the query; a piece without `=` has the empty value. */
  function NameValue(piece: string): (pair: (string, string))
    ensures '=' !in pair.0
    ensures '=' in piece <==> piece == pair.0 + "=" + pair.1
    ensures '=' !in piece ==> pair == (piece, "")
  {
    match IndexOf(piece, "=")
    case None =>
      forall k | 0 <= k < |piece| ensures piece[k] != '=' { CharOccursAt(piece, '=', k); }
      (piece, "")
    case Some(j) =>
      forall k | 0 <= k < j ensures piece[k] != '=' { CharOccursAt(piece, '=', k); }
      CharOccursAt(piece, '=', j);
      assert piece == piece[..j] + "=" + piece[j + 1..];
      (piece[..j], piece[j + 1..])
  }

  /** The pairs of the `&`-separated pieces, skipping empty pieces. */
  function NameValuePairs(pieces: seq<string>): (params: seq<(string, string)>)
    ensures |params| <= |pieces|
  {
    if pieces == [] then []
    else (if pieces[0] == "" then [] else [NameValue(pieces[0])]) + NameValuePairs(pieces[1..])
  }

  /** The query string (without its `?`) read as `name=value` pairs, in order. */
  function ParseSearchParams(query: string): (params: seq<(string, string)>)
    ensures |params| <= |Split(query, '&')|
  {
    NameValuePairs(Split(query, '&'))
  }

  /** `searchParams.get(name)`: the value of the first pair with that name, `None` for `null`. */
  function Get(params: seq<(string, string)>, name: string): (r: Option<string>)
    ensures r.None? <==> forall k | 0 <= k < |params| :: params[k].0 != name
    ensures r.Some? ==> exists k | 0 <= k < |params| ::
              params[k] == (name, r.value) && forall m | 0 <= m < k :: params[m].0 != name
  {
    if params == [] then None
    else if params[0].0 == name then Some(params[0].1)
    else
      var r := Get(params[1..], name);
      if r.Some? then FirstPairInTail(params, name, r.value); r else r
  }

  /** The first pair named `name` in the tail of `params` is the first in `params` when the head has another name. */
  lemma FirstPairInTail(params: seq<(string, string)>, name: string, value: string)
    requires |params| > 0 && params[0].0 != name
    requires exists k | 0 <= k < |params[1..]| ::
               params[1..][k] == (name, value) && forall m | 0 <= m < k :: params[1..][m].0 != name
    ensures exists k | 0 <= k < |params| ::
              params[k] == (name, value) && forall m | 0 <= m < k :: params[m].0 != name
  {
    var k :| 0 <= k < |params[1..]| && params[1..][k] == (name, value)
             && forall m | 0 <= m < k :: params[1..][m].0 != name;
    assert params[k + 1] == (name, value);
    forall m | 0 <= m < k + 1
      ensures params[m].0 != name
    {
      if m > 0 { assert params[m] == params[1..][m - 1]; }
    }
  }

  /** A query made of `name=value&rest` starts with that pair. */
  lemma SearchParamsCons(name: string, value: string, rest: string)
    requires '&' !in name && '&' !in value && '=' !in name
    ensures ParseSearchParams(name + "=" + value + "&" + rest)
         == [(name, value)] + ParseSearchParams(rest)
  {
    var piece := name + "=" + value;
    assert '&' !in piece;
    SplitAtFirst(piece, '&', rest);
    assert name + "=" + value + "&" + rest == piece + ['&'] + rest;
    NameValueOf(name, value);
  }

  /** A query of two `name=value` pieces reads as those two pairs. */
  lemma TwoPairQuery(first: string, second: string, value1: string, value2: string)
    requires '=' !in first && '&' !in first && '=' !in second && '&' !in second
    requires '&' !in value1 && '&' !in value2
    ensures ParseSearchParams(first + "=" + value1 + "&" + second + "=" + value2) == [(first, value1), (second, value2)]
  {
    SearchParamsCons(first, value1, second + "=" + value2);
    SearchParamsSingle(second, value2);
    assert first + "=" + value1 + "&" + (second + "=" + value2) == first + "=" + value1 + "&" + second + "=" + value2;
  }

  /** In a two-pair query with distinct names, each name finds its own value. */
  lemma TwoValueQuery(first: string, second: string, value1: string, value2: string)
    requires '=' !in first && '&' !in first && '=' !in second && '&' !in second && first != second
    requires '&' !in value1 && '&' !in value2
    ensures Get(ParseSearchParams(first + "=" + value1 + "&" + second + "=" + value2), first) == Some(value1)
    ensures Get(ParseSearchParams(first + "=" + value1 + "&" + second + "=" + value2), second) == Some(value2)
  {
    TwoPairQuery(first, second, value1, value2);
    var params := [(first, value1), (second, value2)];
    assert params[1..] == [(second, value2)];
  }

  /** A query made of a single `name=value`. */
  lemma SearchParamsSingle(name: string, value: string)
    requires '&' !in name && '&' !in value && '=' !in name
    ensures ParseSearchParams(name + "=" + value) == [(name, value)]
  {
    var piece := name + "=" + value;
    assert '&' !in piece;
    SplitWithoutSeparator(piece, '&');
    NameValueOf(name, value);
  }

  lemma NameValueOf(name: string, value: string)
    requires '=' !in name
    ensures NameValue(name + "=" + value) == (name, value)
  {
    FirstCharIndex(name, '=', value);
    assert name + "=" + value == name + ['='] + value;
    var s := name + "=" + value;
    assert s[..|name|] == name;
    assert s[|name| + 1..] == value;
  }

  /** Cutting at a `c` that `s` does not hold keeps all of `s`. */
  lemma UpToWithout(s: string, c: char)
    requires c !in s
    ensures UpTo(s, c) == s && AfterFirst(s, c) == ""
  {
    NoCharIndex(s, c);
  }

  /** Cutting `a + [c] + b` at its first `c` gives `a` before and `b` after. */
  lemma UpToFirst(a: string, c: char, b: string)
    requires c !in a
    ensures UpTo(a + [c] + b, c) == a && AfterFirst(a + [c] + b, c) == b
  {
    FirstCharIndex(a, c, b);
    assert (a + [c] + b)[..|a|] == a;
    assert (a + [c] + b)[|a| + 1..] == b;
  }

  /** `scheme:hier?query` parses to the pathname of `hier` and the pairs of `query`. */
  lemma ParseUrlParts(scheme: string, hier: string, query: string)
    requires IsScheme(scheme)
    requires '?' !in hier && '#' !in hier && '#' !in query
    ensures ParseUrl(scheme + ":" + hier + "?" + query)
         == Some(Url(PathnameOf(hier), ParseSearchParams(query)))
  {
    var afterScheme := hier + "?" + query;
    var input := scheme + ":" + hier + "?" + query;
    SchemeHasNoColon(scheme);
    assert input == scheme + [':'] + afterScheme;
    FirstCharIndex(scheme, ':', afterScheme);
    assert input[..|scheme|] == scheme;
    assert input[|scheme| + 1..] == afterScheme;
    assert '#' !in afterScheme;
    UpToWithout(afterScheme, '#');
    assert afterScheme == hier + ['?'] + query;
    UpToFirst(hier, '?', query);
  }

  /** The pathname of `///path` is `/path`: the authority between the slashes is empty. */
  lemma PathnameOfEmptyAuthority(path: string)
    ensures PathnameOf("///" + path) == "/" + path
  {
    var hierPart := "///" + path;
    assert hierPart[..2] == "//";
    assert hierPart[2..] == [] + ['/'] + path;
    FirstCharIndex([], '/', path);
  }

  /** A `bluesky:///path?query` link parses to pathname `/path` and the pairs of the query. */
  lemma ParseThreeSlashLink(path: string, query: string)
    requires '?' !in path && '#' !in path && '#' !in query
    ensures ParseUrl("bluesky:///" + path + "?" + query)
         == Some(Url("/" + path, ParseSearchParams(query)))
  {
    assert "bluesky:///" + path + "?" + query == "bluesky" + ":" + ("///" + path) + "?" + query;
    BlueskyIsScheme();
    ParseUrlParts("bluesky", "///" + path, query);
    PathnameOfEmptyAuthority(path);
  }
  /** A `bluesky:///path` link without query parses to pathname `/path` and no pairs. */
  lemma ParseThreeSlashLinkWithoutQuery(path: string)
    requires '?' !in path && '#' !in path
    ensures ParseUrl("bluesky:///" + path) == Some(Url("/" + path, []))
  {
    assert "bluesky:///" + path == "bluesky" + ":" + ("///" + path);
    BlueskyIsScheme();
    ParseUrlPartsWithoutQuery("bluesky", "///" + path);
    PathnameOfEmptyAuthority(path);
    EmptyQuery();
  }

  /** `scheme:hier` without query parses to the pathname of `hier` and the pairs of the empty query. */
  lemma ParseUrlPartsWithoutQuery(scheme: string, hier: string)
    requires IsScheme(scheme)
    requires '?' !in hier && '#' !in hier
    ensures ParseUrl(scheme + ":" + hier) == Some(Url(PathnameOf(hier), ParseSearchParams("")))
  {
    var input := scheme + ":" + hier;
    SchemeHasNoColon(scheme);
    assert input == scheme + [':'] + hier;
    FirstCharIndex(scheme, ':', hier);
    assert input[..|scheme|] == scheme;
    assert input[|scheme| + 1..] == hier;
    UpToWithout(hier, '#');
    UpToWithout(hier, '?');
  }

  lemma BlueskyIsScheme()
    ensures IsScheme("bluesky")
  {
  }

  /** The empty query has no pairs. */
  lemma EmptyQuery()
    ensures ParseSearchParams("") == []
  {
    assert Split("", '&') == [""];
  }
}
