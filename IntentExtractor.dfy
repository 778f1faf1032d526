/**
 * Deciding, from a parsed URL, whether the link is an intent and of which
 * kind: `pathname.split('/')` destructured as `[_, intent, intentType]`, the
 * marker `intent` at index 1 and the kind at index 2.
 */
module IntentExtractor {
  import opened Wrappers
  import opened Strings
  import opened UrlParser

  /** The outcome of extraction; `compose` is the only kind the handler acts on. */
  datatype Intent =
    | NoIntent
    | Compose(text: Option<string>, imageUrisStr: Option<string>)

  /** Element `k` of `pathname.split('/')`; `None` past the end, as array destructuring gives `undefined`. */
  function PathSegment(pathname: string, k: nat): (r: Option<string>)
    ensures r.Some? ==> '/' !in r.value
  {
    var segments := Split(pathname, '/');
    if k < |segments| then Some(segments[k]) else None
  }

  /**
   * The marker must be exactly `intent` at index 1 and the kind exactly
   * `compose` at index 2; anything else is not an intent. The compose intent
   * carries the first `text` and `imageUris` query values.
   */
  function ExtractIntent(url: Url): (r: Intent)
    ensures r.Compose? <==>
              PathSegment(url.pathname, 1) == Some("intent") && PathSegment(url.pathname, 2) == Some("compose")
    ensures r.Compose? ==>
              r.text == Get(url.searchParams, "text") && r.imageUrisStr == Get(url.searchParams, "imageUris")
  {
    if PathSegment(url.pathname, 1) != Some("intent") then NoIntent
    else if PathSegment(url.pathname, 2) == Some("compose") then
      Compose(Get(url.searchParams, "text"), Get(url.searchParams, "imageUris"))
    else NoIntent
  }

  /** A pathname without `/` has a single segment, so it is never an intent. */
  lemma SlashFreePathIsNoIntent(url: Url)
    requires '/' !in url.pathname
    ensures ExtractIntent(url) == NoIntent
  {
    SplitWithoutSeparator(url.pathname, '/');
  }

  /** The segments of `rest` begin with `intent`, `compose` exactly when `rest` is `intent/compose` or continues it with `/`. */
  predicate BeginsWithComposeSegments(rest: string) {
    var segments := Split(rest, '/');
    |segments| >= 2 && segments[0] == "intent" && segments[1] == "compose"
  }

  lemma ComposeTextHasComposeSegments(rest: string)
    requires rest == "intent/compose" || StartsWith(rest, "intent/compose/")
    ensures BeginsWithComposeSegments(rest)
  {
    if rest == "intent/compose" {
      assert rest == "intent" + ['/'] + "compose";
      SplitAtFirst("intent", '/', "compose");
      SplitWithoutSeparator("compose", '/');
    } else {
      var more := rest[|"intent/compose/"|..];
      assert rest == "intent" + ['/'] + ("compose" + ['/'] + more);
      SplitAtFirst("intent", '/', "compose" + ['/'] + more);
      SplitAtFirst("compose", '/', more);
    }
  }

  lemma ComposeSegmentsHaveComposeText(rest: string)
    requires BeginsWithComposeSegments(rest)
    ensures rest == "intent/compose" || StartsWith(rest, "intent/compose/")
  {
    var segments := Split(rest, '/');
    JoinSplit(rest, '/');
    if |segments| == 2 {
      assert rest == segments[0] + ['/'] + segments[1];
    } else {
      assert segments[1..][1..] == segments[2..];
      assert rest == "intent" + ['/'] + ("compose" + ['/'] + Join(segments[2..], '/'));
      assert rest[..|"intent/compose/"|] == "intent/compose/";
    }
  }

  /**
   * With the pathname written `first/rest` (`first` holding no `/`, and empty
   * for every pathname that starts with `/`), the link is a compose intent
   * exactly when `rest` is `intent/compose` or continues it with `/`.
   */
  lemma ComposePathIff(url: Url, first: string, rest: string)
    requires '/' !in first && url.pathname == first + "/" + rest
    ensures ExtractIntent(url).Compose? <==>
              rest == "intent/compose" || StartsWith(rest, "intent/compose/")
  {
    assert url.pathname == first + ['/'] + rest;
    SplitAtFirst(first, '/', rest);
    assert Split(url.pathname, '/')[1..] == Split(rest, '/');
    assert ExtractIntent(url).Compose? <==> BeginsWithComposeSegments(rest);
    if BeginsWithComposeSegments(rest) {
      ComposeSegmentsHaveComposeText(rest);
    }
    if rest == "intent/compose" || StartsWith(rest, "intent/compose/") {
      ComposeTextHasComposeSegments(rest);
    }
  }

  /** The pathname `/intent/compose` is the compose intent, whatever the query. */
  lemma ComposePathIsCompose(url: Url)
    requires url.pathname == "/" + "intent/compose"
    ensures ExtractIntent(url) == Compose(Get(url.searchParams, "text"), Get(url.searchParams, "imageUris"))
  {
    assert url.pathname == "" + "/" + "intent/compose";
    ComposePathIff(url, "", "intent/compose");
  }

  /** A pathname that begins with `//` has an empty segment 1, so it is never an intent. */
  lemma DoubleSlashPathIsNoIntent(url: Url, rest: string)
    requires url.pathname == "/" + ("/" + rest)
    ensures ExtractIntent(url) == NoIntent
  {
    assert url.pathname == "" + "/" + ("/" + rest);
    ComposePathIff(url, "", "/" + rest);
    assert ("/" + rest)[0] == '/' != "intent/compose"[0];
  }
}
