/**
 * The intent handler as a whole: the compose callback, which checks the
 * session, closes every active element and schedules `openComposer` after
 * 500 ms, and `handleIncomingURL`, which normalises, parses and extracts the
 * intent before calling it. The two external effects are recorded, in order,
 * in an event log.
 */
module ComposeDispatch {
  import opened Wrappers
  import opened UrlNormalizer
  import opened UrlParser
  import opened IntentExtractor
  import opened ImageValidation

  /** The fixed delay before the composer is opened. */
  const OpenComposerDelayMs: nat := 500

  /** The argument of `openComposer`; `None` for a field left `undefined`. */
  datatype ComposerPayload = ComposerPayload(text: Option<string>, imageUris: Option<seq<ImageRef>>)

  /** The external effects: `closeAllActiveElements()` and a `setTimeout` of `openComposer(payload)`. */
  datatype Effect =
    | CloseAllActiveElements
    | ScheduleOpenComposer(payload: ComposerPayload, delayMs: nat)

  /**
   * The effects of the compose callback: nothing without a session, and
   * otherwise a close-all followed by one opening 500 ms later that carries
   * the text as given and images exactly when native and the parameter is present.
   */
  function ComposeEffects(hasSession: bool, isNative: bool, text: Option<string>, imageUrisStr: Option<string>): (effects: seq<Effect>)
    ensures effects == [] <==> !hasSession
    ensures effects != [] ==>
      && |effects| == 2 && effects[0] == CloseAllActiveElements
      && effects[1].ScheduleOpenComposer? && effects[1].delayMs == OpenComposerDelayMs
      && effects[1].payload.text == text
      && (effects[1].payload.imageUris.Some? <==> isNative && imageUrisStr.Some?)
  {
    if !hasSession then []
    else
      var imageUris := ImagesFromParam(imageUrisStr);
      [ CloseAllActiveElements,
        ScheduleOpenComposer(ComposerPayload(text, if isNative then imageUris else None), OpenComposerDelayMs) ]
  }

  /**
   * The effects of handling one incoming link; a link that does not parse
   * throws before any effect. Any effect at all needs a session and is the
   * callback's pair of effects.
   */
  function LinkEffects(hasSession: bool, isNative: bool, url: string): (effects: seq<Effect>)
    ensures !hasSession ==> effects == []
    ensures effects != [] ==> |effects| == 2 && effects[0] == CloseAllActiveElements && effects[1].ScheduleOpenComposer?
  {
    match ParseUrl(NormalizeUrl(url))
    case None => []
    case Some(parsed) =>
      match ExtractIntent(parsed)
      case NoIntent => []
      case Compose(text, imageUrisStr) => ComposeEffects(hasSession, isNative, text, imageUrisStr)
  }

  /** How many times close-all occurs in `effects`. */
  function CloseAllCount(effects: seq<Effect>): nat {
    |set k | 0 <= k < |effects| && effects[k].CloseAllActiveElements?|
  }

  /** How many composer openings `effects` schedules. */
  function OpenCount(effects: seq<Effect>): nat {
    |set k | 0 <= k < |effects| && effects[k].ScheduleOpenComposer?|
  }

  /**
   * With a session the callback closes all active elements exactly once,
   * strictly before it schedules exactly one opening, 500 ms later, with the
   * text as given and the images only on native platforms.
   */
  lemma ComposeWithSession(isNative: bool, text: Option<string>, imageUrisStr: Option<string>)
    ensures var effects := ComposeEffects(true, isNative, text, imageUrisStr);
      && CloseAllCount(effects) == 1 && OpenCount(effects) == 1
      && exists c, o | 0 <= c < o < |effects| ::
           && effects[c].CloseAllActiveElements?
           && effects[o] == ScheduleOpenComposer(
                ComposerPayload(text, if isNative then ImagesFromParam(imageUrisStr) else None), 500)
  {
    var effects := ComposeEffects(true, isNative, text, imageUrisStr);
    assert (set k | 0 <= k < |effects| && effects[k].CloseAllActiveElements?) == {0};
    assert (set k | 0 <= k < |effects| && effects[k].ScheduleOpenComposer?) == {1};
    assert effects[0].CloseAllActiveElements?;
  }

  /** Without a session the callback has no effect at all. */
  lemma ComposeWithoutSession(isNative: bool, text: Option<string>, imageUrisStr: Option<string>)
    ensures ComposeEffects(false, isNative, text, imageUrisStr) == []
  {
  }

  /** A link whose segment 1 is not exactly `intent` has no effect. */
  lemma NonIntentLinkHasNoEffect(hasSession: bool, isNative: bool, url: string)
    requires ParseUrl(NormalizeUrl(url)).Some?
    requires PathSegment(ParseUrl(NormalizeUrl(url)).value.pathname, 1) != Some("intent")
    ensures LinkEffects(hasSession, isNative, url) == []
  {
  }

  /** Only a signed-in compose link (`intent` at index 1, `compose` at index 2) has any effect. */
  lemma EffectsOnlyForCompose(hasSession: bool, isNative: bool, url: string)
    requires LinkEffects(hasSession, isNative, url) != []
    ensures hasSession
    ensures ParseUrl(NormalizeUrl(url)).Some?
    ensures var pathname := ParseUrl(NormalizeUrl(url)).value.pathname;
      PathSegment(pathname, 1) == Some("intent") && PathSegment(pathname, 2) == Some("compose")
  {
  }

  /** A two-slash link whose path does not begin with `/` parses as the three-slash link with that path. */
  lemma TwoSlashLinkParses(path: string, query: string)
    requires |path| > 0 && path[0] != '/' && '?' !in path && '#' !in path && '#' !in query
    ensures ParseUrl(NormalizeUrl(TwoSlashPrefix + path + "?" + query)) == Some(Url("/" + path, ParseSearchParams(query)))
  {
    var rest := path + "?" + query;
    assert TwoSlashPrefix + path + "?" + query == TwoSlashPrefix + rest;
    NormalizeTwoSlashLink(rest);
    assert ThreeSlashPrefix + rest == "bluesky:///" + path + "?" + query;
    ParseThreeSlashLink(path, query);
  }

  /**
   * A two-slash `intent/compose` link reaches the compose callback with the
   * first `text` and `imageUris` values of its query.
   */
  lemma ComposeLinkCarriesQuery(hasSession: bool, isNative: bool, query: string)
    requires '#' !in query
    ensures LinkEffects(hasSession, isNative, TwoSlashPrefix + "intent/compose" + "?" + query)
         == ComposeEffects(hasSession, isNative, Get(ParseSearchParams(query), "text"), Get(ParseSearchParams(query), "imageUris"))
  {
    var path := "intent/compose";
    assert path[0] == 'i' && '?' !in path && '#' !in path;
    TwoSlashLinkParses(path, query);
    ComposePathIsCompose(Url("/" + path, ParseSearchParams(query)));
  }

  /**
   * A two-slash compose link hands its `text` and `imageUris` values to the
   * compose callback unchanged.
   */
  lemma ComposeLinkReachesCallback(hasSession: bool, isNative: bool, text: string, imageUris: string)
    requires '&' !in text && '#' !in text && '&' !in imageUris && '#' !in imageUris
    ensures LinkEffects(hasSession, isNative, TwoSlashPrefix + "intent/compose" + "?" + ("text" + "=" + text + "&" + "imageUris" + "=" + imageUris))
         == ComposeEffects(hasSession, isNative, Some(text), Some(imageUris))
  {
    var query := "text" + "=" + text + "&" + "imageUris" + "=" + imageUris;
    assert '#' !in query by {
      assert '#' !in "text" && '#' !in "imageUris" && '#' !in "=" && '#' !in "&";
    }
    assert Get(ParseSearchParams(query), "text") == Some(text)
        && Get(ParseSearchParams(query), "imageUris") == Some(imageUris) by {
      assert "text" != "imageUris";
      TwoValueQuery("text", "imageUris", text, imageUris);
    }
    ComposeLinkCarriesQuery(hasSession, isNative, query);
  }

  /** A `bluesky:////…` link has an empty segment 1, so it is not an intent and has no effect. */
  lemma FourSlashLinkHasNoEffect(hasSession: bool, isNative: bool, path: string, query: string)
    requires '?' !in path && '#' !in path && '#' !in query
    ensures LinkEffects(hasSession, isNative, ThreeSlashPrefix + "/" + path + "?" + query) == []
  {
    var url := ThreeSlashPrefix + "/" + path + "?" + query;
    assert url[..|ThreeSlashPrefix|] == ThreeSlashPrefix;
    NormalizeKeepsOthers(url);
    assert url == "bluesky:///" + ("/" + path) + "?" + query;
    ParseThreeSlashLink("/" + path, query);
    DoubleSlashPathIsNoIntent(Url("/" + ("/" + path), ParseSearchParams(query)), path);
  }

  /** A `bluesky:////…` link without a query is not an intent either, and has no effect. */
  lemma FourSlashLinkWithoutQueryHasNoEffect(hasSession: bool, isNative: bool, path: string)
    requires '?' !in path && '#' !in path
    ensures LinkEffects(hasSession, isNative, ThreeSlashPrefix + "/" + path) == []
  {
    var url := ThreeSlashPrefix + "/" + path;
    assert url[..|ThreeSlashPrefix|] == ThreeSlashPrefix;
    NormalizeKeepsOthers(url);
    assert url == "bluesky:///" + ("/" + path);
    ParseThreeSlashLinkWithoutQuery("/" + path);
    DoubleSlashPathIsNoIntent(Url("/" + ("/" + path), []), path);
  }

  /** The running handler: session and platform as the hooks report them, and the log of effects so far. */
  class IntentHandler {
    var hasSession: bool
    const isNative: bool
    var log: seq<Effect>

    constructor (hasSession: bool, isNative: bool)
      ensures this.hasSession == hasSession && this.isNative == isNative && log == []
    {
      this.hasSession := hasSession;
      this.isNative := isNative;
      log := [];
    }

    /** The callback returned by `useComposeIntent`. */
    method ComposeIntent(text: Option<string>, imageUrisStr: Option<string>)
      modifies this`log
      ensures !hasSession ==> log == old(log)
      ensures hasSession ==> log == old(log) + [
                CloseAllActiveElements,
                ScheduleOpenComposer(
                  ComposerPayload(text, if isNative then ImagesFromParam(imageUrisStr) else None),
                  OpenComposerDelayMs)]
      ensures log == old(log) + ComposeEffects(hasSession, isNative, text, imageUrisStr)
    {
      if !hasSession {
        return;
      }
      log := log + [CloseAllActiveElements];
      var imageUris := ImagesFromParam(imageUrisStr);
      var payload := ComposerPayload(text, if isNative then imageUris else None);
      log := log + [ScheduleOpenComposer(payload, OpenComposerDelayMs)];
    }

    /** `handleIncomingURL`; `threw` stands for the exception `new URL` raises on a malformed link. */
    method HandleIncomingUrl(url: string) returns (threw: bool)
      modifies this`log
      ensures threw <==> ParseUrl(NormalizeUrl(url)).None?
      ensures log == old(log) + LinkEffects(hasSession, isNative, url)
    {
      var normalized := NormalizeUrl(url);
      var parsed := ParseUrl(normalized);
      if parsed.None? {
        return true;
      }
      threw := false;
      var intent := ExtractIntent(parsed.value);
      match intent {
        case NoIntent =>
        case Compose(text, imageUrisStr) =>
          ComposeIntent(text, imageUrisStr);
      }
    }

    /** The effect body: a missing or empty incoming URL is skipped. */
    method OnIncomingUrl(incomingUrl: Option<string>) returns (threw: bool)
      modifies this`log
      ensures incomingUrl.None? || incomingUrl == Some("") ==> !threw && log == old(log)
      ensures incomingUrl.Some? && incomingUrl != Some("") ==>
                (threw <==> ParseUrl(NormalizeUrl(incomingUrl.value)).None?)
                && log == old(log) + LinkEffects(hasSession, isNative, incomingUrl.value)
    {
      threw := false;
      if incomingUrl.Some? && incomingUrl.value != "" {
        threw := HandleIncomingUrl(incomingUrl.value);
      }
    }
  }
}
