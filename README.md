# Deep-link intent handler, modelled in Dafny

This project models the deep-link intent pipeline of the social app's
`useIntentHandler` hook (`src/lib/hooks/useIntentHandler.ts`). An incoming
`bluesky://` link goes through these steps:

1. **Normalisation.** A `bluesky://` link that does not already start with
   `bluesky:///` gets one extra `/` after the scheme. This puts the first path
   word in the pathname rather than in the host.
2. **Parsing and intent extraction.** The link is parsed as a URL. Its pathname
   is split on `/`. The link is an intent only when element 1 is exactly
   `intent`, and it is acted on only when element 2 is exactly `compose`. The
   compose intent carries the first `text` and `imageUris` query values.
3. **Image-list validation.** `imageUris` is split on `,`. An entry that holds
   `https://` or `http://` anywhere is dropped. This test is a case-sensitive
   `includes`, so entries such as `HTTPS://host/x.png|1|1`, `ftp://host/x.png|1|1`
   or `//host/x.png|1|1` are not dropped by it (`UpperCaseSchemeKept`). So is an entry that does not
   match `^[\w.:\-_/]+\|\d+(\.\d+)?\|\d+(\.\d+)?$` as a whole. Each remaining
   entry becomes `{uri, width, height}` from its three `|`-separated fields,
   in the original order.
4. **Session-gated dispatch.** Without a session the callback does nothing.
   With a session it closes every active element, then schedules
   `openComposer` 500 ms later. A null `text` is passed as absent. The images
   are passed only on a native platform.

Modules, one per file:

- `Wrappers`: `Option`.
- `Strings`: the JavaScript string operations the hook uses (`startsWith`,
  `includes`, `indexOf`, `replace` with a string pattern, `split` on one
  character), on `seq<char>`.
- `UrlNormalizer`: step 1.
- `UrlParser`: a small stand-in for `new URL` and `URLSearchParams`.
- `IntentExtractor`: step 2.
- `ImageValidation`: step 3.
- `ComposeDispatch`: step 4, and the handler as a whole. The pure steps are
  functions. The handler is a class, `IntentHandler`, whose methods append the
  two external effects (`CloseAllActiveElements`, then
  `ScheduleOpenComposer(payload, 500)`) to an event-log field. Each method is
  specified against the effect functions `ComposeEffects` and `LinkEffects`,
  and lemmas prove the properties of those functions.
- `IntentExamples`: concrete links and image lists, with what is proved of the model for each.

The code reads the intent marker at index 1 of `pathname.split('/')`, and the
model does the same. Reading the marker as the first non-empty segment instead
would differ for `bluesky:////intent/compose`: its pathname is
`//intent/compose`, index 1 is empty, and so the code, and the model, do not
treat it as an intent (`FourSlashLinkWithoutQueryHasNoEffect`,
`FourSlashLinkHasNoEffect`, `FourSlashComposeLinkIgnored`).

## Model

| member | source | states |
|---|---|---|
| Strings.IndexOf | src/lib/hooks/useIntentHandler.ts:23 | the index `replace` rewrites is an occurrence of the pattern with no earlier occurrence; none exactly when the pattern does not occur |
| Strings.ReplaceFirst | src/lib/hooks/useIntentHandler.ts:23 | a string without the pattern is unchanged; otherwise the length grows by the length difference of replacement and pattern |
| Strings.ReplaceFirstAtStart | src/lib/hooks/useIntentHandler.ts:23 | when the string begins with the pattern, only that leading occurrence is replaced |
| Strings.ContainsInPrefix | src/lib/hooks/useIntentHandler.ts:73 | an occurrence inside a prefix is an occurrence in the whole string |
| Strings.MissingCharNotContained | src/lib/hooks/useIntentHandler.ts:73 | a string lacking one character of a pattern does not contain the pattern |
| Strings.Split | src/lib/hooks/useIntentHandler.ts:27 | `split` on one character gives at least one piece, and no piece holds the separator |
| Strings.JoinSplit | src/lib/hooks/useIntentHandler.ts:68 | joining the pieces of a split with the separator gives back the string |
| Strings.SplitJoin | src/lib/hooks/useIntentHandler.ts:68 | splitting a join of separator-free pieces gives back the pieces |
| Strings.SplitLength | src/lib/hooks/useIntentHandler.ts:68 | a split has one piece more than the string has separators |
| Strings.SplitWithoutSeparator | src/lib/hooks/useIntentHandler.ts:68 | a string without the separator splits into itself alone |
| Strings.SplitAtFirst | src/lib/hooks/useIntentHandler.ts:80 | a split at the first separator is the leading piece followed by the split of the rest |
| UrlNormalizer.NormalizeUrl | src/lib/hooks/useIntentHandler.ts:22-24 | a `bluesky://` link comes out starting with `bluesky:///`; every other string is unchanged |
| UrlNormalizer.NormalizeInsertsOneSlash | src/lib/hooks/useIntentHandler.ts:22-24 | a two-slash link gains exactly one `/` after `bluesky://`: one character longer, and deleting that `/` gives the input back |
| UrlNormalizer.NormalizeTwoSlashLink | src/lib/hooks/useIntentHandler.ts:22-24 | `bluesky://` + rest, with rest not beginning with `/`, becomes `bluesky:///` + rest |
| UrlNormalizer.NormalizeKeepsOthers | src/lib/hooks/useIntentHandler.ts:22-24 | a string that is not a two-slash link, or is already three-slash, is unchanged |
| UrlNormalizer.NormalizeIdempotent | src/lib/hooks/useIntentHandler.ts:22-24 | normalising twice equals normalising once |
| UrlParser.UpTo | src/lib/hooks/useIntentHandler.ts:26 | the part kept is a prefix of the input and holds no delimiter |
| UrlParser.ParseUrl | src/lib/hooks/useIntentHandler.ts:26 | `new URL` fails exactly when there is no `:` or the text before it is not a scheme; a pathname holds no `?` and no `#` |
| UrlParser.NameValuePairs | src/lib/hooks/useIntentHandler.ts:32 | there are at most as many pairs as `&`-separated pieces |
| UrlParser.ParseSearchParams | src/lib/hooks/useIntentHandler.ts:32 | there are at most as many query pairs as `&`-separated pieces |
| UrlParser.Get | src/lib/hooks/useIntentHandler.ts:39-40 | `get` gives null exactly when no pair has the name; otherwise it gives the value of the first pair with that name |
| UrlParser.SearchParamsCons | src/lib/hooks/useIntentHandler.ts:32 | `name=value&rest` reads as that pair followed by the pairs of `rest` |
| UrlParser.SearchParamsSingle | src/lib/hooks/useIntentHandler.ts:32 | `name=value` reads as the one pair |
| UrlParser.TwoPairQuery | src/lib/hooks/useIntentHandler.ts:32 | `a=x&b=y` reads as the two pairs `(a, x)` and `(b, y)`, in order |
| UrlParser.PathnameLacks | src/lib/hooks/useIntentHandler.ts:26 | the pathname lacks every character the part it is read from lacks |
| UrlParser.TwoValueQuery | src/lib/hooks/useIntentHandler.ts:39-40 | in `a=x&b=y` with distinct names, `get(a)` is `x` and `get(b)` is `y` |
| UrlParser.EmptyQuery | src/lib/hooks/useIntentHandler.ts:32 | an empty query has no pairs |
| UrlParser.BlueskyIsScheme | src/lib/hooks/useIntentHandler.ts:26 | `bluesky` is a valid scheme |
| UrlParser.SchemeHasNoColon | src/lib/hooks/useIntentHandler.ts:26 | a valid scheme holds no `:`, so the scheme of `scheme:rest` ends at that `:` |
| UrlParser.PathnameOf | src/lib/hooks/useIntentHandler.ts:26 | the pathname is a suffix of the text after the scheme; without a leading `//` it is that whole text; after an authority it is empty or begins with `/` |
| UrlParser.PrefixLacks | src/lib/hooks/useIntentHandler.ts:26 | a prefix of a string lacks every character the string lacks |
| UrlParser.NameValue | src/lib/hooks/useIntentHandler.ts:32 | the name holds no `=`; a piece with `=` is name `=` value, cut at its first `=`; a piece without `=` is a name with the empty value |
| UrlParser.ParseUrlParts | src/lib/hooks/useIntentHandler.ts:26 | `scheme:hier?query` parses to the pathname of `hier` and the pairs of `query` |
| UrlParser.ParseUrlPartsWithoutQuery | src/lib/hooks/useIntentHandler.ts:26 | `scheme:hier` parses to the pathname of `hier` and no pairs |
| UrlParser.PathnameOfEmptyAuthority | src/lib/hooks/useIntentHandler.ts:26 | after an empty authority `//`, the pathname of `///path` is `/path` |
| UrlParser.ParseThreeSlashLink | src/lib/hooks/useIntentHandler.ts:26 | `bluesky:///path?query` has pathname `/path` and the pairs of `query` |
| UrlParser.ParseThreeSlashLinkWithoutQuery | src/lib/hooks/useIntentHandler.ts:26 | `bluesky:///path` has pathname `/path` and no pairs |
| IntentExtractor.PathSegment | src/lib/hooks/useIntentHandler.ts:27 | a destructured segment, when present, holds no `/` |
| IntentExtractor.ExtractIntent | src/lib/hooks/useIntentHandler.ts:27-43 | the result is compose exactly when segment 1 is `intent` and segment 2 is `compose`; it then carries `get('text')` and `get('imageUris')` |
| IntentExtractor.SlashFreePathIsNoIntent | src/lib/hooks/useIntentHandler.ts:27-34 | a pathname without `/` is never an intent |
| IntentExtractor.ComposeTextHasComposeSegments | src/lib/hooks/useIntentHandler.ts:36-37 | `intent/compose`, alone or followed by `/`, splits into segments beginning `intent`, `compose` |
| IntentExtractor.ComposeSegmentsHaveComposeText | src/lib/hooks/useIntentHandler.ts:36-37 | segments beginning `intent`, `compose` come only from `intent/compose`, alone or followed by `/` |
| IntentExtractor.ComposePathIff | src/lib/hooks/useIntentHandler.ts:27-43 | for pathname `first/rest` with a `/`-free `first`: compose exactly when `rest` is `intent/compose` or continues it with `/` |
| IntentExtractor.ComposePathIsCompose | src/lib/hooks/useIntentHandler.ts:36-41 | the pathname `/intent/compose` is the compose intent with the query's `text` and `imageUris` |
| IntentExtractor.DoubleSlashPathIsNoIntent | src/lib/hooks/useIntentHandler.ts:27-34 | a pathname beginning with `//` has an empty segment 1 and is not an intent |
| ImageValidation.DecimalHasNoBar | src/lib/hooks/useIntentHandler.ts:10 | a `\d+(\.\d+)?` text holds no `\|` |
| ImageValidation.PathTokenHasNoBar | src/lib/hooks/useIntentHandler.ts:10 | a `[\w.:\-_/]+` text holds no `\|` |
| ImageValidation.SplitThreeFields | src/lib/hooks/useIntentHandler.ts:80 | three `\|`-free fields joined with `\|` split back into those three fields |
| ImageValidation.SplitFieldsAt | src/lib/hooks/useIntentHandler.ts:80 | the two bars of a matching entry cut it into exactly its three `split('\|')` fields |
| ImageValidation.PatternFields | src/lib/hooks/useIntentHandler.ts:10 | an entry matching the pattern splits on `\|` into exactly three fields, a path token and two decimals, and is their join |
| ImageValidation.FieldsMatchPattern | src/lib/hooks/useIntentHandler.ts:10 | an entry whose `\|`-split is a path token and two decimals matches the pattern |
| ImageValidation.PatternIffFields | src/lib/hooks/useIntentHandler.ts:10 | the pattern matches exactly when the `\|`-split is a path token and two decimals |
| ImageValidation.MatchesImagePattern | src/lib/hooks/useIntentHandler.ts:10 | proved equivalent to the `\|`-split being a path token and two decimals (`PatternIffFields`) |
| ImageValidation.HasRemoteLocator | src/lib/hooks/useIntentHandler.ts:73 | a case-sensitive search for `https://` or `http://`; it fails for an entry lacking `:` (`ColonFreeHasNoLocator`) or `h` (`UpperCaseSchemeKept`) |
| ImageValidation.KeepEntry | src/lib/hooks/useIntentHandler.ts:69-78 | an entry is kept exactly when it holds neither `https://` nor `http://` and splits into a path token and two decimals (`EntryKeptIff`) |
| ImageValidation.DigitsValue | src/lib/hooks/useIntentHandler.ts:81 | the value of a digit string: below ten to its length (`DigitsBelowPow10`), and appending digits shifts it by ten to their count (`DigitsValueAppend`) |
| ImageValidation.DigitsBelowPow10 | src/lib/hooks/useIntentHandler.ts:81 | `n` digits denote less than ten to the `n` |
| ImageValidation.DigitsValueAppend | src/lib/hooks/useIntentHandler.ts:81 | the value of `a + b` is the value of `a` times ten to the length of `b`, plus the value of `b` |
| ImageValidation.FractionValue | src/lib/hooks/useIntentHandler.ts:81 | the digits after a decimal point denote a value in `[0, 1)` |
| ImageValidation.FractionSplit | src/lib/hooks/useIntentHandler.ts:81 | `a.b` with digit strings `a` and `b` splits on `.` into `a` and `b` |
| ImageValidation.DecimalValueOfFraction | src/lib/hooks/useIntentHandler.ts:81 | `Number(a.b)` is the value of `a` plus the fraction `b`, so its whole part is the value of `a` |
| ImageValidation.Pow10 | src/lib/hooks/useIntentHandler.ts:81 | the scale of a fraction is at least 1 |
| ImageValidation.DecimalValue | src/lib/hooks/useIntentHandler.ts:81 | `Number` of a matched decimal is non-negative, and for a text without `.` it is the value of its digits; `DecimalValueOfFraction` gives the value of `a.b` |
| ImageValidation.SplitJoinOne | src/lib/hooks/useIntentHandler.ts:81 | a split has one piece exactly when the separator is absent, and that piece is the whole text |
| ImageValidation.PrefixKeepsNoLocator | src/lib/hooks/useIntentHandler.ts:73-80 | a leading field of an entry without `http(s)://` has none either |
| ImageValidation.ToImageRef | src/lib/hooks/useIntentHandler.ts:79-81 | the `uri` is a `\|`-free path token that begins the entry up to its first `\|`; both dimensions are non-negative; an entry holding neither `https://` nor `http://` (case-sensitive) gives a reference whose `uri` holds neither |
| ImageValidation.ToImageRefFields | src/lib/hooks/useIntentHandler.ts:80-81 | with bars at `i` and `j`, the image is the text before `i`, `Number` of the text between the bars and `Number` of the text after `j` |
| ImageValidation.ValidImages | src/lib/hooks/useIntentHandler.ts:67-82 | filter and map keep at most as many images as entries, and every image is a path token holding neither `http://` nor `https://` (case-sensitive) |
| ImageValidation.ImagesFromParam | src/lib/hooks/useIntentHandler.ts:67-82 | the list is absent exactly when the parameter is absent; it has at most as many images as `,`-separated entries, each a path token holding neither `http://` nor `https://` (case-sensitive) |
| ImageValidation.ValidImagesAppend | src/lib/hooks/useIntentHandler.ts:67-82 | entries are validated one by one: the images of a concatenation are the concatenation of the images |
| ImageValidation.DroppedEntryIsInvisible | src/lib/hooks/useIntentHandler.ts:69-78 | a rejected entry leaves the images of the other entries unchanged |
| ImageValidation.KeptEntryInPlace | src/lib/hooks/useIntentHandler.ts:79-82 | a kept entry yields its image at its own place among its neighbours' images, with nothing deduplicated |
| ImageValidation.RemoteEntryDropped | src/lib/hooks/useIntentHandler.ts:73-75 | an entry holding `https://` or `http://` yields no image, even when it matches the pattern |
| ImageValidation.ImagesOfJoinedEntries | src/lib/hooks/useIntentHandler.ts:67-68 | a parameter made of `,`-free entries joined by `,` is validated entry by entry |
| ImageValidation.ImagesOfTwoEntries | src/lib/hooks/useIntentHandler.ts:67-82 | `a,b` gives the images of `a`, then those of `b` |
| ImageValidation.SingleEntryKeptIff | src/lib/hooks/useIntentHandler.ts:69-81 | a one-entry parameter gives its image when the entry is kept, and an empty list otherwise |
| ImageValidation.ValidImagesOne | src/lib/hooks/useIntentHandler.ts:69-81 | one entry gives its image when kept and nothing otherwise |
| ImageValidation.EntryKeptIff | src/lib/hooks/useIntentHandler.ts:73-77 | an entry yields an image exactly when it holds no `http(s)://` and its `\|`-split is a path token and two decimals |
| ImageValidation.ColonFreeHasNoLocator | src/lib/hooks/useIntentHandler.ts:73 | an entry without `:` holds neither `https://` nor `http://` |
| ComposeDispatch.ComposeEffects | src/lib/hooks/useIntentHandler.ts:62-89 | no effect exactly without a session; otherwise close-all, then one opening at 500 ms with the text as given and images exactly when native and the parameter is present |
| ComposeDispatch.LinkEffects | src/lib/hooks/useIntentHandler.ts:17-44 | without a session a link has no effect; any effect is close-all followed by one scheduled opening |
| ComposeDispatch.ComposeWithSession | src/lib/hooks/useIntentHandler.ts:65-89 | with a session: exactly one close-all, strictly before exactly one scheduled opening with delay 500, the text as given, and the images only on native |
| ComposeDispatch.ComposeWithoutSession | src/lib/hooks/useIntentHandler.ts:63 | without a session the callback has no effect |
| ComposeDispatch.NonIntentLinkHasNoEffect | src/lib/hooks/useIntentHandler.ts:31-34 | a parsed link whose segment 1 is not `intent` has no effect |
| ComposeDispatch.EffectsOnlyForCompose | src/lib/hooks/useIntentHandler.ts:34-43 | any effect at all implies a session, a parsed link, `intent` at segment 1 and `compose` at segment 2 |
| ComposeDispatch.TwoSlashLinkParses | src/lib/hooks/useIntentHandler.ts:22-26 | a normalised `bluesky://path?query` parses to pathname `/path` and the pairs of `query` |
| ComposeDispatch.ComposeLinkCarriesQuery | src/lib/hooks/useIntentHandler.ts:26-41 | `bluesky://intent/compose?query` has the effects of the callback given the query's first `text` and `imageUris` |
| ComposeDispatch.ComposeLinkReachesCallback | src/lib/hooks/useIntentHandler.ts:38-41 | `bluesky://intent/compose?text=t&imageUris=u` hands `t` and `u` unchanged to the callback |
| ComposeDispatch.FourSlashLinkHasNoEffect | src/lib/hooks/useIntentHandler.ts:27-34 | `bluesky:////path?query` links are never intents and have no effect |
| ComposeDispatch.FourSlashLinkWithoutQueryHasNoEffect | src/lib/hooks/useIntentHandler.ts:27-34 | `bluesky:////path` links without a query are never intents and have no effect |
| ComposeDispatch.IntentHandler.constructor | src/lib/hooks/useIntentHandler.ts:50-53 | the handler starts with the given session and platform and an empty event log |
| ComposeDispatch.IntentHandler.ComposeIntent | src/lib/hooks/useIntentHandler.ts:62-89 | without a session the log is unchanged; with one it gains close-all, then the opening scheduled at 500 ms with the text and, on native only, the images |
| ComposeDispatch.IntentHandler.HandleIncomingUrl | src/lib/hooks/useIntentHandler.ts:17-44 | it throws exactly when the normalised link does not parse; the log gains exactly the effects of the link |
| ComposeDispatch.IntentHandler.OnIncomingUrl | src/lib/hooks/useIntentHandler.ts:46 | a missing or empty URL changes nothing; any other URL is handled as above |
| IntentExamples.DigitsValues | src/lib/hooks/useIntentHandler.ts:81 | `10`, `100`, `320` and `240` denote those numbers |
| IntentExamples.DigitFieldsEntry | src/lib/hooks/useIntentHandler.ts:10 | `path\|w\|h`, with a path token and digit strings, matches the pattern and maps to that path and the values of `w` and `h` |
| IntentExamples.EntryLacks | src/lib/hooks/useIntentHandler.ts:73 | a character outside the path that is neither a bar nor a digit is not in `path\|w\|h` |
| IntentExamples.ColonFreeEntry | src/lib/hooks/useIntentHandler.ts:69-81 | `path\|w\|h`, with a colon-free path token and digit strings, is kept as the image of that path with the values of `w` and `h` |
| IntentExamples.PathTokenAppend | src/lib/hooks/useIntentHandler.ts:10 | path tokens concatenate into a path token |
| IntentExamples.LocalEntryKept | src/lib/hooks/useIntentHandler.ts:77-81 | `local/cache/abc.jpg\|320\|240` is kept as that path, 320 by 240 |
| IntentExamples.LocalImageAccepted | src/lib/hooks/useIntentHandler.ts:67-82 | that parameter yields exactly that one image |
| IntentExamples.RemotePathIsPathToken | src/lib/hooks/useIntentHandler.ts:10 | `https://evil.example/x.png` is made only of pattern path characters |
| IntentExamples.RemoteEntryShape | src/lib/hooks/useIntentHandler.ts:10 | `https://evil.example/x.png\|100\|100` matches the pattern and holds `https://` |
| IntentExamples.RemoteImageRejected | src/lib/hooks/useIntentHandler.ts:71-75 | that entry matches the pattern, yet the parameter yields no image |
| IntentExamples.UpperCasePath | src/lib/hooks/useIntentHandler.ts:10 | `HTTPS://evil.example/x.png` is a path token with no `h` and no `,` |
| IntentExamples.LowerHFreeEntryKept | src/lib/hooks/useIntentHandler.ts:67-81 | a one-entry parameter `path\|w\|h` whose path token has no lower-case `h` yields its image |
| IntentExamples.UpperCaseSchemeKept | src/lib/hooks/useIntentHandler.ts:73-81 | `HTTPS://evil.example/x.png\|10\|10` is kept by the case-sensitive filter and yields its image, 10 by 10 |
| IntentExamples.DecimalOneAndAHalf | src/lib/hooks/useIntentHandler.ts:81 | `Number("1.5")` is 1.5 |
| IntentExamples.GoodEntry | src/lib/hooks/useIntentHandler.ts:77-81 | `a/b.png\|10\|10` is kept as `a/b.png`, 10 by 10 |
| IntentExamples.BadEntry | src/lib/hooks/useIntentHandler.ts:77 | `not-an-image` is not kept |
| IntentExamples.MixedListKeepsValidEntry | src/lib/hooks/useIntentHandler.ts:67-82 | `a/b.png\|10\|10,not-an-image` yields exactly the first entry's image |
| IntentExamples.ComposeLinkImages | src/lib/hooks/useIntentHandler.ts:67-82 | the `imageUris` value `a/b.png\|10\|10` yields the one image |
| IntentExamples.ComposeLinkEndToEnd | src/lib/hooks/useIntentHandler.ts:22-89 | signed in, `bluesky://intent/compose?text=hello&imageUris=a/b.png\|10\|10` gives close-all, then one opening at 500 ms with `hello` and, on native only, the image |
| IntentExamples.ComposeLinkWithoutSession | src/lib/hooks/useIntentHandler.ts:63 | the same link without a session has no effect |
| IntentExamples.FourSlashComposeLinkIgnored | src/lib/hooks/useIntentHandler.ts:27-34 | `bluesky:////intent/compose` has no effect |

## Left out

- `new URL` and `URLSearchParams` (`src/lib/hooks/useIntentHandler.ts:26`, `:32`) are replaced by a small parser. Its scheme check is an ASCII letter followed by letters, digits, `+`, `-` or `.`. It cuts the fragment at `#` and the query at `?`, and skips an authority after `//` up to the next `/`. It reads query pieces split on `&` at their first `=`. It does not model percent-decoding, `+` as a space, dot-segment removal, special-scheme rules, host validation, or whitespace and control-character stripping. The exception `new URL` throws is a `None` result, reported as `threw`.
- `Number(width)` and `Number(height)` are modelled as the exact value of the matched decimal text (a `real`). Floating-point rounding is not modelled.
- `setTimeout` is recorded as a `ScheduleOpenComposer(payload, 500)` event when it is scheduled. Time passing, the callback firing later, and the interleaving of several pending openings are not modelled.
- The React plumbing is not modelled: the `useEffect` re-run on changed dependencies (line 47), the `Linking.useURL()` subscription (line 13) and the `useCallback` memoisation (line 91). `OnIncomingUrl` is one run of the effect.
- `useSession`, `useCloseAllActiveElements`, `useComposerControls` and `isNative` are outside code. They become the handler's `hasSession` and `isNative` fields, and the two effects in its log. What `openComposer` and `closeAllActiveElements` do is not part of this model.
- `src/components/Prompt.tsx` is dialog layout with no logic, and is not part of this model.
