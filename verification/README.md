# News feed: refresh, dedup and gateway model

A Dafny model of the decision logic of a small news page and the gateway
that feeds it.

- **Page (script.js).** A refresh cycle (`fetchNews`) queries `/api/news`
  with a fixed primary keyword list. If the reply's `totalResults` is not
  positive, it issues one keyword-less query and marks that list as
  placeholder news. A failed fetch shows an error message instead. The
  render step (`displayNews`) drops articles whose fingerprint (title
  followed by description) is already in the session's seen-set, keeps the
  first ten survivors in input order, records their fingerprints and turns
  each into an item. An item holds the title, a summary cut to 100
  characters plus `...`, the source (defaulting to `未知`), the link and the
  placeholder flag.
- **Gateway (server.js).** The `/api/news` handler uses a truthy `keywords`
  parameter verbatim, or else a fixed fallback list. It rewrites every
  `" OR "` to `" "` and queries the news API once. It converts each
  non-empty title and description to simplified script with `t2s`, then
  relays the envelope. A failed upstream reply is relayed with the
  upstream status and a fixed message. An internal failure gives 500.

Files, one module each:

- `optional.dfy` (`Optional`): the optional-value datatype.
- `js_values.dfy` (`JsValues`): JSON string properties as the JavaScript
  code sees them. A property is missing, `null` or a string. The module
  defines truthiness, `x || fallback` and string coercion.
- `articles.dfy` (`Articles`): the article and result-envelope shapes
  shared by both programs.
- `or_rewrite.dfy` (`OrRewrite`): the global `/ OR /g` replacement.
- `keywords.dfy` (`Keywords`): the two fixed keyword lists.
- `feed.dfy` (`Feed`): the render step.
- `refresh.dfy` (`Refresh`): the refresh cycle, and a session of cycles
  run one after another.
- `gateway.dfy` (`Gateway`): the `/api/news` handler.
- `pipeline.dfy` (`Pipeline`): the page's requests as the gateway handles
  them.

I/O is replaced by values:

- Each `fetch` is a given response value: a rejected promise, or a status
  with a body that parses or does not.
- The seen-set is passed in and returned.
- The script conversion `t2s` is a function parameter.

Behaviours of the code worth noting:

- Rendering the same list twice can show something the second time. When
  more than ten articles were unseen, the second render shows the ones
  that did not fit (`Feed.RenderTwice` states the exact condition).
- The gateway also uses its default list when `keywords` is empty, not
  only when it is missing (server.js:20).
- The default source label is `未知` (script.js:97).
- The fingerprint does not mark where the title ends, so distinct articles
  can share it (`Feed.FingerprintCollision`).
- The `" OR "` rewrite is not idempotent in general (`" OR OR "` becomes
  `" OR "`). On both keyword lists it settles after one pass.

## Model

| member | source | states |
|---|---|---|
| OrRewrite.ReplaceOr | server.js:28 | A replacement happened exactly when the text got shorter. The text never gets longer, and no character appears that was not in the input. |
| OrRewrite.ReplaceOrIdentity | server.js:28 | Text containing no `" OR "` is returned unchanged. |
| OrRewrite.ReplaceOrJoin | script.js:8 | Take terms with no spaces and join them with `" OR "`. Rewriting that string gives the same terms joined by single spaces. |
| OrRewrite.ReplaceOrNotIdempotent | server.js:28 | Matches are leftmost and non-overlapping, so `" OR OR "` becomes `" OR "`, and a second pass changes it again. |
| Keywords.RewriteSettles | server.js:28 | Take an OR-joined list of terms with no spaces and no letter `O`. One rewrite reaches a string with no `" OR "`, and a second rewrite leaves it unchanged. |
| Keywords.PrimaryQuerySettled | script.js:2-8 | The page sends the primary terms joined by spaces. The value is non-empty, and the gateway's own rewrite does not change it. |
| Keywords.FallbackQuerySettled | server.js:25-28 | The fallback list reaches the news API as its terms joined by spaces, with no `" OR "` left. |
| Feed.Fingerprint | script.js:58 | The key is the title as text followed by the description. A missing, null or empty description adds nothing. |
| Feed.FingerprintCollision | script.js:58 | Two different articles can share a key. Once one is shown, the other is filtered as already seen. |
| Feed.Unseen | script.js:57-60 | An article survives the filter exactly when its key is not in the seen-set. A survivor keeps its multiplicity, so duplicates within one batch are not removed. |
| Feed.UnseenAppend | script.js:57-60 | The filter distributes over concatenation, so it keeps input order. |
| Feed.Selected | script.js:62 | The shown articles are a prefix of the survivors, at most ten long. Fewer than ten means all survivors are shown. Every shown article comes from the input and was not seen before. |
| Feed.ToItem | script.js:86-101 | The item's source is `source_id` when it is a non-empty string, and `未知` otherwise. The title and link are the properties as text. The summary is the truncated description, and the placeholder flag is the one passed in. |
| Feed.Summary | script.js:86-89 | A description of at most 100 characters is kept as it is, and a missing one gives the empty string. A longer one becomes its first 100 characters followed by `...`. |
| Feed.SummaryIdempotent | script.js:86-89 | A summary has at most 103 characters, and summarising it again changes nothing. |
| Feed.Render | script.js:47-71 | The "no news" outcome happens exactly when the list is missing or nothing survives the filter, and then the seen-set is unchanged. Otherwise 1 to 10 items are built from the selected articles in order, and the seen-set grows by their keys and nothing else. |
| Feed.AllSeenShowsNothing | script.js:57-67 | A render shows "no news" and leaves the seen-set alone exactly when every article's key was already seen. |
| Feed.RenderSeen | script.js:69-71 | After any render, the seen-set is the old set plus the keys of the selected articles. |
| Feed.RenderTwice | script.js:57-71 | Render the same list twice. The second render shows nothing exactly when every survivor that missed the first ten shares a key with a shown one. This always holds when at most ten survived. |
| Refresh.RefreshCycle | script.js:5-37 | A cycle makes one or two requests, primary first. The fallback request is made exactly when the primary succeeds without results. The cycle fails exactly when the primary fails, or when the fallback is needed and fails. On failure the seen-set is unchanged. Items are placeholders exactly when the fallback was used. The seen-set grows only by keys of received articles. |
| Refresh.RenderAddsReceived | script.js:19-30 | A render adds only keys of the articles it was given. |
| Refresh.PlaceholderMarking | script.js:17-31 | Every shown item's placeholder flag is true exactly when the fallback request was issued. |
| Refresh.FallbackOnlyWhenIssued | script.js:17-31 | When only the primary request is made, the fallback response has no effect on the cycle. |
| Refresh.RunSession | script.js:41-45 | Cycles run in sequence. The returned trace has one entry per cycle, and entry i is the cycle run against the seen-set entry i - 1 left (the initial set for the first). The session ends with the set the last cycle left. That set holds the initial one and otherwise only keys of articles the session received. Each cycle fails exactly when its own responses make it fail. The returned request count is the number of requests the cycles made, one or two per cycle. |
| Refresh.SessionDeterministic | script.js:41-45 | Two runs of the same responses from the same seen-set agree entry by entry, so the trace `RunSession` promises is the only one. |
| Refresh.CycleShown | script.js:57-71 | The articles a cycle shows were all unseen before it. The cycle's seen-set is the old one plus their keys, and the shown items are built from them in order. |
| Refresh.SeenBeforeMonotone | script.js:3 | Running more cycles of a session never shrinks the seen-set. |
| Refresh.SeenWithinReceived | script.js:69-71 | After any number of cycles the seen-set holds the initial one, plus only keys of articles those cycles received. |
| Refresh.SessionNoRepeat | script.js:69-71 | Within a session, no article is shown whose key was shown in an earlier cycle. |
| Refresh.RepeatedPrimaryScenario | script.js:17-19 | Two new articles with a positive count are shown as non-placeholders, and the keys `Ad1` and `Bd2` are recorded. The same reply in the next cycle shows "no news". |
| Refresh.FallbackScenario | script.js:20-31 | A zero count leads to exactly one fallback request. Its one article is shown as a placeholder, with source `未知` and an empty summary. |
| Gateway.SelectKeywords | server.js:17-26 | A non-empty `keywords` value is used verbatim. A missing or empty one is replaced by the fallback list. The chosen list is never empty. |
| Gateway.Convert | server.js:47-48 | Only a non-empty string is converted. A missing, null or empty value passes through. |
| Gateway.NormalizeArticle | server.js:44-50 | Title and description are converted. Date, source and link are copied unchanged. |
| Gateway.NormalizeResults | server.js:43-51 | Missing or empty results are left as they are. Otherwise the list keeps its length and order, and each article is normalised in place. |
| Gateway.NormalizeWithIdentity | server.js:43-51 | If the conversion changes nothing, normalisation is the identity. |
| Gateway.NormalizeIdempotent | server.js:43-51 | If the conversion is idempotent, normalising twice equals normalising once. |
| Gateway.Handle | server.js:15-59 | The upstream query is the rewritten keyword choice. A non-2xx upstream reply is relayed with its status and a fixed message. A thrown error or unreadable body gives 500 with another message. Otherwise the envelope is relayed with status 200, caching disabled and only `results` normalised. A 2xx reply always carries data. |
| Pipeline.AsResponse | script.js:10-13 | The page sees the gateway's status. A relayed envelope is read as it is, and a `{message}` body reads as an envelope with neither count nor results. The reply is usable exactly when its status is 2xx. |
| Pipeline.PrimaryRequestQuery | server.js:20-28 | The gateway uses the page's primary value verbatim, and the news API receives the primary terms joined by spaces. |
| Pipeline.FallbackRequestQuery | script.js:23-24 | The keyword-less request makes the gateway query the fallback terms joined by spaces. |
| Pipeline.UpstreamFailureReachesPage | server.js:34-38 | If the upstream answer to the primary query is unusable, the page shows the failure after that single request, and its seen-set is unchanged. |
| Pipeline.PrimarySuccessReachesPage | server.js:40-55 | If the upstream answers the primary query with a positive count, the page renders the converted results as non-placeholders and makes no fallback request. |

## Left out

- DOM and HTML templating (script.js:48-49, 73-106): clearing the container, building the markup, the message texts, the `important-news` class and the label markup. The outcome constructors and the item's placeholder flag stand in for them.
- Date formatting (script.js:82-83): it depends on the local time zone and the `Date` parser. The article keeps `pubDate` only so the gateway can be shown to copy it.
- Timers (script.js:41-45): `RunSession` runs the cycles strictly one after another. Two cycles that overlap because a fetch outlasts the ten-minute period are not modelled.
- `fetch` and `Response.json()`: each is a given value. The page does not read a response status beyond its 2xx range.
- Express routing, static files, the API key from the environment, `console` logging, `encodeURIComponent` and URL building (server.js:1-14, 29, 32): framework and I/O plumbing. The upstream `language` and `size` parameters are fixed in the URL and not modelled.
- The table behind `t2s` (server.js:4): it is a foreign library, so it is a function parameter.
- String length: JavaScript counts UTF-16 code units, and the model counts Unicode scalar values. They agree for text in the Basic Multilingual Plane, which covers the CJK news text. The model does not show `substring` splitting a surrogate pair.
- JSON values of other types: a numeric title, a non-numeric `totalResults` (compared with `> 0` after coercion), a `results` that is not an array, and similar values are not modelled.
- A `keywords` parameter given twice (an array): calling `replace` on it throws before the handler's `try`.
