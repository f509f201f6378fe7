# Content analyzer: the analysis route and the page

A Dafny model of a small web tool. The tool takes text or a URL, turns a URL into a
Markdown document, and sends the result to a chat-completion model for analysis.
Two parts are modelled:

- **The route `POST /api/analyze`** (`src/app/api/analyze/route.ts`).
  - It validates the request body and the API key.
  - For a URL request it first classifies the URL. A Reddit thread goes to the
    Reddit `.json` endpoint. A Product Hunt page and any other page each get
    their own HTML extractor. The chosen extractor builds the document.
  - It makes one model call and turns the outcome into a JSON reply with status
    200, 400 or 500.
- **The page `Home`** (`src/app/page.tsx`).
  - It keeps the form state and runs the submit cycle (`isLoading`, `error`,
    `result`).
  - It keeps a history of at most ten results, newest first, and lets the user
    restore an item from it.

Files:

- `js.dfy` (module `Js`): the JavaScript built-ins the code relies on, and the
  sequence functions that specify its loops:
  - `trim`, with ECMAScript whitespace
  - `toLowerCase` and `includes`
  - number-to-text conversion
  - `Filter` and `ConcatMap`: the specification of the Reddit `for…of` loop and
    the Product Hunt `.each` loop, which test each element and append text for
    the ones that pass
  - `Concat`: cheerio's `.text()` over a selection of several elements
  - `Reverse`: the order the page's history ends up in, used to state what the
    history holds
- `sources.dfy` (module `Sources`): the outside world as data:
  - the results of `fetch`
  - the pages as selector match lists
  - the Reddit JSON
- `reddit.dfy`, `producthunt.dfy`, `generic.dfy`: the three extractors.
  - Each has a specification function `Document`.
  - Each has an `Extract` function that says what the extractor returns or throws.
  - Reddit and Product Hunt also have a `Parse` method that builds the text with
    the source's `+=` loop and is proved equal to `Extract`.
- `route.dfy` (module `Route`): the classifier `parseUrl` and the request chain `POST`.
  - The outcome of `POST` is an `Exchange`: the reply, the URLs fetched and the chat request sent.
- `client.dfy` (module `Client`): the history functions and the class `Home`.
  - `handleSubmit` is split at its `await` into `Submit` and `Settle`.

The outside world enters as parameters:

- `Web.json` / `Web.html`: what `fetch` yields for a URL. That is either no
  response or a status flag with a body.
- `ProductView` / `ArticleView`: the texts that each selector matches on the
  loaded page.
- `llm`: the model call. It throws, or it answers with optional content.
- `Env`: `OPENAI_API_KEY` and `OPENAI_MODEL`.

## Model

| member | source | states |
|---|---|---|
| Js.Trim | src/app/api/analyze/route.ts:86 | the result is blank exactly when the input is all whitespace; otherwise it starts and ends with a non-space character |
| Js.TrimCutsOnlySpace | src/app/api/analyze/route.ts:101 | the trimmed text sits inside the input right after the leading whitespace, and only whitespace is cut on either side |
| Js.Lower | src/app/api/analyze/route.ts:148 | lower-casing keeps the length and maps every character on its own |
| Js.LowerIdempotent | src/app/api/analyze/route.ts:148 | lower-casing twice is the same as lower-casing once |
| Js.Contains | src/app/api/analyze/route.ts:150-152 | definition: `s.includes(sub)`, a scan over the start positions from left to right; properties in Js.ContainsIffOccurs and Route.Classify |
| Js.ContainsIffOccurs | src/app/api/analyze/route.ts:150-152 | `includes` holds exactly when the substring occurs at some position |
| Js.NatText | src/app/api/analyze/route.ts:54 | a number renders as a non-empty run of digits with no leading zero, except for 0 itself |
| Js.IntText | src/app/api/analyze/route.ts:48 | definition: `${n}` for an integer score or count (route.ts:48 and :59), a minus sign before the digits of a negative number; properties in Js.NatText and Js.ParseNatText |
| Js.Concat | src/app/api/analyze/route.ts:93 | definition: cheerio's `.text()` over a selection, the matches' texts concatenated in document order (route.ts:93 and :131); used by ProductHunt.Description and Generic.Title, properties in Generic.TitleSource |
| Sources.FirstText | src/app/api/analyze/route.ts:86-87 | definition: `.first().text()`, the first match's text or `''` when nothing matches (also route.ts:131-133); properties in Generic.BodySource |
| Js.ParseNatText | src/app/api/analyze/route.ts:54 | reading the rendered digits back gives the number again, so distinct counts render distinctly |
| Reddit.JsonUrl | src/app/api/analyze/route.ts:30 | definition: the first match of `/\/?$/` is replaced by `.json`; properties in Reddit.FirstMatchIsAtEnd and Reddit.JsonUrlDropsOneSlash |
| Reddit.FirstMatchIsAtEnd | src/app/api/analyze/route.ts:30 | the leftmost match of `/\/?$/` is the final slash when there is one, else the empty match at the end |
| Reddit.JsonUrlDropsOneSlash | src/app/api/analyze/route.ts:30 | the endpoint is the URL with at most one trailing slash removed, followed by `.json` |
| Reddit.Document | src/app/api/analyze/route.ts:43-61 | definition: the post section, the comments heading, then one block per shown child among the first twenty; properties in Reddit.Parse, Reddit.EmittedAreShownFirstComments, Reddit.HeadingIgnoresSkipped and Reddit.PostOpensDocument |
| Reddit.Shown | src/app/api/analyze/route.ts:58 | definition: a child is rendered when it has a record with a non-empty body whose author is not `AutoModerator`; properties in Reddit.EmittedAreShownFirstComments and Reddit.HeadingIgnoresSkipped |
| Reddit.Extract | src/app/api/analyze/route.ts:27-67 | the extractor returns the document exactly when the response arrived with `ok` and a readable body; otherwise it throws the Reddit error message |
| Reddit.Parse | src/app/api/analyze/route.ts:27-63 | it fetches the `.json` endpoint, and the text its loop builds is the specified document |
| Reddit.EmittedAreShownFirstComments | src/app/api/analyze/route.ts:56-61 | the comment blocks are exactly the shown children among the first twenty, in their order, each shown child as often as it occurs there |
| Reddit.HeadingIgnoresSkipped | src/app/api/analyze/route.ts:54-58 | the heading's first count is min(total, 20); it equals the number of blocks only when no child among the first twenty is skipped |
| Reddit.PostOpensDocument | src/app/api/analyze/route.ts:43-54 | the document starts with `# ` exactly when a post is present; with a post it opens with the title line, without one it opens with the comments heading |
| Reddit.TitleOpensDocument | src/app/api/analyze/route.ts:44-45 | with a post, the document opens with `# <title>` and a blank line |
| Reddit.HeadingOpensDocument | src/app/api/analyze/route.ts:54 | without a post, the document opens with the comments heading |
| ProductHunt.Title | src/app/api/analyze/route.ts:86 | definition: the trimmed text of the first `h1`, `''` when there is none; used by ProductHunt.Document |
| ProductHunt.Tagline | src/app/api/analyze/route.ts:87 | definition: the trimmed first tagline unless it is blank, else the meta description as it is, rendered as `undefined` when the attribute is missing; used by ProductHunt.Document |
| ProductHunt.Description | src/app/api/analyze/route.ts:93 | definition: the trimmed concatenated text of every description match; used by ProductHunt.Document, whose description section appears only when it is non-empty |
| ProductHunt.FitsReview | src/app/api/analyze/route.ts:102 | definition: the trimmed length lies strictly between 20 and 2000; properties in ProductHunt.ReviewsSelected |
| ProductHunt.Document | src/app/api/analyze/route.ts:83-105 | definition: title line, tagline line, the description section when the description is non-empty, the reviews heading, then the bullets; properties in ProductHunt.Parse, ProductHunt.ReviewsSelected and ProductHunt.FallbackNeverReturned |
| ProductHunt.Extract | src/app/api/analyze/route.ts:70-111 | the extractor succeeds exactly when the page arrived with `ok`; otherwise it throws the Product Hunt error message |
| ProductHunt.Parse | src/app/api/analyze/route.ts:70-107 | the text built line by line, followed by `content \|\| fallback`, is the specified outcome |
| ProductHunt.AppendReviews | src/app/api/analyze/route.ts:100-105 | the `.each` loop appends one bullet per trimmed element whose length fits, in element order |
| ProductHunt.TrimAll | src/app/api/analyze/route.ts:101 | trimming every element keeps the number of elements |
| ProductHunt.TrimAllAt | src/app/api/analyze/route.ts:101 | element k of the trimmed list is the trim of element k |
| ProductHunt.ReviewsSelected | src/app/api/analyze/route.ts:100-105 | a text is a bullet exactly when it is the trimmed text of one of the first fifteen matches and 20 < length < 2000; the bullets keep the matches' order, and a fitting text is a bullet as many times as it is the trimmed text of a match |
| ProductHunt.FallbackNeverReturned | src/app/api/analyze/route.ts:89 | the document always starts with `# `, so a page that arrives yields the document and never the fallback text |
| Generic.Title | src/app/api/analyze/route.ts:131 | definition: the trimmed text of all `title` elements, else the trimmed first `h1`; properties in Generic.TitleSource |
| Generic.Body | src/app/api/analyze/route.ts:132-135 | definition: the trimmed first container, else the trimmed page body; properties in Generic.BodySource |
| Generic.Truncate | src/app/api/analyze/route.ts:138 | definition: the first min(length, 10000) characters; properties in Generic.DocumentIsCappedBody |
| Generic.Document | src/app/api/analyze/route.ts:140 | definition: `# `, the title, a blank line, the truncated body; properties in Generic.DocumentIsCappedBody |
| Generic.Extract | src/app/api/analyze/route.ts:114-144 | the extractor succeeds exactly when the page arrived with `ok`; otherwise it throws the generic error message |
| Generic.DocumentIsCappedBody | src/app/api/analyze/route.ts:138-140 | the document is the title line followed by a prefix of the body of length min(body length, 10000); a short body appears whole |
| Generic.TitleSource | src/app/api/analyze/route.ts:131 | the page title is used unless it is blank, then the first `h1`; the title is empty exactly when both are all whitespace |
| Generic.BodySource | src/app/api/analyze/route.ts:132-135 | only the first matching container counts; when no container matches, or the first one is blank, the trimmed page body is used |
| Route.Classify | src/app/api/analyze/route.ts:147-156 | Reddit exactly when the lower-cased URL contains `reddit.com`; Product Hunt exactly when it contains `producthunt.com` and not `reddit.com`; otherwise the generic extractor |
| Route.ClassifyByOccurrence | src/app/api/analyze/route.ts:148-153 | the same classification in terms of where the host names occur: a Reddit occurrence wins over a Product Hunt one |
| Route.ClassifyIgnoresCase | src/app/api/analyze/route.ts:148 | letter case in the URL does not change the classification |
| Route.FetchedUrl | src/app/api/analyze/route.ts:147-157 | definition: the Reddit `.json` endpoint for a Reddit URL, else the URL as given; used in the contract of Route.Post |
| Route.Extract | src/app/api/analyze/route.ts:147-157 | definition: the outcome of the classified extractor; Route.ParseUrl is proved to compute it |
| Route.ParseUrl | src/app/api/analyze/route.ts:147-157 | exactly the classified extractor runs, on the URL as given; only the Reddit one rewrites the URL it fetches |
| Route.Truthy | src/app/api/analyze/route.ts:163-167 | definition: JavaScript truthiness of an optional string, present and non-empty (also route.ts:191 and :200); used throughout the contract of Route.Post |
| Route.ModelName | src/app/api/analyze/route.ts:191 | definition: `OPENAI_MODEL` when it is set and non-empty, else `gpt-4o-mini`; used in the contract of Route.Post |
| Route.Post | src/app/api/analyze/route.ts:159-211 | the checks run in order: unreadable body gives 500, falsy input gives 400, missing key gives 500, and none of these fetches or calls the model. Only URL requests fetch, exactly one URL. An extractor error is a 400 with its message and no model call. Otherwise the model gets the prefix and the content, and its answer (or the fallback text) is a 200, while a failed call is a 500 |
| Client.PushHistory | src/app/page.tsx:55 | the new history has min(old length + 1, 10) items, starting with the new entry and followed by the old items in order |
| Client.Replay | src/app/page.tsx:55 | definition: the history after a run of successful submits, oldest first, each pushed in turn; properties in Client.ReplayKeepsMostRecent |
| Client.ReplayKeepsMostRecent | src/app/page.tsx:55 | after any run of successful submits, the history is the ten most recent results, newest first |
| Client.FailureMessage | src/app/page.tsx:41-58 | definition: the thrown error's message, or the server's error field when it is non-empty, else `Ошибка анализа`; used in the contract of Client.Home.Settle |
| Client.Home.HistoryIsMostRecent | src/app/page.tsx:55 | in every valid state, the history is the ten most recent successful submits, newest first, so it never exceeds ten items |
| Client.Home.constructor | src/app/page.tsx:16-22 | the initial state: empty input, input type `form`, not loading, no result or error, empty and hidden history |
| Client.Home.Edit | src/app/page.tsx:134 | typing replaces the input and changes nothing else |
| Client.Home.SelectInputType | src/app/page.tsx:105 | a tab sets the input type and changes nothing else |
| Client.Home.ToggleHistory | src/app/page.tsx:90 | the history button flips the sidebar's visibility and changes nothing else |
| Client.Home.Submit | src/app/page.tsx:24-37 | a request is sent exactly when the trimmed input is non-empty and nothing is loading. It carries the trimmed input and the input type, and first clears error and result and sets loading. Otherwise nothing changes |
| Client.Home.Settle | src/app/page.tsx:39-61 | loading always ends. On success the result is shown and pushed onto the history, and the entry joins the record of successful submits. On failure only the error changes: to the thrown message, the server's error, or the default message |
| Client.Home.Restore | src/app/page.tsx:207-222 | clicking an item restores its input, input type and result and closes the sidebar; the history is unchanged |

## Left out

- Network, HTML parsing and the model client are not modelled.
  - `fetch`, cheerio and the OpenAI SDK are parameters: total functions from a URL
    (or a chat request) to an outcome.
  - How the selectors match and how `.text()` concatenates descendants are not
    modelled. The selection is given as its list of match texts.
  - Removing `script, style, nav, footer, header, aside` happens before those
    texts are taken.
- Request headers are left out: the `User-Agent` header, the `Content-Type` header
  and the request options.
- Chat request parameters are left out: `temperature` 0.7, `max_tokens` 2000 and
  the fixed system prompt. `ChatRequest` carries only the model name and the user
  message.
- `console.error` logging in every catch block is left out.
- Request body shapes are simplified.
  - A request body that is not JSON, or is JSON `null`, is `request == None`:
    destructuring it throws, and the route answers with a 500.
  - Any other JSON value that is not an object (a number, string, boolean or
    array) destructures without error and leaves `input` undefined. It is
    `Some(Body(None, None))`, which the route answers with a 400.
  - `input` and `inputType` are optional strings. Non-string JSON values, such as a
    number given as `input`, are not modelled.
- Reddit JSON shapes are simplified.
  - `data[0]?.data?.children[0]?.data` is an optional post.
  - `data[1]?.data?.children || []` is a list of children, each with an optional
    `data` record.
  - A body whose shape makes those lookups throw is `body == None`.
  - So is a body whose first twenty children include a `null` element. Reading
    `comment.data` from it (route.ts:57) throws, and the whole extractor fails
    with the Reddit message. `Child(data: Option<Comment>)` cannot hold such a
    child, so `None` is the model of that body.
  - Post and comment fields are strings and integers. `undefined` fields and
    non-integral or very large scores are not modelled: numbers render as
    integers.
- Js.Lower lowercases ASCII letters only, not the full Unicode mapping of
  `toLowerCase`.
  - Both host names are ASCII, so only non-ASCII characters whose lower case
    contains ASCII letters matter: U+212A KELVIN SIGN becomes `k` and U+0130
    becomes `i` followed by U+0307.
  - Neither host name contains `k`. `producthunt.com` has no `i`, and the `i`
    of `reddit.com` is followed by `t`, not U+0307.
  - So the classification is the same as with the full mapping. This is argued
    here, not proved.
- String lengths count Dafny `char`s, which are Unicode scalar values. JavaScript
  counts UTF-16 code units, so a character outside the Basic Multilingual Plane
  counts 1 here and 2 in the source. Two places are affected:
  - ProductHunt.FitsReview: the `20 < length < 2000` test (route.ts:102) can
    accept or reject a review here that the source decides the other way.
  - Generic.Truncate: the 10000 cap (route.ts:138) falls after 10000 scalar
    values here rather than 10000 code units. It never splits a surrogate pair,
    which `substring` can.
- ProductHunt.Tagline renders a missing meta description as `"undefined"`, as the
  template literal does. This is the only `undefined` placeholder modelled.
- The `'Ошибка парсинга URL'` fallback (route.ts:184) cannot be reached.
  - Every extractor catches its own failures and rethrows an `Error`.
  - So the route always reports the extractor's message. The model has no branch
    for another thrown value.
- The `'Произошла ошибка'` fallback (page.tsx:58) is left out for the same reason.
  - Everything that can throw in `handleSubmit` throws an `Error`: `fetch`,
    `response.json()` and the explicit `throw new Error`.
  - `Outcome.Thrown` carries that error's message.
- Fields beyond the state are left out.
  - History entry `id` and `timestamp` come from the clock (`Date.now()`).
  - `handleExport` (a browser download) and all rendering are left out.
- The overlap of renders during the `await` is left out.
  - React state is read at submit time; `Settle` receives the `Pending` request
    captured then.
  - Interleaved edits while loading are not modelled beyond what `Submit` and
    `Settle` state separately.

## Notes on the code's behaviour

Edge cases of the code that the model keeps as they are:

- **Review length bounds are strict.** A review needs 20 < trimmed length < 2000,
  so lengths 20 and 2000 are both excluded.
- **The route does not trim.** It rejects only a falsy `input`. A whitespace-only
  input passes the route's check; only the page trims before sending.
- **Reddit skips more than the moderator account.** Children without a `data`
  record or with an empty body are also skipped.
- **The Reddit heading can overcount.** "N из K" counts those skipped children
  (`Reddit.HeadingIgnoresSkipped`).
- **The Product Hunt fallback is never returned.** The text
  `'Не удалось извлечь контент с Product Hunt'` is never returned, because the
  assembled content always begins with `# ` (`ProductHunt.FallbackNeverReturned`).
- **The page starts with no tab selected.** The input type starts as `'form'`,
  which is neither of the two tabs. A request sent before a tab is chosen is
  treated as text by the route, because only `inputType === 'url'` extracts.
