/**
  The analysis route `POST /api/analyze`: classify a URL, pick the extractor,
  and run the request's chain of checks before the single model call.
*/
module Route {
  import opened Js
  import opened Sources
  import Reddit
  import ProductHunt
  import Generic

  // ---------------------------------------------------------------------
  // parseUrl: the source classifier and dispatch
  // ---------------------------------------------------------------------

  datatype SourceKind = RedditThread | ProductHuntPage | OtherPage

  const RedditHost := "reddit.com"
  const ProductHuntHost := "producthunt.com"

  /** The extractor `parseUrl` picks for `url`: the lower-cased URL is tested
      for the Reddit host first, then for the Product Hunt host. */
  function Classify(url: string): (k: SourceKind)
    ensures k == RedditThread <==> Contains(Lower(url), RedditHost)
    ensures k == ProductHuntPage <==> !Contains(Lower(url), RedditHost) && Contains(Lower(url), ProductHuntHost)
    ensures k == OtherPage <==> !Contains(Lower(url), RedditHost) && !Contains(Lower(url), ProductHuntHost)
  {
    var lower := Lower(url);
    if Contains(lower, RedditHost) then RedditThread
    else if Contains(lower, ProductHuntHost) then ProductHuntPage
    else OtherPage
  }

  /** Classification in terms of where the host names occur in the lower-cased
      URL: a Reddit occurrence wins even when the Product Hunt host occurs too. */
  lemma ClassifyByOccurrence(url: string)
    ensures Classify(url) == RedditThread <==> Occurs(Lower(url), RedditHost)
    ensures Classify(url) == ProductHuntPage <==>
      !Occurs(Lower(url), RedditHost) && Occurs(Lower(url), ProductHuntHost)
  {
    ContainsIffOccurs(Lower(url), RedditHost);
    ContainsIffOccurs(Lower(url), ProductHuntHost);
  }

  /** Classification does not depend on letter case. */
  lemma ClassifyIgnoresCase(url: string)
    ensures Classify(Lower(url)) == Classify(url)
  {
    LowerIdempotent(url);
  }

  /** The URL the chosen extractor fetches: the Reddit JSON endpoint, or the URL
      itself as given (not lower-cased). */
  function FetchedUrl(url: string): string
  {
    if Classify(url) == RedditThread then Reddit.JsonUrl(url) else url
  }

  /** `await parseUrl(url)`, as an outcome. */
  function Extract(url: string, web: Web): Extraction
  {
    match Classify(url)
    case RedditThread => Reddit.Extract(web.json(Reddit.JsonUrl(url)))
    case ProductHuntPage => ProductHunt.Extract(web.html(url))
    case OtherPage => Generic.Extract(web.html(url))
  }

  /** `parseUrl(url)`: runs exactly one extractor, on the original URL. */
  method ParseUrl(url: string, web: Web) returns (fetched: string, r: Extraction)
    ensures Classify(url) == RedditThread ==>
      fetched == Reddit.JsonUrl(url) && r == Reddit.Extract(web.json(fetched))
    ensures Classify(url) == ProductHuntPage ==>
      fetched == url && r == ProductHunt.Extract(web.html(url))
    ensures Classify(url) == OtherPage ==>
      fetched == url && r == Generic.Extract(web.html(url))
  {
    var lower := Lower(url);
    if Contains(lower, RedditHost) {
      fetched, r := Reddit.Parse(url, web);
    } else if Contains(lower, ProductHuntHost) {
      fetched := url;
      r := ProductHunt.Parse(url, web);
    } else {
      fetched := url;
      r := Generic.Extract(web.html(url));
    }
  }

  // ---------------------------------------------------------------------
  // POST: the request chain
  // ---------------------------------------------------------------------

  const EmptyInputMessage := "Введите данные для анализа"
  const MissingKeyMessage := "API ключ не настроен. Добавьте OPENAI_API_KEY в Environment Variables."
  const AnalysisFailedMessage := "Ошибка анализа. Попробуйте позже."
  const NoResultMessage := "Не удалось получить результат"
  const PromptPrefix := "Проанализируй следующий контент:\n\n"
  const DefaultModel := "gpt-4o-mini"

  /** The JSON request body `{ input, inputType }`; a missing field is `None`. */
  datatype Body = Body(input: Option<string>, inputType: Option<string>)

  /** The environment: `OPENAI_API_KEY` and `OPENAI_MODEL`. */
  datatype Env = Env(apiKey: Option<string>, model: Option<string>)

  /** A chat completion request: the system message is always the fixed
      analysis instruction, so only the model and the user message vary. */
  datatype ChatRequest = ChatRequest(model: string, userContent: string)

  /** What the model call yields: it threw, or it answered with the first
      choice's message content, if any. */
  datatype Completion = Threw | Answered(content: Option<string>)

  datatype Payload = ResultPayload(result: string) | ErrorPayload(error: string)

  datatype Reply = Reply(status: nat, payload: Payload)

  /** The reply together with the outbound calls made on the way: the URLs
      fetched and the chat request sent, if any. */
  datatype Exchange = Exchange(reply: Reply, fetched: seq<string>, chat: Option<ChatRequest>)

  /** A JavaScript truthiness test of an optional string. */
  predicate Truthy(s: Option<string>)
  {
    s.Some? && s.value != ""
  }

  /** `process.env.OPENAI_MODEL || 'gpt-4o-mini'` */
  function ModelName(env: Env): string
  {
    if Truthy(env.model) then env.model.value else DefaultModel
  }

  /** The request gets past the input check and the key check. */
  predicate PassesChecks(request: Option<Body>, env: Env)
  {
    request.Some? && Truthy(request.value.input) && Truthy(env.apiKey)
  }

  predicate IsUrlRequest(body: Body)
  {
    body.inputType == Some("url")
  }

  /** `POST(request)`. */
  method Post(request: Option<Body>, env: Env, web: Web, llm: ChatRequest -> Completion) returns (ex: Exchange)
    // an unreadable body fails like any other exception
    ensures request.None? ==>
      ex == Exchange(Reply(500, ErrorPayload(AnalysisFailedMessage)), [], None)
    // falsy input: 400, before the key is looked at
    ensures request.Some? && !Truthy(request.value.input) ==>
      ex == Exchange(Reply(400, ErrorPayload(EmptyInputMessage)), [], None)
    // missing key: 500, before any fetch or model call
    ensures request.Some? && Truthy(request.value.input) && !Truthy(env.apiKey) ==>
      ex == Exchange(Reply(500, ErrorPayload(MissingKeyMessage)), [], None)
    // only a URL request extracts, fetching exactly one URL
    ensures PassesChecks(request, env) ==>
      ex.fetched == if IsUrlRequest(request.value) then [FetchedUrl(request.value.input.value)] else []
    // an extractor error is a 400 carrying its message, and the model is not called
    ensures PassesChecks(request, env) && IsUrlRequest(request.value) ==>
      var e := Extract(request.value.input.value, web);
      e.Failed? ==> ex.reply == Reply(400, ErrorPayload(e.message)) && ex.chat == None
    // otherwise the model gets the prefix and the content: the raw input, or the extracted document
    ensures PassesChecks(request, env) ==>
      var input := request.value.input.value;
      var e := Extract(input, web);
      !IsUrlRequest(request.value) || e.Extracted? ==>
        ex.chat == Some(ChatRequest(ModelName(env), PromptPrefix + if IsUrlRequest(request.value) then e.content else input))
    // the model's answer, or the fallback text when it is empty, or a 500 when the call fails
    ensures ex.chat.Some? ==>
      match llm(ex.chat.value)
      case Threw => ex.reply == Reply(500, ErrorPayload(AnalysisFailedMessage))
      case Answered(c) => ex.reply == Reply(200, ResultPayload(if Truthy(c) then c.value else NoResultMessage))
    ensures ex.reply.status in {200, 400, 500}
  {
    if request.None? {
      return Exchange(Reply(500, ErrorPayload(AnalysisFailedMessage)), [], None);
    }
    var body := request.value;
    if !Truthy(body.input) {
      return Exchange(Reply(400, ErrorPayload(EmptyInputMessage)), [], None);
    }
    if !Truthy(env.apiKey) {
      return Exchange(Reply(500, ErrorPayload(MissingKeyMessage)), [], None);
    }
    var contentToAnalyze := body.input.value;
    var fetched := [];
    if body.inputType == Some("url") {
      var url, outcome := ParseUrl(body.input.value, web);
      fetched := [url];
      if outcome.Failed? {
        return Exchange(Reply(400, ErrorPayload(outcome.message)), fetched, None);
      }
      contentToAnalyze := outcome.content;
    }
    var chat := ChatRequest(ModelName(env), PromptPrefix + contentToAnalyze);
    var completion := llm(chat);
    match completion
    case Threw =>
      return Exchange(Reply(500, ErrorPayload(AnalysisFailedMessage)), fetched, Some(chat));
    case Answered(content) =>
      var result := if Truthy(content) then content.value else NoResultMessage;
      return Exchange(Reply(200, ResultPayload(result)), fetched, Some(chat));
  }
}
