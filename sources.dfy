/**
  What the extractors of the analysis route receive from the outside world.
  The network, the JSON decoder and the HTML parser are not modelled: a fetch
  yields a `Response` whose body is already the data the extractor reads, and a
  parsed HTML page is given by what each CSS selector the route uses returns
  on it (the texts of the matched elements, in document order).
*/
module Sources {
  import opened Js

  /** What an extractor hands back: the document text, or the message of the
      error it throws. */
  datatype Extraction = Extracted(content: string) | Failed(message: string)

  /** A `fetch`: the request failed outright (network error, unreadable body),
      or a response arrived with its `ok` flag and its decoded body. */
  datatype Response<B> = Unreachable | Received(ok: bool, body: B)

  /** The post record `data[0].data.children[0].data` of a Reddit listing. */
  datatype Post = Post(title: string, author: string, subreddit: string,
                       score: int, numComments: int, selftext: string)

  /** The comment record `children[i].data`. */
  datatype Comment = Comment(author: string, body: string, score: int)

  /** One element of `data[1].data.children`; its `data` may be missing. */
  datatype Child = Child(data: Option<Comment>)

  /** A decoded Reddit `.json` response: the post (absent when the first
      listing has no child) and the comment children (`[]` when the second
      listing has none). */
  datatype Thread = Thread(post: Option<Post>, children: seq<Child>)

  /** The selector results the Product Hunt extractor reads from the page. */
  datatype ProductView = ProductView(
    headings: seq<string>,             // $('h1')
    taglines: seq<string>,             // $('[class*="tagline"]')
    metaDescription: Option<string>,   // $('meta[name="description"]').attr('content')
    descriptions: seq<string>,         // $('[class*="description"]')
    reviews: seq<string>)              // $('[class*="comment"], [class*="review"]')

  /** The selector results the generic extractor reads, once script, style,
      nav, footer, header and aside elements have been removed. */
  datatype ArticleView = ArticleView(
    titles: seq<string>,               // $('title')
    headings: seq<string>,             // $('h1')
    containers: seq<string>,           // $('article, main, [role="main"], .content, #content')
    body: string)                      // $('body').text()

  /** A fetched HTML page, as each extractor's selectors see it. */
  datatype Page = Page(product: ProductView, article: ArticleView)

  /** The web as the route sees it: what a JSON fetch and an HTML fetch of a
      given URL return. */
  datatype Web = Web(json: string -> Response<Option<Thread>>,
                     html: string -> Response<Page>)

  /** `$(selector).first().text()`: the text of the first match, or the empty
      string when nothing matches. */
  function FirstText(matches: seq<string>): string
  {
    if matches == [] then [] else matches[0]
  }
}
