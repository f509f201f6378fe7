/**
  The fallback extractor `parseGenericUrl`: fetch any page, take its title and
  the text of its main content container, and cap the text at 10000
  characters.
*/
module Generic {
  import opened Js
  import opened Sources

  const ErrorMessage := "Не удалось загрузить данные по ссылке"
  const BodyLimit := 10000

  /** `$('title').text().trim() || $('h1').first().text().trim()` */
  function Title(a: ArticleView): string
  {
    var t := Trim(Concat(a.titles));
    if t != "" then t else Trim(FirstText(a.headings))
  }

  /** The first container in document order, trimmed; if that is empty, the
      whole body's text, trimmed. */
  function Body(a: ArticleView): string
  {
    var c := Trim(FirstText(a.containers));
    if c != "" then c else Trim(a.body)
  }

  /** `content.substring(0, 10000)` */
  function Truncate(text: string): string
  {
    text[..Min(|text|, BodyLimit)]
  }

  function Document(a: ArticleView): string
  {
    "# " + Title(a) + "\n\n" + Truncate(Body(a))
  }

  /** The outcome of `parseGenericUrl` for a given response of the page. */
  function Extract(response: Response<Page>): (r: Extraction)
    ensures r.Failed? ==> r.message == ErrorMessage
    ensures r.Extracted? <==> response.Received? && response.ok
  {
    if response.Received? && response.ok
    then Extracted(Document(response.body.article))
    else Failed(ErrorMessage)
  }

  // ---------------------------------------------------------------------
  // Properties of the document
  // ---------------------------------------------------------------------

  /** The document is the heading line followed by a prefix of the body of at
      most 10000 characters, which is the whole body when it is short enough. */
  lemma DocumentIsCappedBody(a: ArticleView)
    ensures var head := "# " + Title(a) + "\n\n";
      var rest := Document(a)[|head|..];
      StartsWith(Document(a), head) &&
      |rest| <= BodyLimit &&
      StartsWith(Body(a), rest) &&
      |rest| == Min(|Body(a)|, BodyLimit) &&
      (|Body(a)| <= BodyLimit ==> rest == Body(a))
  {
    var head := "# " + Title(a) + "\n\n";
    var b := Body(a);
    assert Document(a) == head + Truncate(b);
    assert Document(a)[|head|..] == Truncate(b);
    assert Document(a)[..|head|] == head;
    assert |b| <= BodyLimit ==> b[..|b|] == b;
  }

  /** The title falls back to the first heading only when the page title is blank. */
  lemma TitleSource(a: ArticleView)
    ensures Trim(Concat(a.titles)) != "" ==> Title(a) == Trim(Concat(a.titles))
    ensures Trim(Concat(a.titles)) == "" ==> Title(a) == Trim(FirstText(a.headings))
    ensures Title(a) == "" <==> AllSpace(Concat(a.titles)) && AllSpace(FirstText(a.headings))
  {
  }

  /** Only the first container is consulted: when none matches, or the first
      one is blank, the body text is used, whatever later containers hold. */
  lemma BodySource(a: ArticleView, b: ArticleView)
    requires a.body == b.body && FirstText(a.containers) == FirstText(b.containers)
    ensures Body(a) == Body(b)
    ensures a.containers == [] ==> Body(a) == Trim(a.body)
    ensures AllSpace(FirstText(a.containers)) ==> Body(a) == Trim(a.body)
  {
  }
}
