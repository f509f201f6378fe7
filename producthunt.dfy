/**
  The Product Hunt extractor `parseProductHunt`: fetch the product page and
  render its title, tagline, description and up to fifteen reviews as a
  Markdown document.
*/
module ProductHunt {
  import opened Js
  import opened Sources

  const ErrorMessage := "Не удалось загрузить данные с Product Hunt"
  const EmptyFallback := "Не удалось извлечь контент с Product Hunt"
  const ReviewLimit := 15
  const MinReviewLength := 20
  const MaxReviewLength := 2000

  /** `$('h1').first().text().trim()` */
  function Title(v: ProductView): string
  {
    Trim(FirstText(v.headings))
  }

  /** The first tagline's trimmed text, or else the meta description's
      `content` attribute as it is; a missing attribute renders as `undefined`. */
  function Tagline(v: ProductView): string
  {
    var t := Trim(FirstText(v.taglines));
    if t != "" then t
    else match v.metaDescription
      case Some(d) => d
      case None => "undefined"
  }

  /** `$('[class*="description"]').text().trim()`: all matches' texts, concatenated. */
  function Description(v: ProductView): string
  {
    Trim(Concat(v.descriptions))
  }

  function TitleLine(title: string): string
  {
    "# " + title + "\n\n"
  }

  function TaglineLine(tagline: string): string
  {
    "**Tagline:** " + tagline + "\n\n"
  }

  /** The description section, present only for a non-empty description. */
  function DescriptionSection(description: string): string
  {
    if description != "" then "## Описание\n" + description + "\n\n" else ""
  }

  const ReviewsHeading := "## Отзывы и комментарии\n\n"

  /** `.slice(0, 15)` of the comment and review matches. */
  function FirstReviews(v: ProductView): seq<string>
  {
    v.reviews[..Min(|v.reviews|, ReviewLimit)]
  }

  /** Every element's text, trimmed. */
  function TrimAll(xs: seq<string>): (r: seq<string>)
    ensures |r| == |xs|
  {
    if xs == [] then [] else TrimAll(xs[..|xs| - 1]) + [Trim(xs[|xs| - 1])]
  }

  lemma {:induction false} TrimAllAt(xs: seq<string>, k: nat)
    requires k < |xs|
    ensures TrimAll(xs)[k] == Trim(xs[k])
  {
    if k < |xs| - 1 {
      TrimAllAt(xs[..|xs| - 1], k);
    }
  }

  /** The review filter: the trimmed length lies strictly between 20 and 2000. */
  predicate FitsReview(text: string)
  {
    MinReviewLength < |text| < MaxReviewLength
  }

  /** The review texts that become bullets. */
  function Reviews(v: ProductView): seq<string>
  {
    Filter(FitsReview, TrimAll(FirstReviews(v)))
  }

  function Bullet(text: string): string
  {
    "- " + text + "\n\n"
  }

  /** Everything before the bullets. */
  function Head(v: ProductView): string
  {
    TitleLine(Title(v)) + TaglineLine(Tagline(v)) + DescriptionSection(Description(v)) + ReviewsHeading
  }

  /** The `content` string the extractor assembles. */
  function Document(v: ProductView): string
  {
    Head(v) + ConcatMap(Bullet, Reviews(v))
  }

  /** The outcome of `parseProductHunt` for a given response of the page,
      including the `content || fallback` of its return statement. */
  function Extract(response: Response<Page>): (r: Extraction)
    ensures r.Failed? ==> r.message == ErrorMessage
    ensures r.Extracted? <==> response.Received? && response.ok
  {
    if response.Received? && response.ok then
      var content := Document(response.body.product);
      Extracted(if content != "" then content else EmptyFallback)
    else Failed(ErrorMessage)
  }

  /** `parseProductHunt(url)`: fetches `url`, builds the document step by step
      and returns it, or the fallback text if it came out empty. */
  method Parse(url: string, web: Web) returns (r: Extraction)
    ensures r == Extract(web.html(url))
  {
    var response := web.html(url);
    if !response.Received? || !response.ok {
      return Failed(ErrorMessage);
    }
    var view := response.body.product;
    var content := "";
    var title := Trim(FirstText(view.headings));
    var tagline := Tagline(view);
    content := content + TitleLine(title);
    assert content == TitleLine(title);
    content := content + TaglineLine(tagline);
    var description := Trim(Concat(view.descriptions));
    if description != "" {
      content := content + DescriptionSection(description);
    } else {
      assert content == content + DescriptionSection(description);
    }
    content := content + ReviewsHeading;
    assert content == Head(view);
    content := AppendReviews(content, FirstReviews(view));
    return Extracted(if content != "" then content else EmptyFallback);
  }

  /** The `.each` over the first fifteen matches: each trimmed text whose
      length fits is appended as a bullet. */
  method AppendReviews(head: string, elements: seq<string>) returns (content: string)
    ensures content == head + ConcatMap(Bullet, Filter(FitsReview, TrimAll(elements)))
  {
    content := head;
    for i := 0 to |elements|
      invariant content == head + ConcatMap(Bullet, Filter(FitsReview, TrimAll(elements[..i])))
    {
      var text := Trim(elements[i]);
      assert elements[..i + 1] == elements[..i] + [elements[i]];
      TrimAllSnoc(elements[..i], elements[i]);
      BulletsSnoc(TrimAll(elements[..i]), text);
      ghost var done := ConcatMap(Bullet, Filter(FitsReview, TrimAll(elements[..i])));
      if |text| > MinReviewLength && |text| < MaxReviewLength {
        AppendAssociates(head, done, Bullet(text));
        content := content + Bullet(text);
      } else {
        assert done + "" == done;
      }
    }
    assert elements[..|elements|] == elements;
  }

  lemma TrimAllSnoc(xs: seq<string>, x: string)
    ensures TrimAll(xs + [x]) == TrimAll(xs) + [Trim(x)]
  {
    assert (xs + [x])[..|xs|] == xs;
  }

  /** One more element considered by the loop adds its bullet if its text fits. */
  lemma BulletsSnoc(xs: seq<string>, x: string)
    ensures ConcatMap(Bullet, Filter(FitsReview, xs + [x])) ==
            ConcatMap(Bullet, Filter(FitsReview, xs)) + (if FitsReview(x) then Bullet(x) else "")
  {
    FilterSnoc(FitsReview, xs, x);
    if FitsReview(x) {
      ConcatMapSnoc(Bullet, Filter(FitsReview, xs), x);
    } else {
      assert Filter(FitsReview, xs) + [] == Filter(FitsReview, xs);
    }
  }

  // ---------------------------------------------------------------------
  // Properties of the document
  // ---------------------------------------------------------------------

  /** A text becomes a bullet exactly when it is the trimmed text of one of the
      first fifteen matches and its length lies strictly between 20 and 2000;
      the bullets keep the matches' order, and a fitting text is a bullet as
      many times as it is the trimmed text of a match. */
  lemma ReviewsSelected(v: ProductView)
    ensures |FirstReviews(v)| == Min(|v.reviews|, ReviewLimit)
    ensures IsSubsequence(Reviews(v), TrimAll(FirstReviews(v)))
    ensures forall t :: t in Reviews(v) <==>
      (exists i :: 0 <= i < |FirstReviews(v)| && Trim(FirstReviews(v)[i]) == t) &&
      MinReviewLength < |t| < MaxReviewLength
    ensures forall t ::
      multiset(Reviews(v))[t] == if FitsReview(t) then multiset(TrimAll(FirstReviews(v)))[t] else 0
  {
    var first := FirstReviews(v);
    var trimmed := TrimAll(first);
    FilterCounts(FitsReview, trimmed);
    FilterIsSubsequence(FitsReview, trimmed);
    FilterMembers(FitsReview, trimmed);
    forall t | t in trimmed ensures exists i :: 0 <= i < |first| && Trim(first[i]) == t {
      var i :| 0 <= i < |trimmed| && trimmed[i] == t;
      TrimAllAt(first, i);
    }
    forall t, i | 0 <= i < |first| && Trim(first[i]) == t ensures t in trimmed {
      TrimAllAt(first, i);
      assert trimmed[i] == t;
    }
  }

  /** The document always opens with `# `, so the fallback text is never what
      the extractor returns. */
  lemma FallbackNeverReturned(v: ProductView, page: Page)
    requires page.product == v
    ensures StartsWith(Document(v), "# ")
    ensures Extract(Received(true, page)) == Extracted(Document(v))
    ensures Document(v) != EmptyFallback
  {
    var title := TitleLine(Title(v));
    var tail := TaglineLine(Tagline(v)) + DescriptionSection(Description(v)) + ReviewsHeading +
                ConcatMap(Bullet, Reviews(v));
    assert Document(v) == title + tail;
    assert StartsWith(title, "# ");
    StartsWithAppend(title, tail, "# ");
    assert EmptyFallback[0] != '#';
  }
}
