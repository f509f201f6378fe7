/**
  The Reddit extractor `parseReddit`: derive the `.json` endpoint of a post
  URL, fetch it, and render the post and its first twenty comments as a
  Markdown document.
*/
module Reddit {
  import opened Js
  import opened Sources

  const ErrorMessage := "Не удалось загрузить данные с Reddit"
  const CommentLimit := 20
  const AutoModerator := "AutoModerator"

  // ---------------------------------------------------------------------
  // The endpoint: url.replace(/\/?$/, '.json')
  // ---------------------------------------------------------------------

  /** Length of a match of `/\/?$/` starting at position `i` of `s`, if any:
      the optional slash is tried first, then its omission, each followed by
      the end-of-input assertion. */
  function MatchAt(s: string, i: nat): Option<nat>
    requires i <= |s|
  {
    if i < |s| && s[i] == '/' && i + 1 == |s| then Some(1)
    else if i == |s| then Some(0)
    else None
  }

  /** The leftmost match of `/\/?$/` at or after position `i`, as (start, length). */
  function FirstMatch(s: string, i: nat): (m: (nat, nat))
    requires i <= |s|
    ensures i <= m.0 && m.0 + m.1 <= |s|
    decreases |s| - i
  {
    match MatchAt(s, i)
    case Some(len) => (i, len)
    case None => FirstMatch(s, i + 1)
  }

  /** `url.replace(/\/?$/, '.json')`: the first match is replaced. */
  function JsonUrl(url: string): string
  {
    var m := FirstMatch(url, 0);
    url[..m.0] + ".json" + url[m.0 + m.1..]
  }

  /** The leftmost match is the final slash, or the empty match at the end. */
  lemma {:induction false} FirstMatchIsAtEnd(s: string, i: nat)
    requires i <= |s|
    ensures FirstMatch(s, i) == if i < |s| && s[|s| - 1] == '/' then (|s| - 1, 1) else (|s|, 0)
    decreases |s| - i
  {
    if MatchAt(s, i).None? {
      FirstMatchIsAtEnd(s, i + 1);
    }
  }

  /** The endpoint is the URL with at most one final slash removed, then `.json`. */
  lemma JsonUrlDropsOneSlash(url: string)
    ensures JsonUrl(url) == (if url != [] && url[|url| - 1] == '/' then url[..|url| - 1] else url) + ".json"
    ensures |JsonUrl(url)| >= |url| + 4
    ensures JsonUrl(url)[|JsonUrl(url)| - 5..] == ".json"
  {
    FirstMatchIsAtEnd(url, 0);
    var m := FirstMatch(url, 0);
    var base := if url != [] && url[|url| - 1] == '/' then url[..|url| - 1] else url;
    assert url[..m.0] == base;
    assert url[m.0 + m.1..] == [];
    var j := JsonUrl(url);
    assert j == base + ".json" + [];
    assert j == base + ".json";
    assert j[|base|..] == ".json";
  }

  // ---------------------------------------------------------------------
  // The document
  // ---------------------------------------------------------------------

  function TitleLine(p: Post): string
  {
    "# " + p.title + "\n\n"
  }

  function AuthorLine(p: Post): string
  {
    "**Автор:** u/" + p.author + "\n"
  }

  function SubredditLine(p: Post): string
  {
    "**Subreddit:** r/" + p.subreddit + "\n"
  }

  function ScoreLine(p: Post): string
  {
    "**Score:** " + IntText(p.score) + " | **Комментариев:** " + IntText(p.numComments) + "\n\n"
  }

  /** The "post text" section, present only for a non-empty `selftext`. */
  function SelftextSection(selftext: string): string
  {
    if selftext != "" then "## Текст поста\n" + selftext + "\n\n" else ""
  }

  /** Title, author, subreddit and score lines, then the post text if it is non-empty. */
  function PostSection(post: Option<Post>): string
  {
    match post
    case None => ""
    case Some(p) => TitleLine(p) + AuthorLine(p) + SubredditLine(p) + ScoreLine(p) + SelftextSection(p.selftext)
  }

  /** The comments heading: how many of the children are considered, out of all of them. */
  function CommentsHeading(total: nat): string
  {
    "## Комментарии (" + NatText(Min(total, CommentLimit)) + " из " + NatText(total) + ")\n\n"
  }

  /** `comments.slice(0, 20)` */
  function FirstComments(t: Thread): seq<Child>
  {
    t.children[..Min(|t.children|, CommentLimit)]
  }

  /** A child is rendered when it has a record with a non-empty body not written by AutoModerator. */
  predicate Shown(ch: Child)
  {
    ch.data.Some? && ch.data.value.body != "" && ch.data.value.author != AutoModerator
  }

  function CommentBlock(ch: Child): string
  {
    match ch.data
    case None => ""
    case Some(c) => "**u/" + c.author + "** (score: " + IntText(c.score) + "):\n" + c.body + "\n\n---\n\n"
  }

  /** The children whose blocks appear in the document. */
  function Emitted(t: Thread): seq<Child>
  {
    Filter(Shown, FirstComments(t))
  }

  function Document(t: Thread): string
  {
    PostSection(t.post) + CommentsHeading(|t.children|) + ConcatMap(CommentBlock, Emitted(t))
  }

  /** The outcome of `parseReddit` for a given response of the endpoint. */
  function Extract(response: Response<Option<Thread>>): (r: Extraction)
    ensures r.Failed? ==> r.message == ErrorMessage
    ensures r.Extracted? <==> response.Received? && response.ok && response.body.Some?
  {
    if response.Received? && response.ok && response.body.Some?
    then Extracted(Document(response.body.value))
    else Failed(ErrorMessage)
  }

  /** `parseReddit(url)`: fetches `JsonUrl(url)` and builds the document step by step. */
  method Parse(url: string, web: Web) returns (endpoint: string, r: Extraction)
    ensures endpoint == JsonUrl(url)
    ensures r == Extract(web.json(endpoint))
  {
    endpoint := JsonUrl(url);
    var response := web.json(endpoint);
    if !response.Received? || !response.ok || response.body.None? {
      return endpoint, Failed(ErrorMessage);
    }
    var thread := response.body.value;
    var content := "";
    if thread.post.Some? {
      var post := thread.post.value;
      content := content + TitleLine(post);
      assert content == TitleLine(post);
      content := content + AuthorLine(post);
      content := content + SubredditLine(post);
      content := content + ScoreLine(post);
      if post.selftext != "" {
        content := content + SelftextSection(post.selftext);
      } else {
        assert content == content + SelftextSection(post.selftext);
      }
    }
    assert content == PostSection(thread.post);
    var comments := thread.children;
    content := content + CommentsHeading(|comments|);
    ghost var head := content;
    var first := comments[..Min(|comments|, CommentLimit)];
    for i := 0 to |first|
      invariant content == head + ConcatMap(CommentBlock, Filter(Shown, first[..i]))
    {
      var comment := first[i];
      assert first[..i + 1] == first[..i] + [comment];
      BlocksSnoc(first[..i], comment);
      ghost var done := ConcatMap(CommentBlock, Filter(Shown, first[..i]));
      if comment.data.Some? && comment.data.value.body != "" && comment.data.value.author != AutoModerator {
        AppendAssociates(head, done, CommentBlock(comment));
        content := content + CommentBlock(comment);
      } else {
        assert done + "" == done;
      }
    }
    assert first[..|first|] == first;
    return endpoint, Extracted(content);
  }

  /** One more child considered by the loop adds its block if it is shown. */
  lemma BlocksSnoc(xs: seq<Child>, x: Child)
    ensures ConcatMap(CommentBlock, Filter(Shown, xs + [x])) ==
            ConcatMap(CommentBlock, Filter(Shown, xs)) + (if Shown(x) then CommentBlock(x) else "")
  {
    FilterSnoc(Shown, xs, x);
    if Shown(x) {
      ConcatMapSnoc(CommentBlock, Filter(Shown, xs), x);
    } else {
      assert Filter(Shown, xs) + [] == Filter(Shown, xs);
    }
  }

  // ---------------------------------------------------------------------
  // Properties of the document
  // ---------------------------------------------------------------------

  /** Exactly the shown children among the first twenty are emitted, in their
      order, each as often as it occurs there. */
  lemma EmittedAreShownFirstComments(t: Thread)
    ensures IsSubsequence(Emitted(t), FirstComments(t))
    ensures forall ch :: ch in Emitted(t) <==> ch in FirstComments(t) && Shown(ch)
    ensures forall ch :: multiset(Emitted(t))[ch] == if Shown(ch) then multiset(FirstComments(t))[ch] else 0
  {
    FilterIsSubsequence(Shown, FirstComments(t));
    FilterMembers(Shown, FirstComments(t));
    FilterCounts(Shown, FirstComments(t));
  }

  /** The heading counts the first twenty children whether or not they are shown:
      it matches the number of emitted blocks only when none was skipped. */
  lemma HeadingIgnoresSkipped(t: Thread)
    ensures |FirstComments(t)| == Min(|t.children|, CommentLimit)
    ensures |Emitted(t)| <= Min(|t.children|, CommentLimit)
    ensures |Emitted(t)| == Min(|t.children|, CommentLimit) <==>
            forall ch :: ch in FirstComments(t) ==> Shown(ch)
  {
    FilterKeepsAll(Shown, FirstComments(t));
  }

  lemma PostSectionOpens(p: Post)
    ensures StartsWith(PostSection(Some(p)), TitleLine(p))
  {
    var title := TitleLine(p);
    var s1 := title + AuthorLine(p);
    var s2 := s1 + SubredditLine(p);
    var s3 := s2 + ScoreLine(p);
    assert PostSection(Some(p)) == s3 + SelftextSection(p.selftext);
    assert StartsWith(title, title);
    StartsWithAppend(title, AuthorLine(p), title);
    StartsWithAppend(s1, SubredditLine(p), title);
    StartsWithAppend(s2, ScoreLine(p), title);
    StartsWithAppend(s3, SelftextSection(p.selftext), title);
  }

  lemma TitleOpensDocument(t: Thread, p: Post)
    requires t.post == Some(p)
    ensures StartsWith(Document(t), "# " + p.title + "\n\n")
    ensures StartsWith(Document(t), "# ")
  {
    var title := TitleLine(p);
    var section := PostSection(t.post);
    var heading := CommentsHeading(|t.children|);
    var blocks := ConcatMap(CommentBlock, Emitted(t));
    assert Document(t) == section + heading + blocks;
    PostSectionOpens(p);
    StartsWithAppend(section, heading, title);
    StartsWithAppend(section + heading, blocks, title);
    assert StartsWith(title, "# ");
    StartsWithTransitive(Document(t), title, "# ");
  }

  lemma HeadingOpensDocument(t: Thread)
    requires t.post.None?
    ensures StartsWith(Document(t), CommentsHeading(|t.children|))
    ensures Document(t)[1] == '#'
  {
    var heading := CommentsHeading(|t.children|);
    var blocks := ConcatMap(CommentBlock, Emitted(t));
    assert PostSection(t.post) + heading == heading;
    assert Document(t) == heading + blocks;
    assert StartsWith(heading, heading);
    StartsWithAppend(heading, blocks, heading);
    assert heading[1] == '#';
    assert Document(t)[1] == heading[1];
  }

  /** The document opens with the post's title line exactly when a post is present;
      otherwise it opens with the comments heading. */
  lemma PostOpensDocument(t: Thread)
    ensures StartsWith(Document(t), "# ") <==> t.post.Some?
    ensures t.post.Some? ==> StartsWith(Document(t), "# " + t.post.value.title + "\n\n")
    ensures t.post.None? ==> StartsWith(Document(t), CommentsHeading(|t.children|))
  {
    match t.post
    case None => HeadingOpensDocument(t);
    case Some(p) => TitleOpensDocument(t, p);
  }
}
