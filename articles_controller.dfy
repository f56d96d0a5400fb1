/**
 * `controllers/articles-controllers.js`: each handler runs the model calls in
 * order, answers with a status and a body, and passes any rejection to the
 * error chain (`.catch(next)`).
 */
module ArticlesController {
  import opened Wrappers
  import opened JsValues
  import opened Errors
  import opened Sql
  import opened Rows
  import opened Db
  import opened Http
  import opened Utils
  import opened ArticlesModel

  // ============================================================ reads

  /** `getArticles` after the fetch: an empty page is a 404, otherwise the page and the total. */
  function ArticlesResponse(listing: Result<Listing, ErrorValue>): Response
  {
    match listing
    case Err(e) => Forward(e)
    case Ok(l) =>
      match CheckRowsLength(l.articles)
      case Err(e) => Forward(e)
      case Ok(rows) => Response(200, ArticlesPage(rows, l.total_count))
  }

  method GetArticles(db: Store, sortBy: Option<string>, order: Option<string>, topic: Option<string>,
                     limit: Option<IntText>, p: Option<IntText>) returns (resp: Response)
    ensures resp == ArticlesResponse(ListArticles(db.articles, db.comments, sortBy, order, topic, limit, p))
  {
    var listing := FetchArticles(db, sortBy, order, topic, limit, p);
    if listing.Err? {
      return Forward(listing.error);
    }
    var checked := CheckRowsLength(listing.value.articles);
    if checked.Err? {
      return Forward(checked.error);
    }
    return Response(200, ArticlesPage(checked.value, listing.value.total_count));
  }

  /** A column or direction off the allow-lists is a 400 "invalid input". */
  lemma GetArticlesRejects(articles: seq<Article>, comments: seq<Comment>, sortBy: Option<string>,
                           order: Option<string>, topic: Option<string>, limit: Option<IntText>, p: Option<IntText>)
    requires !ListingArgsAllowed(sortBy, order)
    ensures ArticlesResponse(ListArticles(articles, comments, sortBy, order, topic, limit, p))
         == Response(400, Msg("invalid input"))
  {
  }

  /**
   * A 200 carries a non-empty page of at most `limit` summaries of articles on the
   * topic, in the requested order, and the number of all articles on the topic.
   */
  lemma GetArticlesOk(articles: seq<Article>, comments: seq<Comment>, sortBy: Option<string>,
                      order: Option<string>, topic: Option<string>, limit: Option<IntText>, p: Option<IntText>)
    requires ArticlesResponse(ListArticles(articles, comments, sortBy, order, topic, limit, p)).status == 200
    ensures var resp := ArticlesResponse(ListArticles(articles, comments, sortBy, order, topic, limit, p));
      && resp.payload.ArticlesPage?
      && resp.payload.articles != []
      && |resp.payload.articles| <= LimitArg(limit).n
      && resp.payload.total_count == |Matching(articles, topic)|
      && (forall s :: s in resp.payload.articles ==> Filtered(topic) ==> s.topic == topic.value)
      && SortedBy(resp.payload.articles, ColumnKey(SortByArg(sortBy)), ToUpperCase(OrderArg(order)) == "DESC")
  {
    var listing := ListArticles(articles, comments, sortBy, order, topic, limit, p);
    assert listing.Ok?;
    ListingPage(articles, comments, sortBy, order, topic, limit, p);
  }

  /**
   * `checkRowsLength` turns every empty page into 404 "not found": no article on the
   * topic, a page past the end, or `limit=0`, whatever the paging arguments.
   */
  lemma GetArticlesEmptyPage(articles: seq<Article>, comments: seq<Comment>, sortBy: Option<string>,
                             order: Option<string>, topic: Option<string>, limit: Option<IntText>, p: Option<IntText>)
    requires ListArticles(articles, comments, sortBy, order, topic, limit, p).Ok?
    requires ListArticles(articles, comments, sortBy, order, topic, limit, p).value.articles == []
    ensures ArticlesResponse(ListArticles(articles, comments, sortBy, order, topic, limit, p))
         == Response(404, Msg("not found"))
  {
  }

  /** A page past the last matching article, or `limit=0`, is a 404 "not found", not an empty 200. */
  lemma GetArticlesPastTheEnd(articles: seq<Article>, comments: seq<Comment>, sortBy: Option<string>,
                              order: Option<string>, topic: Option<string>, limit: int, p: int)
    requires ListingArgsAllowed(sortBy, order) && 0 <= limit && 1 <= p
    requires limit == 0 || |Matching(articles, topic)| <= (p - 1) * limit
    ensures ArticlesResponse(ListArticles(articles, comments, sortBy, order, topic, Some(Integer(limit)), Some(Integer(p))))
         == Response(404, Msg("not found"))
  {
    ListingPastTheEnd(articles, comments, sortBy, order, topic, limit, p);
    GetArticlesEmptyPage(articles, comments, sortBy, order, topic, Some(Integer(limit)), Some(Integer(p)));
  }

  /** No article on the topic, with default paging: 404 "not found", not an empty 200. */
  lemma GetArticlesNoMatch(articles: seq<Article>, comments: seq<Comment>, sortBy: Option<string>,
                           order: Option<string>, topic: Option<string>)
    requires ListingArgsAllowed(sortBy, order) && Matching(articles, topic) == []
    ensures ArticlesResponse(ListArticles(articles, comments, sortBy, order, topic, None, None))
         == Response(404, Msg("not found"))
  {
    var column, desc := SortByArg(sortBy), ToUpperCase(OrderArg(order)) == "DESC";
    assert Summaries(comments, Matching(articles, topic)) == [];
    var ordered := ListingRows(articles, comments, topic, column, desc);
    assert ordered == [];
    assert Offset(Integer(10), Integer(1)) == Integer(0);
    var page := LimitOffset(ordered, Integer(10), Integer(0));
    assert page.Ok? && page.value == [];
    GetArticlesEmptyPage(articles, comments, sortBy, order, topic, None, None);
  }

  /**
   * A page number below 1 (`p=0`, say) gives a negative OFFSET, which PostgreSQL
   * refuses with a code the chain does not know: the client sees a 500.
   */
  lemma GetArticlesPageBelowOne(articles: seq<Article>, comments: seq<Comment>, sortBy: Option<string>,
                                order: Option<string>, topic: Option<string>, limit: int, p: int)
    requires ListingArgsAllowed(sortBy, order) && 0 < limit && p < 1
    ensures ArticlesResponse(ListArticles(articles, comments, sortBy, order, topic, Some(Integer(limit)), Some(Integer(p))))
         == Response(500, Msg("internal server error"))
  {
    ListingNegativeOffset(articles, comments, sortBy, order, topic, limit, p);
  }

  /** `getArticleById` after the fetch: no row is a 404 "not found", otherwise the first row. */
  function ArticleResponse(fetched: Result<seq<ArticleDetail>, ErrorValue>): Response
  {
    match fetched
    case Err(e) => Forward(e)
    case Ok(rows) =>
      match CheckRowsLength(rows)
      case Err(e) => Forward(e)
      case Ok(found) => Response(200, ArticlePayload(found[0]))
  }

  method GetArticleById(db: Store, id: IntText) returns (resp: Response)
    ensures resp == ArticleResponse(FetchArticleById(db, id))
  {
    var fetched := FetchArticleById(db, id);
    if fetched.Err? {
      return Forward(fetched.error);
    }
    var checked := CheckRowsLength(fetched.value);
    if checked.Err? {
      return Forward(checked.error);
    }
    var article := checked.value[0];
    return Response(200, ArticlePayload(article));
  }

  /** A malformed id is a 400, an unknown one a 404, a known one its row with the comment count. */
  lemma GetArticleByIdOutcomes(db: Store, id: IntText)
    requires db.Valid()
    ensures id.NotInteger? ==> ArticleResponse(FetchArticleById(db, id)) == Response(400, Msg("invalid input"))
    ensures id.Integer? && !HasArticle(db.articles, id.n) ==>
      ArticleResponse(FetchArticleById(db, id)) == Response(404, Msg("not found"))
    ensures id.Integer? && HasArticle(db.articles, id.n) ==>
      exists a :: a in db.articles && a.article_id == id.n &&
        ArticleResponse(FetchArticleById(db, id)) == Response(200, ArticlePayload(Detail(db.comments, a)))
  {
    if id.Integer? && HasArticle(db.articles, id.n) {
      var i :| 0 <= i < |db.articles| && db.articles[i].article_id == id.n;
      FetchArticleByIdUnique(db, id.n, db.articles[i]);
      assert FetchArticleById(db, id).value[0] in FetchArticleById(db, id).value;
    }
  }

  /** `getArticleCommentsById` after the fetch: an empty list is a 404 "not found". */
  function CommentsResponse(listed: Result<seq<Comment>, ErrorValue>): Response
  {
    match listed
    case Err(e) => Forward(e)
    case Ok(rows) =>
      match CheckRowsLength(rows)
      case Err(e) => Forward(e)
      case Ok(comments) => Response(200, CommentsPayload(comments))
  }

  method GetArticleCommentsById(db: Store, id: IntText, limit: Option<IntText>, p: Option<IntText>)
    returns (resp: Response)
    ensures resp == CommentsResponse(ListComments(db.comments, id, limit, p))
  {
    var listed := FetchArticleCommentsById(db, id, limit, p);
    if listed.Err? {
      return Forward(listed.error);
    }
    var checked := CheckRowsLength(listed.value);
    if checked.Err? {
      return Forward(checked.error);
    }
    return Response(200, CommentsPayload(checked.value));
  }

  /**
   * Without paging: a malformed id is a 400; an article with no comment (or no
   * article at all) a 404 "not found"; otherwise every comment of the article,
   * newest first.
   */
  lemma GetArticleCommentsUnpaged(comments: seq<Comment>, id: IntText, limit: Option<IntText>, p: Option<IntText>)
    requires !Paginated(limit, p)
    ensures id.NotInteger? ==> CommentsResponse(ListComments(comments, id, limit, p)) == Response(400, Msg("invalid input"))
    ensures id.Integer? && CommentsOf(comments, id.n) == [] ==>
      CommentsResponse(ListComments(comments, id, limit, p)) == Response(404, Msg("not found"))
    ensures id.Integer? && CommentsOf(comments, id.n) != [] ==>
      var resp := CommentsResponse(ListComments(comments, id, limit, p));
      && resp.status == 200 && resp.payload.CommentsPayload?
      && multiset(resp.payload.comments) == multiset(CommentsOf(comments, id.n))
      && SortedBy(resp.payload.comments, CreatedAt, true)
  {
    if id.Integer? {
      ListCommentsUnpaginated(comments, id.n, limit, p);
      var listed := ListComments(comments, id, limit, p).value;
      if CommentsOf(comments, id.n) == [] {
        assert multiset(listed) == multiset{};
      } else {
        assert |multiset(listed)| > 0;
      }
    }
  }

  /**
   * `checkRowsLength` turns every empty comment list into 404 "not found": an
   * article without comments, a missing article, or a page past the end.
   */
  lemma GetArticleCommentsEmptyPage(comments: seq<Comment>, id: IntText, limit: Option<IntText>, p: Option<IntText>)
    requires ListComments(comments, id, limit, p).Ok? && ListComments(comments, id, limit, p).value == []
    ensures CommentsResponse(ListComments(comments, id, limit, p)) == Response(404, Msg("not found"))
  {
  }

  /** A 200 is a non-empty list of the article's comments, newest first, at most `limit` when paged. */
  lemma GetArticleCommentsOk(comments: seq<Comment>, id: IntText, limit: Option<IntText>, p: Option<IntText>)
    requires CommentsResponse(ListComments(comments, id, limit, p)).status == 200
    ensures var resp := CommentsResponse(ListComments(comments, id, limit, p));
      && id.Integer? && resp.payload.CommentsPayload? && resp.payload.comments != []
      && (forall c :: c in resp.payload.comments ==> c in comments && c.article_id == id.n)
      && SortedBy(resp.payload.comments, CreatedAt, true)
      && (Paginated(limit, p) ==> |resp.payload.comments| <= limit.value.n)
  {
    assert ListComments(comments, id, limit, p).Ok?;
    ListCommentsPage(comments, id.n, limit, p);
  }

  // ============================================================ writes

  /** `postCommentToArticleId`: the article must exist before the body is looked at. */
  method PostCommentToArticleId(db: Store, id: IntText, comment: Body, now: int) returns (resp: Response)
    requires db.Valid()
    modifies db
    ensures db.Valid()
    ensures resp.status != 201 ==> db.Snapshot() == old(db.Snapshot())
    ensures id.NotInteger? ==> resp == Response(400, Msg("invalid input"))
    ensures id.Integer? && !HasArticle(old(db.articles), id.n) ==> resp == Response(404, Msg("article not found"))
    ensures id.Integer? && HasArticle(old(db.articles), id.n) && !ValidComment(comment) ==>
      resp == Response(400, Msg("invalid comment input"))
    ensures id.Integer? && HasArticle(old(db.articles), id.n) && ValidComment(comment) &&
            !HasUser(old(db.users), Text(Field(comment, "username"))) ==>
      resp == Response(400, Msg("invalid input"))
    ensures resp.status == 201 <==>
      id.Integer? && HasArticle(old(db.articles), id.n) && ValidComment(comment) &&
      HasUser(old(db.users), Text(Field(comment, "username")))
    ensures resp.status == 201 ==>
      var c := Comment(old(db.nextCommentId), Text(Field(comment, "body")), id.n, Text(Field(comment, "username")), 0, now);
      && resp.payload == CommentPayload(c)
      && db.Snapshot() == old(db.Snapshot()).(comments := old(db.comments) + [c], nextCommentId := old(db.nextCommentId) + 1)
  {
    var found := CheckArticleExists(db.articles, id);
    if found.Err? {
      return Forward(found.error);
    }
    var added := AddCommentToArticleId(db, comment, id, now);
    if added.Err? {
      return Forward(added.error);
    }
    return Response(201, CommentPayload(added.value));
  }

  /** A posted comment is listed under its article afterwards, and the article's count goes up by one. */
  lemma PostedCommentIsListed(comments: seq<Comment>, c: Comment)
    ensures ListComments(comments + [c], Integer(c.article_id), None, None).Ok?
    ensures c in ListComments(comments + [c], Integer(c.article_id), None, None).value
    ensures CommentCount(comments + [c], c.article_id) == CommentCount(comments, c.article_id) + 1
  {
    var keep := (x: Comment) => x.article_id == c.article_id;
    WhereAppend(comments, c, keep);
    ListCommentsUnpaginated(comments + [c], c.article_id, None, None);
    assert c in multiset(CommentsOf(comments + [c], c.article_id));
  }

  /** An article row with `delta` added to its votes and nothing else changed. */
  function Voted(a: Article, delta: int): (r: Article)
    ensures r.votes == a.votes + delta && r.(votes := a.votes) == a
  {
    a.(votes := a.votes + delta)
  }

  /**
   * `patchArticleById` as a transition of the store: the existence guard, then the
   * model's increment check, then the patch, answered with the `RETURNING *` row.
   */
  function PatchArticleByIdSpec(t: Tables, id: IntText, voteObj: Body): (Response, Tables)
  {
    match CheckArticleExists(t.articles, id)
    case Err(e) => (Forward(e), t)
    case Ok(_) =>
      match VoteIncrement(voteObj)
      case None => (Forward(Rejection(400, "invalid input")), t)
      case Some(delta) =>
        var patched := WithVotes(t.articles, id.n, delta);
        PatchReturnsTheCheckedRow(t.articles, id, delta);
        (Response(200, UpdatedArticle(ArticlesWithId(patched, id.n)[0])), t.(articles := patched))
  }

  method PatchArticleById(db: Store, id: IntText, voteObj: Body) returns (resp: Response)
    requires db.Valid()
    modifies db
    ensures db.Valid()
    ensures (resp, db.Snapshot()) == PatchArticleByIdSpec(old(db.Snapshot()), id, voteObj)
  {
    var found := CheckArticleExists(db.articles, id);
    if found.Err? {
      return Forward(found.error);
    }
    var updated := UpdateArticleById(db, id, voteObj);
    if updated.Err? {
      return Forward(updated.error);
    }
    return Response(200, UpdatedArticle(updated.value[0]));
  }

  /**
   * The rejections of `patchArticleById`: a malformed id and a missing increment are 400,
   * a missing article 404 (looked at before the increment), and none of them changes the store.
   */
  lemma PatchArticleByIdRejects(t: Tables, id: IntText, voteObj: Body)
    ensures var resp := PatchArticleByIdSpec(t, id, voteObj).0;
      var after := PatchArticleByIdSpec(t, id, voteObj).1;
      && (resp.status != 200 ==> after == t)
      && (id.NotInteger? ==> resp == Response(400, Msg("invalid input")))
      && (id.Integer? && !HasArticle(t.articles, id.n) ==> resp == Response(404, Msg("article not found")))
      && (id.Integer? && HasArticle(t.articles, id.n) && VoteIncrement(voteObj).None? ==>
            resp == Response(400, Msg("invalid input")))
      && (resp.status == 200 <==> id.Integer? && HasArticle(t.articles, id.n) && VoteIncrement(voteObj).Some?)
  {
  }

  /** A successful patch answers with the checked row, its votes moved by the increment; only those votes change. */
  lemma PatchArticleByIdUpdates(t: Tables, id: IntText, voteObj: Body)
    requires CheckArticleExists(t.articles, id).Ok? && VoteIncrement(voteObj).Some?
    ensures var resp := PatchArticleByIdSpec(t, id, voteObj).0;
      var after := PatchArticleByIdSpec(t, id, voteObj).1;
      var delta := VoteIncrement(voteObj).value;
      && resp.status == 200
      && after == t.(articles := WithVotes(t.articles, id.n, delta))
      && resp.payload == UpdatedArticle(Voted(CheckArticleExists(t.articles, id).value, delta))
  {
    var delta := VoteIncrement(voteObj).value;
    var patched := WithVotes(t.articles, id.n, delta);
    PatchReturnsTheCheckedRow(t.articles, id, delta);
    assert ArticlesWithId(patched, id.n)[0] == Voted(CheckArticleExists(t.articles, id).value, delta);
    assert PatchArticleByIdSpec(t, id, voteObj) ==
      (Response(200, UpdatedArticle(ArticlesWithId(patched, id.n)[0])), t.(articles := patched));
  }

  /** The row `RETURNING *` hands back is the row the existence check found, with the increment applied. */
  lemma PatchReturnsTheCheckedRow(articles: seq<Article>, id: IntText, delta: int)
    requires CheckArticleExists(articles, id).Ok?
    ensures var a := CheckArticleExists(articles, id).value;
      var rows := ArticlesWithId(WithVotes(articles, id.n, delta), id.n);
      rows != [] && rows[0] == a.(votes := a.votes + delta)
  {
    WithVotesReturnsThePatchedRows(articles, id.n, delta);
  }

  /** `postArticle`: the model's rejection, or 201 with the inserted row. */
  method PostArticle(db: Store, article: Body, now: int) returns (resp: Response)
    requires db.Valid()
    modifies db
    ensures db.Valid()
    ensures resp.status != 201 ==> db.Snapshot() == old(db.Snapshot())
    ensures !ValidArticle(article) ==> resp == Response(400, Msg("invalid input"))
    ensures ValidArticle(article) && !(HasUser(old(db.users), Text(Field(article, "author"))) &&
                                       HasTopic(old(db.topics), Text(Field(article, "topic")))) ==>
      resp == Response(400, Msg("invalid input"))
    ensures resp.status == 201 <==>
      ValidArticle(article) && HasUser(old(db.users), Text(Field(article, "author"))) &&
      HasTopic(old(db.topics), Text(Field(article, "topic")))
    ensures resp.status == 201 ==>
      && resp.payload.PostPayload? && resp.payload.post.comment_count == 0
      && resp.payload.post.article.article_id == old(db.nextArticleId)
      && db.Snapshot() == old(db.Snapshot()).(articles := old(db.articles) + [resp.payload.post.article],
                                              nextArticleId := old(db.nextArticleId) + 1)
  {
    var added := AddArticle(db, article, now);
    if added.Err? {
      return Forward(added.error);
    }
    var post := added.value;
    return Response(201, PostPayload(post));
  }

  /** `deleteArticleById`: existence, then the article's comments, then the article. */
  method DeleteArticleById(db: Store, id: IntText) returns (resp: Response)
    requires db.Valid()
    modifies db
    ensures db.Valid()
    ensures resp.status != 204 ==> db.Snapshot() == old(db.Snapshot())
    ensures id.NotInteger? ==> resp == Response(400, Msg("invalid input"))
    ensures id.Integer? && !HasArticle(old(db.articles), id.n) ==> resp == Response(404, Msg("article not found"))
    ensures id.Integer? && HasArticle(old(db.articles), id.n) ==>
      && resp == Response(204, NoContent)
      && db.Snapshot() == old(db.Snapshot()).(comments := WithoutCommentsOf(old(db.comments), id.n),
                                              articles := WithoutArticle(old(db.articles), id.n))
  {
    var found := CheckArticleExists(db.articles, id);
    if found.Err? {
      return Forward(found.error);
    }
    var removedComments := db.RemoveCommentsByArticleId(id);
    assert removedComments.Ok?;
    NothingLeftToCount(old(db.comments), id.n);
    var removedArticle := db.RemoveArticleById(id);
    assert removedArticle.Ok?;
    return Response(204, NoContent);
  }

  /** Once its comments are gone the article has none to count, so the foreign key allows the delete. */
  lemma NothingLeftToCount(comments: seq<Comment>, n: int)
    ensures CommentCount(WithoutCommentsOf(comments, n), n) == 0
  {
    var kept := WithoutCommentsOf(comments, n);
    forall i | 0 <= i < |kept| ensures kept[i].article_id != n {
      assert kept[i] in kept;
    }
    CommentCountZero(kept, n);
  }

  /**
   * After the delete the guard finds no article, no comment refers to it, and
   * every other article and comment is still there.
   */
  lemma DeletedArticleIsGone(articles: seq<Article>, comments: seq<Comment>, n: int)
    ensures CheckArticleExists(WithoutArticle(articles, n), Integer(n)) == Err(Rejection(404, "article not found"))
    ensures CommentsOf(WithoutCommentsOf(comments, n), n) == []
    ensures forall a :: a in articles && a.article_id != n ==> a in WithoutArticle(articles, n)
    ensures forall c :: c in comments && c.article_id != n ==> c in WithoutCommentsOf(comments, n)
  {
    NothingLeftToCount(comments, n);
  }

  /** `deleteArticleCommentsById`: existence, then the comments; the article row stays. */
  method DeleteArticleCommentsById(db: Store, id: IntText) returns (resp: Response)
    requires db.Valid()
    modifies db
    ensures db.Valid()
    ensures resp.status != 204 ==> db.Snapshot() == old(db.Snapshot())
    ensures id.NotInteger? ==> resp == Response(400, Msg("invalid input"))
    ensures id.Integer? && !HasArticle(old(db.articles), id.n) ==> resp == Response(404, Msg("article not found"))
    ensures id.Integer? && HasArticle(old(db.articles), id.n) ==>
      && resp == Response(204, NoContent)
      && db.Snapshot() == old(db.Snapshot()).(comments := WithoutCommentsOf(old(db.comments), id.n))
  {
    var found := CheckArticleExists(db.articles, id);
    if found.Err? {
      return Forward(found.error);
    }
    var removed := db.RemoveCommentsByArticleId(id);
    assert removed.Ok?;
    return Response(204, NoContent);
  }
}
