/** The existence guards: a lookup, then a test on the number of rows returned. */
module Utils {
  import opened Wrappers
  import opened JsValues
  import opened Errors
  import opened Sql
  import opened Rows

  /** `SELECT * FROM articles WHERE article_id = $1`; no row is a 404, else the first row. */
  function CheckArticleExists(articles: seq<Article>, id: IntText): (r: Result<Article, ErrorValue>)
    ensures id.NotInteger? ==> r == Err(DbError(InvalidTextRepresentation))
    ensures id.Integer? ==> (r.Err? <==> !HasArticle(articles, id.n))
    ensures id.Integer? && r.Err? ==> r.error == Rejection(404, "article not found")
    ensures r.Ok? ==> id.Integer? && r.value.article_id == id.n
    ensures r.Ok? ==> exists k :: 0 <= k < |articles| && articles[k] == r.value &&
                                 forall j :: 0 <= j < k ==> articles[j].article_id != r.value.article_id
  {
    match id
    case NotInteger => Err(DbError(InvalidTextRepresentation))
    case Integer(n) =>
      var rows := ArticlesWithId(articles, n);
      if |rows| == 0 then
        Err(Rejection(404, "article not found"))
      else
        assert rows[0] in rows;
        ArticlesWithIdFirst(articles, n);
        Ok(rows[0])
  }

  /** `SELECT * FROM comments WHERE comment_id = $1`; no row is a 404, else the first row. */
  function CheckCommentExists(comments: seq<Comment>, id: IntText): (r: Result<Comment, ErrorValue>)
    ensures id.NotInteger? ==> r == Err(DbError(InvalidTextRepresentation))
    ensures id.Integer? ==> (r.Err? <==> !HasComment(comments, id.n))
    ensures id.Integer? && r.Err? ==> r.error == Rejection(404, "comment not found")
    ensures r.Ok? ==> id.Integer? && r.value.comment_id == id.n
    ensures r.Ok? ==> exists k :: 0 <= k < |comments| && comments[k] == r.value &&
                                 forall j :: 0 <= j < k ==> comments[j].comment_id != r.value.comment_id
  {
    match id
    case NotInteger => Err(DbError(InvalidTextRepresentation))
    case Integer(n) =>
      var keep := (c: Comment) => c.comment_id == n;
      var rows := Where(comments, keep);
      if |rows| == 0 then
        WhereEmpty(comments, keep);
        Err(Rejection(404, "comment not found"))
      else
        WhereFirst(comments, keep);
        Ok(rows[0])
  }

  /** An empty list of rows is a 404 "not found"; any other list is passed on as it is. */
  function CheckRowsLength<T>(rows: seq<T>): (r: Result<seq<T>, ErrorValue>)
    ensures r.Err? <==> |rows| == 0
    ensures r.Err? ==> r.error == Rejection(404, "not found")
    ensures r.Ok? ==> r.value == rows
  {
    if |rows| == 0 then Err(Rejection(404, "not found")) else Ok(rows)
  }

  /** Under the primary key, the guard resolves with exactly the row that has the id. */
  lemma CheckArticleExistsFindsTheRow(articles: seq<Article>, n: int, a: Article)
    requires UniqueArticleIds(articles)
    ensures CheckArticleExists(articles, Integer(n)) == Ok(a) <==> a in articles && a.article_id == n
  {
    if a in articles && a.article_id == n {
      var i :| 0 <= i < |articles| && articles[i] == a;
      assert HasArticle(articles, n);
    }
  }

  /** Under the primary key, the guard resolves with exactly the row that has the id. */
  lemma CheckCommentExistsFindsTheRow(comments: seq<Comment>, n: int, c: Comment)
    requires UniqueCommentIds(comments)
    ensures CheckCommentExists(comments, Integer(n)) == Ok(c) <==> c in comments && c.comment_id == n
  {
    if c in comments && c.comment_id == n {
      var i :| 0 <= i < |comments| && comments[i] == c;
      assert HasComment(comments, n);
    }
  }
}
