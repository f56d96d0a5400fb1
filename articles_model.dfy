/**
 * The article and comment model: argument checks and defaults, the assembly of
 * query text and positional parameters, and the validators that run before a
 * write.
 */
module ArticlesModel {
  import opened Wrappers
  import opened JsValues
  import opened Errors
  import opened Sql
  import opened Rows
  import opened Db

  // ======================================================== listing articles

  /** The columns `sort_by` may name: the only caller text that reaches ORDER BY. */
  const SortColumns: set<string> :=
    {"author", "title", "article_id", "topic", "created_at", "votes", "article_img_url", "comment_count"}

  const OrderKeywords: set<string> := {"ASC", "DESC"}

  // Default parameter values, applied when the query string leaves an argument out.
  function SortByArg(sortBy: Option<string>): string { if sortBy.Some? then sortBy.value else "created_at" }
  function OrderArg(order: Option<string>): string { if order.Some? then order.value else "desc" }
  function LimitArg(limit: Option<IntText>): IntText { if limit.Some? then limit.value else Integer(10) }
  function PageArg(p: Option<IntText>): IntText { if p.Some? then p.value else Integer(1) }

  /** `(p - 1) * limit`: a value that is not a number makes the product NaN, which is not integer text. */
  function Offset(limit: IntText, p: IntText): IntText
  {
    if limit.Integer? && p.Integer? then Integer((p.n - 1) * limit.n) else NotInteger
  }

  /** `if (topic)`: a topic given as a non-empty string. */
  predicate Filtered(topic: Option<string>)
  {
    topic.Some? && topic.value != ""
  }

  /** The guard that runs before any query: both arguments are on their allow-lists. */
  predicate ListingArgsAllowed(sortBy: Option<string>, order: Option<string>)
  {
    SortByArg(sortBy) in SortColumns && ToUpperCase(OrderArg(order)) in OrderKeywords
  }

  datatype ArticlesQueries = ArticlesQueries(rows: SqlQuery, count: SqlQuery)

  /** The projection of the listing: every article column except `body`, and the comment count. */
  const ListingSelect: string :=
    "SELECT articles.author, articles.title, articles.article_id, articles.topic, articles.created_at, "
    + "articles.votes, articles.article_img_url, COUNT(comments.comment_id) AS comment_count FROM articles "
    + "LEFT JOIN comments ON articles.article_id = comments.article_id "

  const TotalCountSelect: string := "SELECT COUNT(*) AS total_count FROM articles"

  /** The topic conditions of the two queries: `$3` in the row query, `$1` in the count query. */
  const TopicCondition: seq<Frag> := [Lit("WHERE articles.topic = "), Placeholder(3), Lit(" ")]
  const CountTopicCondition: seq<Frag> := [Lit(" WHERE topic = "), Placeholder(1)]

  /** The end of the row query: grouping, the two interpolated tokens, then LIMIT $1 OFFSET $2. */
  function ListingTail(column: string, direction: string): seq<Frag>
  {
    [Lit("GROUP BY articles.article_id ORDER BY "), Ident(column), Lit(" "), Ident(direction),
     Lit(" LIMIT "), Placeholder(1), Lit(" OFFSET "), Placeholder(2)]
  }

  lemma IdentsOfListingTail(column: string, direction: string)
    ensures Idents(ListingTail(column, direction)) == [column, direction]
  {
    var t := ListingTail(column, direction);
    IdentsNone(t[4..]);
    assert t[3..] == [t[3]] + t[4..];
    assert Idents(t[3..]) == [direction] by { assert t[3..][1..] == t[4..]; }
    assert Idents(t[2..]) == [direction] by { assert t[2..][1..] == t[3..]; }
    assert Idents(t[1..]) == [column, direction] by { assert t[1..][1..] == t[2..]; }
    assert t[1..] == t[0..][1..];
  }

  /** The topic as a bound parameter, when the listing filters by one. */
  function TopicParams(topic: Option<string>): seq<SqlValue>
  {
    if Filtered(topic) then [TextParam(topic.value)] else []
  }

  /**
   * What the row query is: its parameters are the limit, the offset and then the
   * topic if any; its placeholders are numbered `$1`..`$n`; the only interpolated
   * tokens are the column and the direction, in that order, both allow-listed; and
   * each parameter sits right after its keyword.
   */
  predicate RowsQueryFor(q: SqlQuery, column: string, direction: string, lim: IntText, offset: IntText,
                         extra: seq<SqlValue>)
  {
    && q.params == [IntParam(lim), IntParam(offset)] + extra
    && WellNumbered(q) && Idents(q.text) == [column, direction] && TokensWithin(q, SortColumns + OrderKeywords)
    && Binds(q, " LIMIT ", IntParam(lim)) && Binds(q, " OFFSET ", IntParam(offset))
    && (extra != [] ==> Binds(q, "WHERE articles.topic = ", extra[0]))
  }

  /** What the count query is: numbered, no interpolated token, the topic bound after WHERE when given. */
  predicate CountQueryFor(q: SqlQuery, params: seq<SqlValue>)
  {
    && q.params == params && WellNumbered(q) && Idents(q.text) == []
    && (params != [] ==> Binds(q, " WHERE topic = ", params[0]))
  }

  /** The row query's text and parameters, with the topic condition inside `head` when there is one. */
  predicate RowsHead(head: seq<Frag>, extra: seq<SqlValue>)
  {
    if extra == [] then head == [Lit(ListingSelect)]
    else |extra| == 1 && head == [Lit(ListingSelect)] + TopicCondition
  }

  /**
   * The row query, with or without its topic condition, numbers its placeholders
   * `$1`..`$n`, interpolates only the two allow-listed tokens, and binds the limit,
   * the offset and the topic after the matching keywords.
   */
  lemma RowsQueryShape(q: SqlQuery, head: seq<Frag>, column: string, direction: string, lim: IntText,
                       offset: IntText, extra: seq<SqlValue>)
    requires RowsHead(head, extra)
    requires column in SortColumns && direction in OrderKeywords
    requires q == SqlQuery(head + ListingTail(column, direction), [IntParam(lim), IntParam(offset)] + extra)
    ensures RowsQueryFor(q, column, direction, lim, offset, extra)
  {
    RowsQueryNumbered(head, column, direction, lim, offset, extra);
    RowsQueryTokens(head, column, direction, lim, offset, extra);
    RowsQueryBinds(head, column, direction, lim, offset, extra);
  }

  lemma RowsQueryNumbered(head: seq<Frag>, column: string, direction: string, lim: IntText, offset: IntText,
                          extra: seq<SqlValue>)
    requires RowsHead(head, extra)
    ensures WellNumbered(SqlQuery(head + ListingTail(column, direction), [IntParam(lim), IntParam(offset)] + extra))
  {
    var tail := ListingTail(column, direction);
    var q := SqlQuery(head + tail, [IntParam(lim), IntParam(offset)] + extra);
    var n := |q.text|;
    forall i | 0 <= i < n && q.text[i].Placeholder? ensures 1 <= q.text[i].index <= |q.params| {
      if i >= |head| {
        assert q.text[i] == tail[i - |head|];
      }
    }
    forall k | 1 <= k <= |q.params| ensures Placeholder(k) in q.text {
      if k == 1 {
        assert q.text[n - 3] == Placeholder(1);
      } else if k == 2 {
        assert q.text[n - 1] == Placeholder(2);
      } else {
        assert q.text[2] == Placeholder(3);
      }
    }
  }

  lemma RowsQueryTokens(head: seq<Frag>, column: string, direction: string, lim: IntText, offset: IntText,
                        extra: seq<SqlValue>)
    requires RowsHead(head, extra)
    requires column in SortColumns && direction in OrderKeywords
    ensures Idents(head + ListingTail(column, direction)) == [column, direction]
    ensures TokensWithin(SqlQuery(head + ListingTail(column, direction), [IntParam(lim), IntParam(offset)] + extra),
                         SortColumns + OrderKeywords)
  {
    var text := head + ListingTail(column, direction);
    RowsQueryIdents(head, column, direction, extra);
    assert forall t :: t in Idents(text) ==> t in SortColumns + OrderKeywords;
    TokensWithinByIdents(SqlQuery(text, [IntParam(lim), IntParam(offset)] + extra), SortColumns + OrderKeywords);
  }

  /** The head interpolates nothing, so the row query's tokens are those of its tail. */
  lemma RowsQueryIdents(head: seq<Frag>, column: string, direction: string, extra: seq<SqlValue>)
    requires RowsHead(head, extra)
    ensures Idents(head + ListingTail(column, direction)) == [column, direction]
  {
    IdentsAppend(head, ListingTail(column, direction));
    IdentsNone(head);
    IdentsOfListingTail(column, direction);
  }

  lemma RowsQueryBinds(head: seq<Frag>, column: string, direction: string, lim: IntText, offset: IntText,
                       extra: seq<SqlValue>)
    requires RowsHead(head, extra)
    ensures var q := SqlQuery(head + ListingTail(column, direction), [IntParam(lim), IntParam(offset)] + extra);
      && Binds(q, " LIMIT ", IntParam(lim)) && Binds(q, " OFFSET ", IntParam(offset))
      && (extra != [] ==> Binds(q, "WHERE articles.topic = ", extra[0]))
  {
    var q := SqlQuery(head + ListingTail(column, direction), [IntParam(lim), IntParam(offset)] + extra);
    var n := |q.text|;
    assert q.text[n - 3] == Placeholder(1) && q.text[n - 4] == Lit(" LIMIT ");
    assert q.text[n - 1] == Placeholder(2) && q.text[n - 2] == Lit(" OFFSET ");
    if extra != [] {
      assert q.text[2] == Placeholder(3) && q.text[1] == Lit("WHERE articles.topic = ");
    }
  }

  /** The count query binds the topic, when there is one, as `$1` after its WHERE keyword. */
  lemma CountQueryShape(q: SqlQuery, text: seq<Frag>, params: seq<SqlValue>)
    requires params == [] ==> text == [Lit(TotalCountSelect)]
    requires params != [] ==> |params| == 1 && text == [Lit(TotalCountSelect)] + CountTopicCondition
    requires q == SqlQuery(text, params)
    ensures CountQueryFor(q, params)
  {
    if params != [] {
      assert text[2] == Placeholder(1) && text[1] == Lit(" WHERE topic = ");
    }
    IdentsNone(text);
  }

  /**
   * The checks and the query assembly of `fetchArticles`: the row query with
   * its parameter list, and the separate total-count query with its own.
   */
  method BuildArticlesQueries(sortBy: Option<string>, order: Option<string>, topic: Option<string>,
                              limit: Option<IntText>, p: Option<IntText>)
    returns (r: Result<ArticlesQueries, ErrorValue>)
    ensures r.Err? <==> !ListingArgsAllowed(sortBy, order)
    ensures r.Err? ==> r.error == Rejection(400, "invalid input")
    ensures r.Ok? ==> RowsQueryFor(r.value.rows, SortByArg(sortBy), ToUpperCase(OrderArg(order)),
                                   LimitArg(limit), Offset(LimitArg(limit), PageArg(p)), TopicParams(topic))
    ensures r.Ok? ==> CountQueryFor(r.value.count, TopicParams(topic))
  {
    if !ListingArgsAllowed(sortBy, order) {
      return Err(Rejection(400, "invalid input"));
    }
    var q := AssembleArticlesQueries(SortByArg(sortBy), ToUpperCase(OrderArg(order)), LimitArg(limit),
                                     Offset(LimitArg(limit), PageArg(p)), topic);
    return Ok(q);
  }

  /** The assembly of the two queries once the sort column and the direction have passed the guard. */
  method AssembleArticlesQueries(sortColumn: string, direction: string, lim: IntText, offset: IntText,
                                 topic: Option<string>)
    returns (q: ArticlesQueries)
    requires sortColumn in SortColumns && direction in OrderKeywords
    ensures RowsQueryFor(q.rows, sortColumn, direction, lim, offset, TopicParams(topic))
    ensures CountQueryFor(q.count, TopicParams(topic))
  {
    var queryValues := [IntParam(lim), IntParam(offset)];
    var queryStr := [Lit(ListingSelect)];
    var totalCountQuery := [Lit(TotalCountSelect)];
    var countValues := [];
    if Filtered(topic) {
      queryStr := queryStr + TopicCondition;
      queryValues := queryValues + [TextParam(topic.value)];
      totalCountQuery := totalCountQuery + CountTopicCondition;
      countValues := [TextParam(topic.value)];
    }
    var head := queryStr;
    var tail := ListingTail(sortColumn, direction);
    queryStr := queryStr + tail;
    assert queryValues == [IntParam(lim), IntParam(offset)] + TopicParams(topic);
    var rows, count := SqlQuery(queryStr, queryValues), SqlQuery(totalCountQuery, countValues);
    RowsQueryShape(rows, head, sortColumn, direction, lim, offset, TopicParams(topic));
    CountQueryShape(count, totalCountQuery, TopicParams(topic));
    q := ArticlesQueries(rows, count);
  }

  /** `{ articles: rows, total_count }`. */
  datatype Listing = Listing(articles: seq<ArticleSummary>, total_count: int)

  /** The value a listing row is ordered by under each allow-listed column. */
  function SortKeyOf(column: string, s: ArticleSummary): SortKey
  {
    if column == "author" then TextKey(s.author)
    else if column == "title" then TextKey(s.title)
    else if column == "article_id" then IntKey(s.article_id)
    else if column == "topic" then TextKey(s.topic)
    else if column == "votes" then IntKey(s.votes)
    else if column == "article_img_url" then TextKey(s.article_img_url)
    else if column == "comment_count" then IntKey(s.comment_count)
    else IntKey(s.created_at)
  }

  function ColumnKey(column: string): ArticleSummary -> SortKey
  {
    (s: ArticleSummary) => SortKeyOf(column, s)
  }

  /** The articles the optional topic filter keeps. */
  function Matching(articles: seq<Article>, topic: Option<string>): seq<Article>
  {
    if Filtered(topic) then Where(articles, (a: Article) => a.topic == topic.value) else articles
  }

  /**
   * What the listing returns, read declaratively: the topic-matching articles as
   * summaries, ordered by the column in the direction, cut to the page; the total
   * is the number of matching articles.
   */
  function ListArticles(articles: seq<Article>, comments: seq<Comment>, sortBy: Option<string>,
                        order: Option<string>, topic: Option<string>, limit: Option<IntText>,
                        p: Option<IntText>): Result<Listing, ErrorValue>
  {
    if !ListingArgsAllowed(sortBy, order) then Err(Rejection(400, "invalid input"))
    else
      var ordered := ListingRows(articles, comments, topic, SortByArg(sortBy), ToUpperCase(OrderArg(order)) == "DESC");
      match LimitOffset(ordered, LimitArg(limit), Offset(LimitArg(limit), PageArg(p)))
      case Err(e) => Err(e)
      case Ok(page) => Ok(Listing(page, |Matching(articles, topic)|))
  }

  /** Every matching article as a summary, in the requested order (before LIMIT and OFFSET). */
  function ListingRows(articles: seq<Article>, comments: seq<Comment>, topic: Option<string>,
                       column: string, desc: bool): seq<ArticleSummary>
  {
    OrderBy(Summaries(comments, Matching(articles, topic)), ColumnKey(column), desc)
  }

  /** The topic a query binds after its fixed parameters, read back from the parameter list. */
  function BoundTopic(params: seq<SqlValue>): Option<string>
  {
    if |params| == 1 && params[0].TextParam? then Some(params[0].text) else None
  }

  lemma BoundTopicMatches(articles: seq<Article>, topic: Option<string>)
    ensures Matching(articles, BoundTopic(TopicParams(topic))) == Matching(articles, topic)
  {
  }

  /**
   * `fetchArticles`: the checks, then the count query, then the row query, each
   * evaluated on the tables from the tokens and parameters the query carries.
   */
  method FetchArticles(db: Store, sortBy: Option<string>, order: Option<string>, topic: Option<string>,
                       limit: Option<IntText>, p: Option<IntText>)
    returns (r: Result<Listing, ErrorValue>)
    ensures r == ListArticles(db.articles, db.comments, sortBy, order, topic, limit, p)
  {
    var built := BuildArticlesQueries(sortBy, order, topic, limit, p);
    if built.Err? {
      return Err(built.error);
    }
    var q := built.value;
    var articles, comments := db.articles, db.comments;
    // SELECT COUNT(*) FROM articles [WHERE topic = $1]
    var total := |Matching(articles, BoundTopic(q.count.params))|;
    // The row query: the ORDER BY tokens, then LIMIT $1 OFFSET $2 and WHERE ... = $3.
    var column, direction := Idents(q.rows.text)[0], Idents(q.rows.text)[1];
    var ordered := ListingRows(articles, comments, BoundTopic(q.rows.params[2..]), column, direction == "DESC");
    var page := LimitOffset(ordered, q.rows.params[0].value, q.rows.params[1].value);
    BoundTopicMatches(articles, topic);
    assert q.rows.params[2..] == TopicParams(topic);
    if page.Err? {
      return Err(page.error);
    }
    return Ok(Listing(page.value, total));
  }

  // ---------------------------------------------------------- listing lemmas

  /** Invalid sort or order: rejected with 400 "invalid input", whatever the other arguments. */
  lemma ListArticlesRejects(articles: seq<Article>, comments: seq<Comment>, sortBy: Option<string>,
                            order: Option<string>, topic: Option<string>, limit: Option<IntText>, p: Option<IntText>)
    ensures ListArticles(articles, comments, sortBy, order, topic, limit, p).Err? &&
            ListArticles(articles, comments, sortBy, order, topic, limit, p).error == Rejection(400, "invalid input")
        <==> !ListingArgsAllowed(sortBy, order)
  {
    if ListingArgsAllowed(sortBy, order) {
      var r := ListArticles(articles, comments, sortBy, order, topic, limit, p);
      if r.Err? {
        assert r.error.code != "";
      }
    }
  }

  /** `order` is accepted in any letter case; an absent `sort_by`/`order` is `created_at` and `DESC`. */
  lemma ListingDefaults()
    ensures ListingArgsAllowed(None, None)
    ensures SortByArg(None) == "created_at" && ToUpperCase(OrderArg(None)) == "DESC"
    ensures ListingArgsAllowed(Some("votes"), Some("asc")) && ListingArgsAllowed(Some("votes"), Some("AsC"))
    ensures !ListingArgsAllowed(Some("body"), None) && !ListingArgsAllowed(None, Some("down"))
    ensures LimitArg(None) == Integer(10) && Offset(LimitArg(None), PageArg(None)) == Integer(0)
  {
    UpperCaseKeywords();
    assert "body" !in SortColumns;
    assert ToUpperCase("down")[0] == 'D' && ToUpperCase("down")[1] == 'O';
    assert ToUpperCase("AsC")[0] == 'A' && ToUpperCase("AsC")[1] == 'S' && ToUpperCase("AsC")[2] == 'C';
    assert ToUpperCase("AsC") == "ASC";
  }

  /** The total counts the matching articles; the page size and the page number do not affect it. */
  lemma ListingTotalIgnoresPaging(articles: seq<Article>, comments: seq<Comment>, sortBy: Option<string>,
                                  order: Option<string>, topic: Option<string>,
                                  limit: Option<IntText>, p: Option<IntText>,
                                  limit': Option<IntText>, p': Option<IntText>)
    requires ListArticles(articles, comments, sortBy, order, topic, limit, p).Ok?
    requires ListArticles(articles, comments, sortBy, order, topic, limit', p').Ok?
    ensures ListArticles(articles, comments, sortBy, order, topic, limit, p).value.total_count
         == ListArticles(articles, comments, sortBy, order, topic, limit', p').value.total_count
         == |Matching(articles, topic)|
  {
  }

  /** Before the page is cut: the summaries of exactly the matching articles, in order. */
  lemma ListingRowsOrdered(articles: seq<Article>, comments: seq<Comment>, topic: Option<string>,
                           column: string, desc: bool)
    ensures multiset(ListingRows(articles, comments, topic, column, desc))
         == multiset(Summaries(comments, Matching(articles, topic)))
    ensures SortedBy(ListingRows(articles, comments, topic, column, desc), ColumnKey(column), desc)
  {
    OrderByPermutes(Summaries(comments, Matching(articles, topic)), ColumnKey(column), desc);
    OrderBySorted(Summaries(comments, Matching(articles, topic)), ColumnKey(column), desc);
  }

  /** Each row before paging summarises a matching article, with its comment count. */
  lemma ListingRowsAreSummaries(articles: seq<Article>, comments: seq<Comment>, topic: Option<string>,
                                column: string, desc: bool, x: ArticleSummary)
    requires x in ListingRows(articles, comments, topic, column, desc)
    ensures exists a :: a in articles && x == Summary(comments, a)
    ensures x.comment_count == CommentCount(comments, x.article_id)
    ensures Filtered(topic) ==> x.topic == topic.value
  {
    ListingRowsOrdered(articles, comments, topic, column, desc);
    var matching := Matching(articles, topic);
    var summaries := Summaries(comments, matching);
    assert x in multiset(ListingRows(articles, comments, topic, column, desc));
    assert x in multiset(summaries);
    var k :| 0 <= k < |summaries| && summaries[k] == x;
    assert matching[k] in matching;
    if Filtered(topic) {
      assert matching[k] in articles && matching[k].topic == topic.value;
    }
  }

  /**
   * A page holds at most `limit` rows; each is the summary of a matching article,
   * with its comment count; the page is ordered by the requested column in the
   * requested direction; and the total is the number of matching articles.
   */
  lemma ListingPage(articles: seq<Article>, comments: seq<Comment>, sortBy: Option<string>,
                    order: Option<string>, topic: Option<string>, limit: Option<IntText>, p: Option<IntText>)
    requires ListArticles(articles, comments, sortBy, order, topic, limit, p).Ok?
    ensures var page := ListArticles(articles, comments, sortBy, order, topic, limit, p).value.articles;
      && LimitArg(limit).Integer? && |page| <= LimitArg(limit).n
      && (forall i :: 0 <= i < |page| ==> exists a :: a in articles && page[i] == Summary(comments, a))
      && (forall i :: 0 <= i < |page| ==> page[i].comment_count == CommentCount(comments, page[i].article_id))
      && (Filtered(topic) ==> forall i :: 0 <= i < |page| ==> page[i].topic == topic.value)
      && SortedBy(page, ColumnKey(SortByArg(sortBy)), ToUpperCase(OrderArg(order)) == "DESC")
    ensures ListArticles(articles, comments, sortBy, order, topic, limit, p).value.total_count
         == |Matching(articles, topic)|
  {
    var column := SortByArg(sortBy);
    var desc := ToUpperCase(OrderArg(order)) == "DESC";
    var ordered := ListingRows(articles, comments, topic, column, desc);
    var lim, off := LimitArg(limit), Offset(LimitArg(limit), PageArg(p));
    var page := LimitOffset(ordered, lim, off).value;
    assert page == ListArticles(articles, comments, sortBy, order, topic, limit, p).value.articles;
    ListingRowsOrdered(articles, comments, topic, column, desc);
    LimitOffsetWithin(ordered, lim, off);
    LimitOffsetKeepsOrder(ordered, ColumnKey(column), desc, lim, off);
    forall i | 0 <= i < |page|
      ensures exists a :: a in articles && page[i] == Summary(comments, a)
      ensures page[i].comment_count == CommentCount(comments, page[i].article_id)
      ensures Filtered(topic) ==> page[i].topic == topic.value
    {
      ListingRowsAreSummaries(articles, comments, topic, column, desc, page[i]);
    }
  }

  /** From page 1 on, the offset is a non-negative integer. */
  lemma OffsetFromPageOne(limit: int, p: int)
    requires 0 <= limit && 1 <= p
    ensures Offset(Integer(limit), Integer(p)) == Integer((p - 1) * limit)
    ensures 0 <= (p - 1) * limit
  {
    assert 0 <= (p - 1) * limit by {
      if limit > 0 {
        assert (p - 1) * limit >= 0 * limit;
      }
    }
  }

  /** `limit=0`, or a page that starts at or past the last matching article, is an empty page. */
  lemma ListingPastTheEnd(articles: seq<Article>, comments: seq<Comment>, sortBy: Option<string>,
                          order: Option<string>, topic: Option<string>, limit: int, p: int)
    requires ListingArgsAllowed(sortBy, order) && 0 <= limit && 1 <= p
    requires limit == 0 || |Matching(articles, topic)| <= (p - 1) * limit
    ensures ListArticles(articles, comments, sortBy, order, topic, Some(Integer(limit)), Some(Integer(p)))
         == Ok(Listing([], |Matching(articles, topic)|))
  {
    var ordered := ListingRows(articles, comments, topic, SortByArg(sortBy), ToUpperCase(OrderArg(order)) == "DESC");
    ListingRowsOrdered(articles, comments, topic, SortByArg(sortBy), ToUpperCase(OrderArg(order)) == "DESC");
    assert |ordered| == |multiset(ordered)| == |Summaries(comments, Matching(articles, topic))|;
    OffsetFromPageOne(limit, p);
    LimitOffsetPastTheEnd(ordered, limit, (p - 1) * limit);
  }

  /** A page number below 1 with a positive limit makes OFFSET negative: PostgreSQL refuses it. */
  lemma ListingNegativeOffset(articles: seq<Article>, comments: seq<Comment>, sortBy: Option<string>,
                              order: Option<string>, topic: Option<string>, limit: int, p: int)
    requires ListingArgsAllowed(sortBy, order) && 0 < limit && p < 1
    ensures ListArticles(articles, comments, sortBy, order, topic, Some(Integer(limit)), Some(Integer(p)))
         == Err(DbError(InvalidRowCountInOffset))
  {
    var off := Offset(Integer(limit), Integer(p));
    assert off.n < 0 by {
      assert off.n == (p - 1) * limit;
      assert (p - 1) * limit <= -1 * limit;
    }
    var ordered := ListingRows(articles, comments, topic, SortByArg(sortBy), ToUpperCase(OrderArg(order)) == "DESC");
    assert LimitOffset(ordered, Integer(limit), off) == Err(DbError(InvalidRowCountInOffset));
  }

  /**
   * A `limit` or `p` that is not integer text makes the bound LIMIT or OFFSET value
   * (`(p - 1) * limit` is NaN then) text PostgreSQL refuses with 22P02.
   */
  lemma ListingNonNumericPaging(articles: seq<Article>, comments: seq<Comment>, sortBy: Option<string>,
                                order: Option<string>, topic: Option<string>, limit: Option<IntText>, p: Option<IntText>)
    requires ListingArgsAllowed(sortBy, order)
    requires limit == Some(NotInteger) || p == Some(NotInteger)
    ensures ListArticles(articles, comments, sortBy, order, topic, limit, p) == Err(DbError(InvalidTextRepresentation))
  {
  }

  // ======================================================= one article by id

  /**
   * `fetchArticleById`: `articles.*` with the comment count, for the rows whose id
   * is the bound parameter.
   */
  function FetchArticleById(db: Store, id: IntText): (r: Result<seq<ArticleDetail>, ErrorValue>)
    reads db
    ensures id.NotInteger? ==> r == Err(DbError(InvalidTextRepresentation))
    ensures id.Integer? ==> r.Ok?
    ensures r.Ok? ==> forall i :: 0 <= i < |r.value| ==>
      r.value[i].article in db.articles && r.value[i].article.article_id == id.n &&
      r.value[i].comment_count == CommentCount(db.comments, id.n)
    ensures r.Ok? ==> (r.value == [] <==> !HasArticle(db.articles, id.n))
  {
    match id
    case NotInteger => Err(DbError(InvalidTextRepresentation))
    case Integer(n) =>
      var rows := ArticlesWithId(db.articles, n);
      assert forall i :: 0 <= i < |rows| ==> rows[i] in rows;
      assert rows != [] ==> rows[0] in db.articles;
      assert forall i :: 0 <= i < |db.articles| && db.articles[i].article_id == n ==> db.articles[i] in rows;
      Ok(Details(db.comments, rows))
  }

  /** Under the primary key every row that comes back is the article with that id, with its count. */
  lemma FetchArticleByIdUnique(db: Store, n: int, a: Article)
    requires db.Valid() && a in db.articles && a.article_id == n
    ensures FetchArticleById(db, Integer(n)).Ok?
    ensures FetchArticleById(db, Integer(n)).value != []
    ensures forall d :: d in FetchArticleById(db, Integer(n)).value ==> d == Detail(db.comments, a)
  {
    var rows := ArticlesWithId(db.articles, n);
    var k :| 0 <= k < |db.articles| && db.articles[k] == a;
    forall x | x in rows ensures x == a {
      var j :| 0 <= j < |db.articles| && db.articles[j] == x;
    }
  }

  // ================================================= an article's comments

  /** `comments.created_at`, the key of the comment listing. */
  function CreatedAt(c: Comment): SortKey
  {
    IntKey(c.created_at)
  }

  /** `if (limit && p)`: both are present. A given query-string value is a non-empty string, so truthy. */
  predicate Paginated(limit: Option<IntText>, p: Option<IntText>)
  {
    limit.Some? && p.Some?
  }

  const CommentsSelect: string :=
    "SELECT comments.comment_id, comments.votes, comments.created_at, comments.author, comments.body, "
    + "comments.article_id FROM comments "

  const CommentsOrder: string := " ORDER BY comments.created_at DESC "

  /** The comment query's fixed part: `WHERE comments.article_id = $1 ORDER BY comments.created_at DESC`. */
  const CommentsHead: seq<Frag> :=
    [Lit(CommentsSelect), Lit("WHERE comments.article_id = "), Placeholder(1), Lit(CommentsOrder)]

  const CommentsPaging: seq<Frag> := [Lit(" LIMIT "), Placeholder(2), Lit(" OFFSET "), Placeholder(3)]

  /** The head followed by the pagination, written out. */
  const CommentsPagedText: seq<Frag> :=
    [Lit(CommentsSelect), Lit("WHERE comments.article_id = "), Placeholder(1), Lit(CommentsOrder),
     Lit(" LIMIT "), Placeholder(2), Lit(" OFFSET "), Placeholder(3)]

  /** The parameters of the comment query: the id, then the limit and the offset when paginated. */
  function CommentsParams(id: IntText, limit: Option<IntText>, p: Option<IntText>): seq<SqlValue>
  {
    [IntParam(id)] +
    (if Paginated(limit, p) then [IntParam(limit.value), IntParam(Offset(limit.value, p.value))] else [])
  }

  /**
   * What the comment query is: numbered `$1`..`$n`, no interpolated token, always
   * ordered by `created_at DESC`, the id bound as `$1`, and limit and offset bound
   * after their keywords exactly when the listing is paginated.
   */
  predicate CommentsQueryFor(q: SqlQuery, id: IntText, limit: Option<IntText>, p: Option<IntText>)
  {
    && q.params == CommentsParams(id, limit, p)
    && WellNumbered(q) && Idents(q.text) == [] && Lit(CommentsOrder) in q.text
    && Binds(q, "WHERE comments.article_id = ", IntParam(id))
    && (Paginated(limit, p) ==> Binds(q, " LIMIT ", IntParam(limit.value)))
    && (Paginated(limit, p) ==> Binds(q, " OFFSET ", IntParam(Offset(limit.value, p.value))))
    && (!Paginated(limit, p) ==> Lit(" LIMIT ") !in q.text)
  }

  lemma CommentsQueryUnpaged(q: SqlQuery, id: IntText)
    requires q.text == CommentsHead && q.params == [IntParam(id)]
    ensures WellNumbered(q) && Idents(q.text) == [] && Lit(CommentsOrder) in q.text && Lit(" LIMIT ") !in q.text
    ensures Binds(q, "WHERE comments.article_id = ", IntParam(id))
  {
    assert q.text[1] == Lit("WHERE comments.article_id = ") && q.text[2] == Placeholder(1);
    assert q.text[3] == Lit(CommentsOrder);
    IdentsNone(q.text);
  }

  lemma CommentsQueryPaged(q: SqlQuery, id: IntText, lim: IntText, offset: IntText)
    requires q.text == CommentsPagedText && q.params == [IntParam(id), IntParam(lim), IntParam(offset)]
    ensures WellNumbered(q) && Idents(q.text) == [] && Lit(CommentsOrder) in q.text
    ensures Binds(q, "WHERE comments.article_id = ", IntParam(id))
    ensures Binds(q, " LIMIT ", IntParam(lim)) && Binds(q, " OFFSET ", IntParam(offset))
  {
    CommentsPagedNumbered(q);
    CommentsPagedBinds(q, id, lim, offset);
  }

  lemma CommentsPagedNumbered(q: SqlQuery)
    requires q.text == CommentsPagedText && |q.params| == 3
    ensures WellNumbered(q) && Idents(q.text) == [] && Lit(CommentsOrder) in q.text
  {
    assert q.text[2] == Placeholder(1) && q.text[3] == Lit(CommentsOrder);
    assert q.text[5] == Placeholder(2) && q.text[7] == Placeholder(3);
    IdentsNone(q.text);
  }

  lemma CommentsPagedBinds(q: SqlQuery, id: IntText, lim: IntText, offset: IntText)
    requires q.text == CommentsPagedText && q.params == [IntParam(id), IntParam(lim), IntParam(offset)]
    ensures Binds(q, "WHERE comments.article_id = ", IntParam(id))
    ensures Binds(q, " LIMIT ", IntParam(lim)) && Binds(q, " OFFSET ", IntParam(offset))
  {
    assert q.text[1] == Lit("WHERE comments.article_id = ") && q.text[2] == Placeholder(1);
    assert q.text[4] == Lit(" LIMIT ") && q.text[5] == Placeholder(2);
    assert q.text[6] == Lit(" OFFSET ") && q.text[7] == Placeholder(3);
  }

  lemma CommentsQueryShape(q: SqlQuery, id: IntText, limit: Option<IntText>, p: Option<IntText>)
    requires q.text == CommentsHead + (if Paginated(limit, p) then CommentsPaging else [])
    requires q.params == CommentsParams(id, limit, p)
    ensures CommentsQueryFor(q, id, limit, p)
  {
    if Paginated(limit, p) {
      assert CommentsHead + CommentsPaging == CommentsPagedText;
      CommentsQueryPaged(q, id, limit.value, Offset(limit.value, p.value));
    } else {
      assert q.text == CommentsHead;
      CommentsQueryUnpaged(q, id);
    }
  }

  /** The query assembly of `fetchArticleCommentsById`. */
  method BuildArticleCommentsQuery(id: IntText, limit: Option<IntText>, p: Option<IntText>) returns (q: SqlQuery)
    ensures CommentsQueryFor(q, id, limit, p)
  {
    var queryStr := CommentsHead;
    var queryValues := [IntParam(id)];
    if limit.Some? && p.Some? {
      queryStr := queryStr + CommentsPaging;
      var offset := Offset(limit.value, p.value);
      queryValues := queryValues + [IntParam(limit.value), IntParam(offset)];
    } else {
      assert queryStr == CommentsHead + [];
    }
    q := SqlQuery(queryStr, queryValues);
    CommentsQueryShape(q, id, limit, p);
  }

  /**
   * What the comment listing returns: the article's comments, newest first, cut
   * to the page when paginated.
   */
  function ListComments(comments: seq<Comment>, id: IntText, limit: Option<IntText>, p: Option<IntText>)
    : Result<seq<Comment>, ErrorValue>
  {
    match id
    case NotInteger => Err(DbError(InvalidTextRepresentation))
    case Integer(n) =>
      var ordered := OrderBy(CommentsOf(comments, n), CreatedAt, true);
      if Paginated(limit, p) then LimitOffset(ordered, limit.value, Offset(limit.value, p.value)) else Ok(ordered)
  }

  /** `fetchArticleCommentsById`: the query, evaluated from the parameters it binds. */
  method FetchArticleCommentsById(db: Store, id: IntText, limit: Option<IntText>, p: Option<IntText>)
    returns (r: Result<seq<Comment>, ErrorValue>)
    ensures r == ListComments(db.comments, id, limit, p)
  {
    var q := BuildArticleCommentsQuery(id, limit, p);
    var bound := q.params[0].value;
    if bound.NotInteger? {
      return Err(DbError(InvalidTextRepresentation));
    }
    var ordered := OrderBy(CommentsOf(db.comments, bound.n), CreatedAt, true);
    if |q.params| == 3 {
      r := LimitOffset(ordered, q.params[1].value, q.params[2].value);
    } else {
      r := Ok(ordered);
    }
  }

  /** Without both `limit` and `p`: every comment of the article, newest first. */
  lemma ListCommentsUnpaginated(comments: seq<Comment>, n: int, limit: Option<IntText>, p: Option<IntText>)
    requires !Paginated(limit, p)
    ensures ListComments(comments, Integer(n), limit, p).Ok?
    ensures multiset(ListComments(comments, Integer(n), limit, p).value) == multiset(CommentsOf(comments, n))
    ensures SortedBy(ListComments(comments, Integer(n), limit, p).value, CreatedAt, true)
  {
    OrderByPermutes(CommentsOf(comments, n), CreatedAt, true);
    OrderBySorted(CommentsOf(comments, n), CreatedAt, true);
  }

  /** Every listed comment belongs to the article; the list is newest first; a page holds at most `limit`. */
  lemma ListCommentsPage(comments: seq<Comment>, n: int, limit: Option<IntText>, p: Option<IntText>)
    requires ListComments(comments, Integer(n), limit, p).Ok?
    ensures var page := ListComments(comments, Integer(n), limit, p).value;
      && (forall c :: c in page ==> c in comments && c.article_id == n)
      && SortedBy(page, CreatedAt, true)
      && (Paginated(limit, p) ==> |page| <= limit.value.n)
  {
    var ordered := OrderBy(CommentsOf(comments, n), CreatedAt, true);
    OrderByPermutes(CommentsOf(comments, n), CreatedAt, true);
    OrderBySorted(CommentsOf(comments, n), CreatedAt, true);
    var page := ListComments(comments, Integer(n), limit, p).value;
    if Paginated(limit, p) {
      LimitOffsetWithin(ordered, limit.value, Offset(limit.value, p.value));
      LimitOffsetKeepsOrder(ordered, CreatedAt, true, limit.value, Offset(limit.value, p.value));
    }
    forall c | c in page ensures c in comments && c.article_id == n {
      assert c in ordered;
      assert c in multiset(ordered);
      assert c in CommentsOf(comments, n);
    }
  }

  /** `p` without `limit`, or `limit` without `p`, is ignored: the whole list comes back. */
  lemma ListCommentsNeedsBoth(comments: seq<Comment>, id: IntText, lp: IntText)
    ensures ListComments(comments, id, Some(lp), None) == ListComments(comments, id, None, None)
    ensures ListComments(comments, id, None, Some(lp)) == ListComments(comments, id, None, None)
  {
  }

  // ============================================================ mutations

  /** `if (!username || !body)`: both fields are present and truthy; other keys are ignored. */
  predicate ValidComment(comment: Body)
  {
    Truthy(Field(comment, "username")) && Truthy(Field(comment, "body"))
  }

  /**
   * `addCommentToArticleId`: the guard, then `INSERT INTO comments (author, body,
   * article_id) VALUES ($1, $2, $3) RETURNING *` with `[username, body, article_id]`.
   */
  method AddCommentToArticleId(db: Store, comment: Body, id: IntText, now: int) returns (r: Result<Comment, ErrorValue>)
    requires db.Valid()
    modifies db
    ensures db.Valid()
    ensures r.Err? ==> db.Snapshot() == old(db.Snapshot())
    ensures !ValidComment(comment) ==> r == Err(Rejection(400, "invalid comment input"))
    ensures ValidComment(comment) && id.NotInteger? ==> r == Err(DbError(InvalidTextRepresentation))
    ensures ValidComment(comment) && id.Integer? ==>
      (r.Ok? <==> HasUser(old(db.users), Text(Field(comment, "username"))) && HasArticle(old(db.articles), id.n))
    ensures ValidComment(comment) && id.Integer? && r.Err? ==> r.error == DbError(ForeignKeyViolation)
    ensures r.Ok? ==> r.value == Comment(old(db.nextCommentId), Text(Field(comment, "body")), id.n,
                                         Text(Field(comment, "username")), 0, now)
    ensures r.Ok? ==> db.Snapshot() == old(db.Snapshot()).(comments := old(db.comments) + [r.value],
                                                           nextCommentId := old(db.nextCommentId) + 1)
  {
    var username, body := Field(comment, "username"), Field(comment, "body");
    if !Truthy(username) || !Truthy(body) {
      return Err(Rejection(400, "invalid comment input"));
    }
    r := db.InsertComment(Text(username), Text(body), id, now);
  }

  /** `if (!inc_votes || typeof inc_votes != "number")`: the increment, if it is a non-zero number. */
  function VoteIncrement(voteObj: Body): (r: Option<int>)
    ensures r.Some? <==> Field(voteObj, "inc_votes").Num? && Field(voteObj, "inc_votes").n != 0
    ensures r.Some? ==> r.value == Field(voteObj, "inc_votes").n && r.value != 0
  {
    var incVotes := Field(voteObj, "inc_votes");
    if !Truthy(incVotes) || !incVotes.Num? then None else Some(incVotes.n)
  }

  /**
   * `updateArticleById`: the guard, then `UPDATE articles SET votes = votes + $1
   * WHERE article_id = $2 RETURNING *`.
   */
  method UpdateArticleById(db: Store, id: IntText, voteObj: Body) returns (r: Result<seq<Article>, ErrorValue>)
    requires db.Valid()
    modifies db
    ensures db.Valid()
    ensures VoteIncrement(voteObj).None? ==> r == Err(Rejection(400, "invalid input")) && db.Snapshot() == old(db.Snapshot())
    ensures VoteIncrement(voteObj).Some? && id.NotInteger? ==>
      r == Err(DbError(InvalidTextRepresentation)) && db.Snapshot() == old(db.Snapshot())
    ensures VoteIncrement(voteObj).Some? && id.Integer? ==>
      db.Snapshot() == old(db.Snapshot()).(articles := WithVotes(old(db.articles), id.n, VoteIncrement(voteObj).value))
    ensures VoteIncrement(voteObj).Some? && id.Integer? ==>
      r == Ok(ArticlesWithId(db.articles, id.n))
  {
    var delta := VoteIncrement(voteObj);
    if delta.None? {
      return Err(Rejection(400, "invalid input"));
    }
    r := db.UpdateArticleVotes(delta.value, id);
  }

  /** `if (!author || !title || !body || !topic)`. */
  predicate ValidArticle(article: Body)
  {
    Truthy(Field(article, "author")) && Truthy(Field(article, "title"))
    && Truthy(Field(article, "body")) && Truthy(Field(article, "topic"))
  }

  const InsertArticleHead: string := "WITH inserted_article AS (INSERT INTO articles (author, title, body, topic"
  const WithImgColumn: string := ", article_img_url) VALUES ("
  const WithoutImgColumn: string := ") VALUES ("
  const InsertArticleTail: string :=
    " RETURNING article_id, author, title, body, topic, article_img_url, votes, created_at) "
    + "SELECT inserted_article.*, COUNT(comments.comment_id) AS comment_count FROM inserted_article "
    + "LEFT JOIN comments ON inserted_article.article_id = comments.article_id GROUP BY "
    + "inserted_article.article_id, inserted_article.author, inserted_article.title, inserted_article.body, "
    + "inserted_article.topic, inserted_article.article_img_url, inserted_article.votes, inserted_article.created_at"

  /** `, article_img_url) VALUES ($1, $2, $3, $4, $5)` */
  const ImgValues: seq<Frag> :=
    [Lit(WithImgColumn), Placeholder(1), Lit(", "), Placeholder(2), Lit(", "), Placeholder(3), Lit(", "),
     Placeholder(4), Lit(", "), Placeholder(5), Lit(")")]

  /** `) VALUES ($1, $2, $3, $4)` */
  const PlainValues: seq<Frag> :=
    [Lit(WithoutImgColumn), Placeholder(1), Lit(", "), Placeholder(2), Lit(", "), Placeholder(3), Lit(", "),
     Placeholder(4), Lit(")")]

  /** The parameters: `[author, title, body, topic]`, then `article_img_url` when it is truthy. */
  function ArticleParams(article: Body): seq<SqlValue>
  {
    [TextParam(Text(Field(article, "author"))), TextParam(Text(Field(article, "title"))),
     TextParam(Text(Field(article, "body"))), TextParam(Text(Field(article, "topic")))]
    + (if Truthy(Field(article, "article_img_url")) then [TextParam(Text(Field(article, "article_img_url")))] else [])
  }

  /**
   * What the insert is: numbered `$1`..`$n`, no interpolated token, and the
   * `article_img_url` column is named exactly when its value is bound as `$5`.
   */
  predicate AddArticleQueryFor(q: SqlQuery, article: Body)
  {
    && q.params == ArticleParams(article)
    && WellNumbered(q) && Idents(q.text) == []
    && (Lit(WithImgColumn) in q.text <==> |q.params| == 5)
    && (|q.params| == 5 <==> Truthy(Field(article, "article_img_url")))
  }

  /** The numbering of the two `VALUES` lists. */
  lemma ImgValuesNumbered()
    ensures forall i :: 0 <= i < |ImgValues| && ImgValues[i].Placeholder? ==> 1 <= ImgValues[i].index <= 5
    ensures forall k :: 1 <= k <= 5 ==> Placeholder(k) in ImgValues
    ensures forall i :: 0 <= i < |ImgValues| ==> !ImgValues[i].Ident?
    ensures ImgValues[0] == Lit(WithImgColumn)
  {
    assert ImgValues[1] == Placeholder(1) && ImgValues[3] == Placeholder(2) && ImgValues[5] == Placeholder(3);
    assert ImgValues[7] == Placeholder(4) && ImgValues[9] == Placeholder(5);
  }

  lemma PlainValuesNumbered()
    ensures forall i :: 0 <= i < |PlainValues| && PlainValues[i].Placeholder? ==> 1 <= PlainValues[i].index <= 4
    ensures forall k :: 1 <= k <= 4 ==> Placeholder(k) in PlainValues
    ensures forall i :: 0 <= i < |PlainValues| ==> !PlainValues[i].Ident?
    ensures Lit(WithImgColumn) !in PlainValues
  {
    assert PlainValues[1] == Placeholder(1) && PlainValues[3] == Placeholder(2) && PlainValues[5] == Placeholder(3);
    assert PlainValues[7] == Placeholder(4);
  }

  /** Wrapping a `VALUES` list numbered `$1`..`$n` in the fixed literals keeps it numbered. */
  lemma InsertTextNumbered(q: SqlQuery, values: seq<Frag>)
    requires q.text == [Lit(InsertArticleHead)] + values + [Lit(InsertArticleTail)]
    requires forall i :: 0 <= i < |values| && values[i].Placeholder? ==> 1 <= values[i].index <= |q.params|
    requires forall k :: 1 <= k <= |q.params| ==> Placeholder(k) in values
    requires forall i :: 0 <= i < |values| ==> !values[i].Ident?
    ensures WellNumbered(q)
    ensures Idents(q.text) == []
    ensures Lit(WithImgColumn) in q.text <==> Lit(WithImgColumn) in values
  {
    forall i | 0 <= i < |q.text| && q.text[i].Placeholder? ensures 1 <= q.text[i].index <= |q.params| {
      assert q.text[i] == values[i - 1];
    }
    forall k | 1 <= k <= |q.params| ensures Placeholder(k) in q.text {
      var j :| 0 <= j < |values| && values[j] == Placeholder(k);
      assert q.text[j + 1] == values[j];
    }
    if Lit(WithImgColumn) in q.text {
      var i :| 0 <= i < |q.text| && q.text[i] == Lit(WithImgColumn);
      assert q.text[i] == values[i - 1];
    }
    if Lit(WithImgColumn) in values {
      var i :| 0 <= i < |values| && values[i] == Lit(WithImgColumn);
      assert q.text[i + 1] == values[i];
    }
    forall i | 0 <= i < |q.text| ensures !q.text[i].Ident? {
      if 0 < i < |q.text| - 1 {
        assert q.text[i] == values[i - 1];
      }
    }
    IdentsNone(q.text);
  }

  lemma AddArticleQueryShape(q: SqlQuery, article: Body, values: seq<Frag>)
    requires q.params == ArticleParams(article)
    requires values == if Truthy(Field(article, "article_img_url")) then ImgValues else PlainValues
    requires q.text == [Lit(InsertArticleHead)] + values + [Lit(InsertArticleTail)]
    ensures AddArticleQueryFor(q, article)
  {
    if Truthy(Field(article, "article_img_url")) {
      ImgValuesNumbered();
    } else {
      PlainValuesNumbered();
    }
    InsertTextNumbered(q, values);
  }

  /** The query assembly of `addArticle`, once the guard has passed. */
  method BuildAddArticleQuery(article: Body) returns (q: SqlQuery)
    ensures AddArticleQueryFor(q, article)
  {
    var queryParams := [TextParam(Text(Field(article, "author"))), TextParam(Text(Field(article, "title"))),
                        TextParam(Text(Field(article, "body"))), TextParam(Text(Field(article, "topic")))];
    var values;
    var imgUrl := Field(article, "article_img_url");
    if Truthy(imgUrl) {
      values := ImgValues;
      queryParams := queryParams + [TextParam(Text(imgUrl))];
    } else {
      values := PlainValues;
      assert queryParams == ArticleParams(article);
    }
    q := SqlQuery([Lit(InsertArticleHead)] + values + [Lit(InsertArticleTail)], queryParams);
    AddArticleQueryShape(q, article, values);
  }

  /** A fresh id: no comment refers to it yet, so the inserted article's count is 0. */
  lemma FreshArticleHasNoComments(t: Tables)
    requires Consistent(t)
    ensures CommentCount(t.comments, t.nextArticleId) == 0
  {
    CommentCountZero(t.comments, t.nextArticleId);
    forall i | 0 <= i < |t.comments| ensures t.comments[i].article_id != t.nextArticleId {
      var j :| 0 <= j < |t.articles| && t.articles[j].article_id == t.comments[i].article_id;
    }
  }

  /**
   * `addArticle`: the guard, then the insert with four or five parameters; the row
   * comes back with its comment count.
   */
  method AddArticle(db: Store, article: Body, now: int) returns (r: Result<ArticleDetail, ErrorValue>)
    requires db.Valid()
    modifies db
    ensures db.Valid()
    ensures r.Err? ==> db.Snapshot() == old(db.Snapshot())
    ensures !ValidArticle(article) ==> r == Err(Rejection(400, "invalid input"))
    ensures ValidArticle(article) ==>
      (r.Ok? <==> HasUser(old(db.users), Text(Field(article, "author"))) && HasTopic(old(db.topics), Text(Field(article, "topic"))))
    ensures ValidArticle(article) && r.Err? ==> r.error == DbError(ForeignKeyViolation)
    ensures r.Ok? ==> r.value.comment_count == 0
    ensures r.Ok? ==> r.value.article == Article(old(db.nextArticleId), Text(Field(article, "title")), Text(Field(article, "topic")),
      Text(Field(article, "author")), Text(Field(article, "body")), now, 0,
      if Truthy(Field(article, "article_img_url")) then Text(Field(article, "article_img_url")) else db.defaultImgUrl)
    ensures r.Ok? ==> db.Snapshot() == old(db.Snapshot()).(articles := old(db.articles) + [r.value.article],
                                                           nextArticleId := old(db.nextArticleId) + 1)
  {
    if !ValidArticle(article) {
      return Err(Rejection(400, "invalid input"));
    }
    var q := BuildAddArticleQuery(article);
    var imgUrl := if |q.params| == 5 then Some(q.params[4].text) else None;
    FreshArticleHasNoComments(db.Snapshot());
    var inserted := db.InsertArticle(q.params[0].text, q.params[1].text, q.params[2].text, q.params[3].text, imgUrl, now);
    if inserted.Err? {
      return Err(inserted.error);
    }
    return Ok(Detail(db.comments, inserted.value));
  }
}
