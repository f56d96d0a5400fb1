/** The rows of the six relations, and the projections the core reads back. */
module Rows {
  import opened Sql

  datatype Topic = Topic(slug: string, description: string)

  datatype User = User(username: string, name: string, avatar_url: string)

  /** `created_at` is a timestamp, as an integer instant. */
  datatype Article = Article(
    article_id: int, title: string, topic: string, author: string, body: string,
    created_at: int, votes: int, article_img_url: string)

  datatype Comment = Comment(
    comment_id: int, body: string, article_id: int, author: string, votes: int, created_at: int)

  /** A row of the article listing: every article column except `body`, and the comment count. */
  datatype ArticleSummary = ArticleSummary(
    author: string, title: string, article_id: int, topic: string, created_at: int,
    votes: int, article_img_url: string, comment_count: nat)

  /** `articles.*` together with the comment count. */
  datatype ArticleDetail = ArticleDetail(article: Article, comment_count: nat)

  /** The comments whose parent is article `id`. */
  function CommentsOf(comments: seq<Comment>, id: int): seq<Comment>
  {
    Where(comments, (c: Comment) => c.article_id == id)
  }

  /** `COUNT(comments.comment_id)` over `LEFT JOIN comments ... GROUP BY articles.article_id`. */
  function CommentCount(comments: seq<Comment>, id: int): nat
  {
    |CommentsOf(comments, id)|
  }

  /** With a LEFT JOIN an article without comments still has a row, with count 0. */
  lemma CommentCountZero(comments: seq<Comment>, id: int)
    ensures CommentCount(comments, id) == 0 <==> forall i :: 0 <= i < |comments| ==> comments[i].article_id != id
  {
    WhereEmpty(comments, (c: Comment) => c.article_id == id);
  }

  /** `SELECT ... FROM articles WHERE article_id = id`, in storage order. */
  function ArticlesWithId(articles: seq<Article>, id: int): (r: seq<Article>)
    ensures forall a :: a in r <==> a in articles && a.article_id == id
  {
    Where(articles, (a: Article) => a.article_id == id)
  }

  /** The first row selected is the first row in storage order with that id. */
  lemma ArticlesWithIdFirst(articles: seq<Article>, id: int)
    requires ArticlesWithId(articles, id) != []
    ensures exists k :: 0 <= k < |articles| && articles[k] == ArticlesWithId(articles, id)[0] &&
                        forall j :: 0 <= j < k ==> articles[j].article_id != id
  {
    WhereFirst(articles, (a: Article) => a.article_id == id);
  }

  /** What `DELETE FROM comments WHERE article_id = id` leaves: every other article's comments, in order. */
  function WithoutCommentsOf(comments: seq<Comment>, id: int): (r: seq<Comment>)
    ensures forall c :: c in r <==> c in comments && c.article_id != id
  {
    Where(comments, (c: Comment) => c.article_id != id)
  }

  /** What `DELETE FROM comments WHERE comment_id = id` leaves. */
  function WithoutComment(comments: seq<Comment>, id: int): (r: seq<Comment>)
    ensures forall c :: c in r <==> c in comments && c.comment_id != id
  {
    Where(comments, (c: Comment) => c.comment_id != id)
  }

  /** What `DELETE FROM articles WHERE article_id = id` leaves. */
  function WithoutArticle(articles: seq<Article>, id: int): (r: seq<Article>)
    ensures forall a :: a in r <==> a in articles && a.article_id != id
  {
    Where(articles, (a: Article) => a.article_id != id)
  }

  function Summary(comments: seq<Comment>, a: Article): ArticleSummary
  {
    ArticleSummary(a.author, a.title, a.article_id, a.topic, a.created_at, a.votes,
                   a.article_img_url, CommentCount(comments, a.article_id))
  }

  function Detail(comments: seq<Comment>, a: Article): ArticleDetail
  {
    ArticleDetail(a, CommentCount(comments, a.article_id))
  }

  function Summaries(comments: seq<Comment>, articles: seq<Article>): (r: seq<ArticleSummary>)
    ensures |r| == |articles|
    ensures forall i :: 0 <= i < |articles| ==> r[i] == Summary(comments, articles[i])
  {
    if articles == [] then [] else [Summary(comments, articles[0])] + Summaries(comments, articles[1..])
  }

  function Details(comments: seq<Comment>, articles: seq<Article>): (r: seq<ArticleDetail>)
    ensures |r| == |articles|
    ensures forall i :: 0 <= i < |articles| ==> r[i] == Detail(comments, articles[i])
  {
    if articles == [] then [] else [Detail(comments, articles[0])] + Details(comments, articles[1..])
  }

  predicate HasUser(users: seq<User>, username: string)
  {
    exists i :: 0 <= i < |users| && users[i].username == username
  }

  predicate HasTopic(topics: seq<Topic>, slug: string)
  {
    exists i :: 0 <= i < |topics| && topics[i].slug == slug
  }

  predicate HasArticle(articles: seq<Article>, id: int)
  {
    exists i :: 0 <= i < |articles| && articles[i].article_id == id
  }

  predicate HasComment(comments: seq<Comment>, id: int)
  {
    exists i :: 0 <= i < |comments| && comments[i].comment_id == id
  }

  // Primary keys: no two different rows share the key.

  predicate UniqueArticleIds(articles: seq<Article>)
  {
    forall i, j :: 0 <= i < |articles| && 0 <= j < |articles| && articles[i].article_id == articles[j].article_id ==>
      articles[i] == articles[j]
  }

  predicate UniqueCommentIds(comments: seq<Comment>)
  {
    forall i, j :: 0 <= i < |comments| && 0 <= j < |comments| && comments[i].comment_id == comments[j].comment_id ==>
      comments[i] == comments[j]
  }

  predicate UniqueSlugs(topics: seq<Topic>)
  {
    forall i, j :: 0 <= i < |topics| && 0 <= j < |topics| && topics[i].slug == topics[j].slug ==> topics[i] == topics[j]
  }

  predicate UniqueUsernames(users: seq<User>)
  {
    forall i, j :: 0 <= i < |users| && 0 <= j < |users| && users[i].username == users[j].username ==> users[i] == users[j]
  }
}
