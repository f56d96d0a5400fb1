/**
 * The database: the six relations as fields of one object, and one method per
 * SQL statement the core issues that changes them. The constraints the schema
 * declares (primary keys, foreign keys without cascading deletes) are assumed;
 * a statement that would break one fails with the SQLSTATE PostgreSQL raises.
 */
module Db {
  import opened Wrappers
  import opened JsValues
  import opened Errors
  import opened Sql
  import opened Rows

  /** The contents of the store at one instant. */
  datatype Tables = Tables(
    topics: seq<Topic>, users: seq<User>, articles: seq<Article>, comments: seq<Comment>,
    followsTopics: set<(string, string)>,   // user_follows_topics (username, topic_slug)
    followsUsers: set<(string, string)>,    // user_follows_users (follower_username, followee_username)
    nextArticleId: int, nextCommentId: int) // the two serial sequences

  /** Primary keys hold, every foreign key refers to an existing row, ids come from the sequences. */
  ghost predicate Consistent(t: Tables)
  {
    && UniqueSlugs(t.topics) && UniqueUsernames(t.users)
    && UniqueArticleIds(t.articles) && UniqueCommentIds(t.comments)
    && (forall i :: 0 <= i < |t.articles| ==>
          t.articles[i].article_id < t.nextArticleId &&
          HasUser(t.users, t.articles[i].author) && HasTopic(t.topics, t.articles[i].topic))
    && (forall i :: 0 <= i < |t.comments| ==>
          t.comments[i].comment_id < t.nextCommentId &&
          HasUser(t.users, t.comments[i].author) && HasArticle(t.articles, t.comments[i].article_id))
    && (forall p :: p in t.followsTopics ==> HasUser(t.users, p.0) && HasTopic(t.topics, p.1))
    && (forall p :: p in t.followsUsers ==> HasUser(t.users, p.0) && HasUser(t.users, p.1))
  }

  /** `SET votes = votes + delta WHERE article_id = id`, over the whole relation. */
  function WithVotes(articles: seq<Article>, id: int, delta: int): (r: seq<Article>)
    ensures |r| == |articles|
    ensures forall i :: 0 <= i < |r| ==>
      r[i] == if articles[i].article_id == id then articles[i].(votes := articles[i].votes + delta) else articles[i]
  {
    if articles == [] then []
    else
      var a := articles[0];
      [if a.article_id == id then a.(votes := a.votes + delta) else a] + WithVotes(articles[1..], id, delta)
  }

  /** Two vote patches add up. */
  lemma WithVotesCompose(articles: seq<Article>, id: int, x: int, y: int)
    ensures WithVotes(WithVotes(articles, id, x), id, y) == WithVotes(articles, id, x + y)
  {
    var lhs := WithVotes(WithVotes(articles, id, x), id, y);
    var rhs := WithVotes(articles, id, x + y);
    forall i | 0 <= i < |articles| ensures lhs[i] == rhs[i] {
      assert lhs[i].(votes := articles[i].votes) == articles[i];
      assert rhs[i].(votes := articles[i].votes) == articles[i];
    }
  }

  /** `+V` then `-V` gives back every row as it was. */
  lemma WithVotesUndo(articles: seq<Article>, id: int, v: int)
    ensures WithVotes(WithVotes(articles, id, v), id, -v) == articles
  {
    WithVotesCompose(articles, id, v, -v);
    var r := WithVotes(articles, id, 0);
    forall i | 0 <= i < |articles| ensures r[i] == articles[i] {
      assert r[i].(votes := articles[i].votes) == articles[i];
    }
  }

  /** One row of the patched relation. */
  lemma WithVotesAt(articles: seq<Article>, id: int, delta: int, j: int)
    requires 0 <= j < |articles|
    ensures WithVotes(articles, id, delta)[j] ==
      if articles[j].article_id == id then articles[j].(votes := articles[j].votes + delta) else articles[j]
    ensures WithVotes(articles, id, delta)[j].article_id == articles[j].article_id
  {
    var r := WithVotes(articles, id, delta);
    assert r[j].(votes := articles[j].votes) == articles[j];
  }

  /**
   * `RETURNING *` of the vote patch, read against the rows the id selected before it:
   * as many rows, and the first is the first selected row with the increment applied.
   */
  lemma {:induction false} WithVotesReturnsThePatchedRows(articles: seq<Article>, id: int, delta: int)
    ensures |ArticlesWithId(WithVotes(articles, id, delta), id)| == |ArticlesWithId(articles, id)|
    ensures var before := ArticlesWithId(articles, id);
      before != [] ==> ArticlesWithId(WithVotes(articles, id, delta), id)[0] == before[0].(votes := before[0].votes + delta)
  {
    if articles != [] {
      var w := WithVotes(articles, id, delta);
      assert w[1..] == WithVotes(articles[1..], id, delta);
      WithVotesAt(articles, id, delta, 0);
      WithVotesReturnsThePatchedRows(articles[1..], id, delta);
    }
  }

  /** A vote patch changes no key and no reference, so the store stays consistent. */
  lemma WithVotesKeepsConsistent(t: Tables, id: int, delta: int)
    requires Consistent(t)
    ensures Consistent(t.(articles := WithVotes(t.articles, id, delta)))
  {
    var updated := WithVotes(t.articles, id, delta);
    forall i | 0 <= i < |updated| ensures updated[i].(votes := t.articles[i].votes) == t.articles[i] {
    }
    forall i | 0 <= i < |t.comments| ensures HasArticle(updated, t.comments[i].article_id) {
      var j :| 0 <= j < |t.articles| && t.articles[j].article_id == t.comments[i].article_id;
      assert updated[j].article_id == t.articles[j].article_id;
    }
  }

  /** A row with the next serial id and existing author and topic breaks no key and no reference. */
  lemma AppendArticleKeepsConsistent(t: Tables, a: Article)
    requires Consistent(t)
    requires a.article_id == t.nextArticleId && HasUser(t.users, a.author) && HasTopic(t.topics, a.topic)
    ensures Consistent(t.(articles := t.articles + [a], nextArticleId := t.nextArticleId + 1))
  {
    var articles := t.articles + [a];
    forall i | 0 <= i < |t.comments| ensures HasArticle(articles, t.comments[i].article_id) {
      var j :| 0 <= j < |t.articles| && t.articles[j].article_id == t.comments[i].article_id;
      assert articles[j] == t.articles[j];
    }
    forall i | 0 <= i < |articles|
      ensures articles[i].article_id < t.nextArticleId + 1
      ensures HasUser(t.users, articles[i].author) && HasTopic(t.topics, articles[i].topic)
    {
      if i < |t.articles| {
        assert articles[i] == t.articles[i];
      }
    }
    assert UniqueArticleIds(articles) by {
      forall i, j | 0 <= i < |articles| && 0 <= j < |articles| && articles[i].article_id == articles[j].article_id
        ensures articles[i] == articles[j]
      {
        if i < |t.articles| { assert articles[i] == t.articles[i]; }
        if j < |t.articles| { assert articles[j] == t.articles[j]; }
      }
    }
  }

  /** Deleting an article no comment refers to breaks no key and no reference. */
  lemma RemoveArticleKeepsConsistent(t: Tables, n: int)
    requires Consistent(t) && CommentCount(t.comments, n) == 0
    ensures Consistent(t.(articles := WithoutArticle(t.articles, n)))
  {
    CommentCountZero(t.comments, n);
    var kept := WithoutArticle(t.articles, n);
    forall i | 0 <= i < |t.comments| ensures HasArticle(kept, t.comments[i].article_id) {
      var j :| 0 <= j < |t.articles| && t.articles[j].article_id == t.comments[i].article_id;
      assert t.articles[j] in t.articles;
      assert t.articles[j] in kept;
      var k :| 0 <= k < |kept| && kept[k] == t.articles[j];
    }
    DropArticlesKeepsConsistent(t, kept);
  }

  /** Deleting comments breaks no key and no reference. */
  lemma DropCommentsKeepsConsistent(t: Tables, kept: seq<Comment>)
    requires Consistent(t)
    requires forall c :: c in kept ==> c in t.comments
    ensures Consistent(t.(comments := kept))
  {
    forall i | 0 <= i < |kept|
      ensures kept[i].comment_id < t.nextCommentId
      ensures HasUser(t.users, kept[i].author) && HasArticle(t.articles, kept[i].article_id)
    {
      assert kept[i] in kept;
      var j :| 0 <= j < |t.comments| && t.comments[j] == kept[i];
    }
    forall i, j | 0 <= i < |kept| && 0 <= j < |kept| && kept[i].comment_id == kept[j].comment_id
      ensures kept[i] == kept[j]
    {
      assert kept[i] in kept && kept[j] in kept;
      var i' :| 0 <= i' < |t.comments| && t.comments[i'] == kept[i];
      var j' :| 0 <= j' < |t.comments| && t.comments[j'] == kept[j];
    }
  }

  /** Deleting articles that no comment refers to breaks no key and no reference. */
  lemma DropArticlesKeepsConsistent(t: Tables, kept: seq<Article>)
    requires Consistent(t)
    requires forall a :: a in kept ==> a in t.articles
    requires forall i :: 0 <= i < |t.comments| ==> HasArticle(kept, t.comments[i].article_id)
    ensures Consistent(t.(articles := kept))
  {
    forall i | 0 <= i < |kept|
      ensures kept[i].article_id < t.nextArticleId
      ensures HasUser(t.users, kept[i].author) && HasTopic(t.topics, kept[i].topic)
    {
      assert kept[i] in kept;
      var j :| 0 <= j < |t.articles| && t.articles[j] == kept[i];
    }
    forall i, j | 0 <= i < |kept| && 0 <= j < |kept| && kept[i].article_id == kept[j].article_id
      ensures kept[i] == kept[j]
    {
      assert kept[i] in kept && kept[j] in kept;
      var i' :| 0 <= i' < |t.articles| && t.articles[i'] == kept[i];
      var j' :| 0 <= j' < |t.articles| && t.articles[j'] == kept[j];
    }
  }

  class Store {
    var topics: seq<Topic>
    var users: seq<User>
    var articles: seq<Article>
    var comments: seq<Comment>
    var followsTopics: set<(string, string)>
    var followsUsers: set<(string, string)>
    var nextArticleId: int
    var nextCommentId: int
    /** The column default of `articles.article_img_url`; its text belongs to the schema. */
    const defaultImgUrl: string

    ghost function Snapshot(): Tables
      reads this
    {
      Tables(topics, users, articles, comments, followsTopics, followsUsers, nextArticleId, nextCommentId)
    }

    ghost predicate Valid()
      reads this
    {
      Consistent(Snapshot())
    }

    /** A store seeded with consistent contents. */
    constructor (seed: Tables, imgDefault: string)
      requires Consistent(seed)
      ensures Valid() && Snapshot() == seed && defaultImgUrl == imgDefault
    {
      topics, users, articles, comments := seed.topics, seed.users, seed.articles, seed.comments;
      followsTopics, followsUsers := seed.followsTopics, seed.followsUsers;
      nextArticleId, nextCommentId := seed.nextArticleId, seed.nextCommentId;
      defaultImgUrl := imgDefault;
    }

    // ------------------------------------------------------------ membership tests

    /** `SELECT * FROM users WHERE username = $1`, then `rows.length > 0`. */
    predicate CheckUserExists(username: string)
      reads this
      ensures CheckUserExists(username) <==> HasUser(users, username)
    {
      var keep := (u: User) => u.username == username;
      WhereEmpty(users, keep);
      |Where(users, keep)| > 0
    }

    /** `SELECT * FROM topics WHERE slug = $1`, then `rows.length > 0`. */
    predicate CheckTopicExists(slug: string)
      reads this
      ensures CheckTopicExists(slug) <==> HasTopic(topics, slug)
    {
      var keep := (t: Topic) => t.slug == slug;
      WhereEmpty(topics, keep);
      |Where(topics, keep)| > 0
    }

    // ------------------------------------------------------------ follow relations

    /** `INSERT INTO user_follows_topics ... ON CONFLICT DO NOTHING`. */
    method FollowTopicInDB(username: string, slug: string) returns (r: Result<(), ErrorValue>)
      requires Valid()
      modifies this
      ensures Valid()
      ensures r.Ok? <==> HasUser(old(users), username) && HasTopic(old(topics), slug)
      ensures r.Err? ==> r.error == DbError(ForeignKeyViolation) && Snapshot() == old(Snapshot())
      ensures r.Ok? ==> Snapshot() == old(Snapshot()).(followsTopics := old(followsTopics) + {(username, slug)})
    {
      if !(HasUser(users, username) && HasTopic(topics, slug)) {
        return Err(DbError(ForeignKeyViolation));
      }
      followsTopics := followsTopics + {(username, slug)};
      return Ok(());
    }

    /** `DELETE FROM user_follows_topics WHERE username = $1 AND topic_slug = $2`. */
    method UnfollowTopicInDB(username: string, slug: string)
      requires Valid()
      modifies this
      ensures Valid()
      ensures Snapshot() == old(Snapshot()).(followsTopics := old(followsTopics) - {(username, slug)})
    {
      followsTopics := followsTopics - {(username, slug)};
    }

    /** `INSERT INTO user_follows_users ... ON CONFLICT DO NOTHING`. */
    method FollowUserInDB(follower: string, followee: string) returns (r: Result<(), ErrorValue>)
      requires Valid()
      modifies this
      ensures Valid()
      ensures r.Ok? <==> HasUser(old(users), follower) && HasUser(old(users), followee)
      ensures r.Err? ==> r.error == DbError(ForeignKeyViolation) && Snapshot() == old(Snapshot())
      ensures r.Ok? ==> Snapshot() == old(Snapshot()).(followsUsers := old(followsUsers) + {(follower, followee)})
    {
      if !(HasUser(users, follower) && HasUser(users, followee)) {
        return Err(DbError(ForeignKeyViolation));
      }
      followsUsers := followsUsers + {(follower, followee)};
      return Ok(());
    }

    /** `DELETE FROM user_follows_users WHERE follower_username = $1 AND followee_username = $2`. */
    method UnfollowUserInDB(follower: string, followee: string)
      requires Valid()
      modifies this
      ensures Valid()
      ensures Snapshot() == old(Snapshot()).(followsUsers := old(followsUsers) - {(follower, followee)})
    {
      followsUsers := followsUsers - {(follower, followee)};
    }

    // ------------------------------------------------------------ articles and comments

    /** `DELETE FROM comments WHERE article_id = $1`. */
    method RemoveCommentsByArticleId(id: IntText) returns (r: Result<(), ErrorValue>)
      requires Valid()
      modifies this
      ensures Valid()
      ensures id.NotInteger? ==> r == Err(DbError(InvalidTextRepresentation)) && Snapshot() == old(Snapshot())
      ensures id.Integer? ==> r.Ok?
      ensures id.Integer? ==>
        Snapshot() == old(Snapshot()).(comments := WithoutCommentsOf(old(comments), id.n))
    {
      if id.NotInteger? {
        return Err(DbError(InvalidTextRepresentation));
      }
      var kept := WithoutCommentsOf(comments, id.n);
      DropCommentsKeepsConsistent(Snapshot(), kept);
      comments := kept;
      return Ok(());
    }

    /** `DELETE FROM articles WHERE article_id = $1`; refused while a comment still refers to the row. */
    method RemoveArticleById(id: IntText) returns (r: Result<(), ErrorValue>)
      requires Valid()
      modifies this
      ensures Valid()
      ensures r.Err? ==> Snapshot() == old(Snapshot())
      ensures id.NotInteger? ==> r == Err(DbError(InvalidTextRepresentation))
      ensures id.Integer? && CommentCount(old(comments), id.n) > 0 ==> r == Err(DbError(ForeignKeyViolation))
      ensures id.Integer? && CommentCount(old(comments), id.n) == 0 ==> r.Ok?
      ensures r.Ok? ==>
        Snapshot() == old(Snapshot()).(articles := WithoutArticle(old(articles), id.n))
    {
      if id.NotInteger? {
        return Err(DbError(InvalidTextRepresentation));
      }
      if CommentCount(comments, id.n) > 0 {
        return Err(DbError(ForeignKeyViolation));
      }
      RemoveArticleKeepsConsistent(Snapshot(), id.n);
      var kept := WithoutArticle(articles, id.n);
      articles := kept;
      return Ok(());
    }

    /** `DELETE FROM comments WHERE comment_id = $1`. */
    method RemoveCommentById(id: IntText) returns (r: Result<(), ErrorValue>)
      requires Valid()
      modifies this
      ensures Valid()
      ensures id.NotInteger? ==> r == Err(DbError(InvalidTextRepresentation)) && Snapshot() == old(Snapshot())
      ensures id.Integer? ==> r.Ok?
      ensures id.Integer? ==>
        Snapshot() == old(Snapshot()).(comments := WithoutComment(old(comments), id.n))
    {
      if id.NotInteger? {
        return Err(DbError(InvalidTextRepresentation));
      }
      var kept := WithoutComment(comments, id.n);
      DropCommentsKeepsConsistent(Snapshot(), kept);
      comments := kept;
      return Ok(());
    }

    /** `UPDATE articles SET votes = votes + $1 WHERE article_id = $2 RETURNING *`. */
    method UpdateArticleVotes(delta: int, id: IntText) returns (r: Result<seq<Article>, ErrorValue>)
      requires Valid()
      modifies this
      ensures Valid()
      ensures id.NotInteger? ==> r == Err(DbError(InvalidTextRepresentation)) && Snapshot() == old(Snapshot())
      ensures id.Integer? ==> Snapshot() == old(Snapshot()).(articles := WithVotes(old(articles), id.n, delta))
      ensures id.Integer? ==> r == Ok(ArticlesWithId(articles, id.n))
    {
      if id.NotInteger? {
        return Err(DbError(InvalidTextRepresentation));
      }
      var updated := WithVotes(articles, id.n, delta);
      WithVotesKeepsConsistent(Snapshot(), id.n, delta);
      articles := updated;
      return Ok(ArticlesWithId(articles, id.n));
    }

    /** `INSERT INTO comments (author, body, article_id) VALUES ($1, $2, $3) RETURNING *`. */
    method InsertComment(author: string, body: string, articleId: IntText, now: int) returns (r: Result<Comment, ErrorValue>)
      requires Valid()
      modifies this
      ensures Valid()
      ensures r.Err? ==> Snapshot() == old(Snapshot())
      ensures articleId.NotInteger? ==> r == Err(DbError(InvalidTextRepresentation))
      ensures articleId.Integer? ==>
        (r.Ok? <==> HasUser(old(users), author) && HasArticle(old(articles), articleId.n))
      ensures articleId.Integer? && r.Err? ==> r.error == DbError(ForeignKeyViolation)
      ensures r.Ok? ==> r.value == Comment(old(nextCommentId), body, articleId.n, author, 0, now)
      ensures r.Ok? ==> Snapshot() == old(Snapshot()).(comments := old(comments) + [r.value],
                                                         nextCommentId := old(nextCommentId) + 1)
    {
      if articleId.NotInteger? {
        return Err(DbError(InvalidTextRepresentation));
      }
      if !(HasUser(users, author) && HasArticle(articles, articleId.n)) {
        return Err(DbError(ForeignKeyViolation));
      }
      var c := Comment(nextCommentId, body, articleId.n, author, 0, now);
      comments := comments + [c];
      nextCommentId := nextCommentId + 1;
      return Ok(c);
    }

    /** `INSERT INTO articles (author, title, body, topic[, article_img_url]) ... RETURNING ...`. */
    method InsertArticle(author: string, title: string, body: string, topic: string, imgUrl: Option<string>, now: int)
      returns (r: Result<Article, ErrorValue>)
      requires Valid()
      modifies this
      ensures Valid()
      ensures r.Ok? <==> HasUser(old(users), author) && HasTopic(old(topics), topic)
      ensures r.Err? ==> r.error == DbError(ForeignKeyViolation) && Snapshot() == old(Snapshot())
      ensures r.Ok? ==> r.value == Article(old(nextArticleId), title, topic, author, body, now, 0,
                                           if imgUrl.Some? then imgUrl.value else defaultImgUrl)
      ensures r.Ok? ==> Snapshot() == old(Snapshot()).(articles := old(articles) + [r.value],
                                                         nextArticleId := old(nextArticleId) + 1)
    {
      if !(HasUser(users, author) && HasTopic(topics, topic)) {
        return Err(DbError(ForeignKeyViolation));
      }
      var a := Article(nextArticleId, title, topic, author, body, now, 0,
                       if imgUrl.Some? then imgUrl.value else defaultImgUrl);
      AppendArticleKeepsConsistent(Snapshot(), a);
      articles := articles + [a];
      nextArticleId := nextArticleId + 1;
      return Ok(a);
    }

    /** `INSERT INTO topics (slug, description) VALUES ($1, $2) RETURNING *`; a taken slug violates the key. */
    method InsertTopic(slug: string, description: string) returns (r: Result<Topic, ErrorValue>)
      requires Valid()
      modifies this
      ensures Valid()
      ensures r.Ok? <==> !HasTopic(old(topics), slug)
      ensures r.Err? ==> r.error == DbError(UniqueViolation) && Snapshot() == old(Snapshot())
      ensures r.Ok? ==> r.value == Topic(slug, description)
      ensures r.Ok? ==> Snapshot() == old(Snapshot()).(topics := old(topics) + [Topic(slug, description)])
    {
      if HasTopic(topics, slug) {
        return Err(DbError(UniqueViolation));
      }
      var old_topics := topics;
      topics := topics + [Topic(slug, description)];
      forall i | 0 <= i < |articles| ensures HasTopic(topics, articles[i].topic) {
        var j :| 0 <= j < |old_topics| && old_topics[j].slug == articles[i].topic;
        assert topics[j] == old_topics[j];
      }
      forall p | p in followsTopics ensures HasTopic(topics, p.1) {
        var j :| 0 <= j < |old_topics| && old_topics[j].slug == p.1;
        assert topics[j] == old_topics[j];
      }
      return Ok(Topic(slug, description));
    }
  }
}
