# be-nc-news core, modelled in Dafny

This project models the logic layer of the be-nc-news Express/PostgreSQL news API. It covers the parts of that layer whose behaviour can be stated and proved:

- **Query construction and validation** for the article listing, for one article's comments and for a new article. This includes the allow-list guard, the defaults, the offset `(p - 1) * limit`, placeholder numbering, the parameter lists and the separate count query.
- **Truthiness guards** that run before each write.
- **Existence guards** of `utils.js`, each of which reads the table and returns either a 404 rejection or the first row.
- **The error chain** formed by the three error handlers, in the order the application installs them.
- **Mutation sequencing** in the controllers: check, then act. This covers the article and comment handlers, the follow and unfollow handlers, and topic creation.

## How the model is built

- **The store.** The database is a class `Db.Store`. It holds the six relations (topics, users, articles, comments, user-follows-topic, user-follows-user) and the two serial sequences. Each write statement of the core, and the two membership tests `checkUserExists` and `checkTopicExists`, is one method on `Store`. The SELECTs of the listing, of one article, of its comments and of the topics, and the two `utils.js` guards, are functions and methods in `ArticlesModel`, `Utils` and `TopicsModel` that read the fields of `Store`. `Store.Valid()` is the schema's constraints: primary keys, and foreign keys without cascading deletes. Every method preserves it. Each write method states its complete new state through `Snapshot()`.
- **Query text.** A query is a sequence of fragments: fixed text, an interpolated token, or a placeholder `$k`, plus its parameter list. On this representation two properties are stated: "only allow-listed tokens reach the text", and "placeholders are exactly `$1`..`$n`".
- **SQL semantics.** The meanings of `WHERE`, `ORDER BY`, `LIMIT` and `OFFSET` are defined in `Sql`. They are assumptions about PostgreSQL, not code of the repository. Rows that tie keep storage order.
- **Errors.** Errors are `{ code, status, msg }` values. A database failure carries only its SQLSTATE, and a rejection built by the core carries only status and msg.
- **Handlers.** Controllers return the `(status, JSON body)` pair that Express would send. A rejection goes through `Http.Forward`, which is the error chain.
- **Inputs.** A path or query-string value bound to an integer column is `IntText`: an integer, or text PostgreSQL will refuse.
- **Database-generated values.** The clock (`created_at`), the serial counters and the column default of `article_img_url` are inputs or fields of the store.

## Code and documentation that disagree (the model follows the code)

- `getArticleById` answers an unknown id with 404 `"not found"`, from `checkRowsLength`. It does not give `"article not found"`.
- `getArticleCommentsById` answers 404 `"not found"` for an existing article that has no comments, and for a page past the end. It does not return an empty list.
- `postCommentToArticleId` for a missing article answers `"article not found"`, from `checkArticleExists`. One test in `__tests__/app.test.js` expects `"not found"` instead.
- A page number below 1, with a positive limit, makes `OFFSET` negative. PostgreSQL refuses that with a code the chain does not recognise, so the client gets a 500 rather than a 400.
- `followUser` compares with `===`, and the database stores the text of the value. So a followee sent as the JSON number `5` passes the self-follow test for user `"5"` and is stored as a self-follow (`FollowController.NumericSelfFollowPasses`). `FollowController.FollowUserIntendedSpec` compares the stored text instead. `FollowController.IntendedNeverStoresSelfFollow` proves that this variant never stores a pair `(u, u)` and that it agrees with the code whenever the followee is a string. The handler itself models the code as written.

## Model

| member | source | states |
|---|---|---|
| Utils.CheckArticleExists | utils.js:2-11 | Malformed id gives 22P02. For an integer id, 404 "article not found" exactly when no article has that id. Otherwise the result is the first row in storage order with that id. |
| Utils.CheckCommentExists | utils.js:13-22 | The same for comments, with 404 "comment not found". |
| Utils.CheckRowsLength | utils.js:24-30 | Rejects with 404 "not found" exactly when the list is empty; otherwise returns the list unchanged. |
| Utils.CheckArticleExistsFindsTheRow | utils.js:2-11 | Under the primary key, the guard resolves with `a` exactly when `a` is a stored article with that id. |
| Utils.CheckCommentExistsFindsTheRow | utils.js:13-22 | Under the primary key, the guard resolves with `c` exactly when `c` is a stored comment with that id. |
| ErrorHandlers.HandleInvalidInput | error-handlers.js:1-17 | No code: passes the error on. Codes 22P02 and 23503: reply 400 "invalid input". Any other code: passes the error on unchanged. |
| ErrorHandlers.HandleCustomErrors | error-handlers.js:19-25 | Replies with the error's own status and msg exactly when both are truthy; otherwise passes the same error on. |
| ErrorHandlers.HandleInternalErrors | error-handlers.js:27-29 | Always replies 500 "internal server error". |
| ErrorHandlers.EndingWithInternalIsTotal | app.js:21-23 | Any chain that ends with the internal handler answers every error. |
| ErrorHandlers.RespondClassifies | app.js:21-23 | The installed chain as one table. A known DB code gives 400 "invalid input", whatever status and msg the error also carries. Otherwise an error with status and msg gets those. Anything else gets 500. |
| ErrorHandlers.RespondToRejection | app.js:21-23 | A rejection `{status, msg}` with both truthy is answered with its own status and msg. |
| ErrorHandlers.ChainOrderMatters | app.js:21-23 | In the installed order, an FK error that also carries status 404 gives 400. With the custom handler first it would give 404. |
| Http.Forward | app.js:21-23 | `.catch(next)` for every cause of error: the three outcomes of the chain, as a response. |
| JsValues.ToUpperCase | models/articles.models.js:25 | `toUpperCase` keeps the length and maps each character to its upper case. |
| JsValues.UpperCaseKeywords | models/articles.models.js:21-25 | "asc" and "desc" upper-case to the allow-listed "ASC" and "DESC". |
| JsValues.ToUpperCaseIdempotent | models/articles.models.js:58 | Upper-casing the emitted direction again changes nothing. |
| ArticlesModel.BuildArticlesQueries | models/articles.models.js:3-59 | Rejects with 400 "invalid input" and builds nothing exactly when `sort_by` or the upper-cased `order` is off its allow-list. Otherwise the row query satisfies `RowsQueryFor`: params `[limit, (p-1)*limit]` plus the topic; numbered `$1..$n`; only the column and direction interpolated; LIMIT/OFFSET/topic bound after their keywords. The count query satisfies `CountQueryFor`: `[topic]` or `[]`. Defaults apply. |
| ArticlesModel.AssembleArticlesQueries | models/articles.models.js:30-59 | Once column and direction are allow-listed, the loop-free assembly yields both queries with the properties above. |
| ArticlesModel.IdentsOfListingTail | models/articles.models.js:56-59 | The tail interpolates exactly the column and then the direction. |
| ArticlesModel.RowsQueryShape | models/articles.models.js:33-59 | With or without the topic condition, the row query meets `RowsQueryFor`. |
| ArticlesModel.RowsQueryNumbered | models/articles.models.js:51-59 | Placeholders are exactly `$1..$n` for `n` parameters (`$3` only with a topic). |
| ArticlesModel.RowsQueryTokens | models/articles.models.js:58 | The only interpolated tokens are the column and the direction, both within the allow-lists. |
| ArticlesModel.RowsQueryBinds | models/articles.models.js:31-59 | `LIMIT` is followed by the limit's placeholder, `OFFSET` by the offset's, and the topic condition by the topic's. |
| ArticlesModel.CountQueryShape | models/articles.models.js:46-62 | The count query is numbered, has no interpolated token, and binds the topic as `$1` after WHERE. It never sees limit or offset. |
| ArticlesModel.BoundTopicMatches | models/articles.models.js:50-62 | The topic read back from either parameter list filters exactly as the caller's topic does. |
| ArticlesModel.FetchArticles | models/articles.models.js:3-72 | The result equals `ListArticles` of the tables: the guard, then page rows and total. |
| ArticlesModel.ListArticlesRejects | models/articles.models.js:23-28 | An invalid `sort_by` or `order` gives 400 "invalid input", whatever the other arguments. |
| ArticlesModel.ListingDefaults | models/articles.models.js:3-25 | Absent arguments mean `created_at`, `DESC`, limit 10 and offset 0. `order` is case-insensitive. `body` and unknown directions are refused. |
| ArticlesModel.ListingTotalIgnoresPaging | models/articles.models.js:46-69 | `total_count` does not depend on `limit` or `p`. |
| ArticlesModel.ListingRowsOrdered | models/articles.models.js:33-59 | Before the page is cut, the rows are a permutation of the summaries of the matching articles, sorted by the column in the direction. |
| ArticlesModel.ListingRowsAreSummaries | models/articles.models.js:33-51 | Each row summarises a stored article (no `body`), carries its comment count, and is on the topic when one is given. |
| ArticlesModel.ListingPage | models/articles.models.js:30-70 | A page holds at most `limit` rows. Each row is a summary of a matching article with its count. The page is sorted. `total_count` is the number of matching articles. |
| ArticlesModel.OffsetFromPageOne | models/articles.models.js:30 | From page 1 on, with a non-negative limit, the offset `(p - 1) * limit` is a non-negative integer. |
| ArticlesModel.ListingPastTheEnd | models/articles.models.js:30-70 | `limit=0`, or a page that starts at or past the last matching article, gives an empty page with the full total. |
| ArticlesModel.ListingNegativeOffset | models/articles.models.js:30-59 | `p < 1` with a positive limit fails in the database with 2201X. |
| ArticlesModel.ListingNonNumericPaging | models/articles.models.js:30-31 | A non-numeric `limit` or `p` fails with 22P02. |
| ArticlesModel.FetchArticleById | models/articles.models.js:74-85 | A malformed id gives 22P02. Otherwise every row is a stored article with that id and its comment count, and there is no row exactly when no article has that id. |
| ArticlesModel.FetchArticleByIdUnique | models/articles.models.js:74-85 | Under the primary key, the rows are non-empty and each is that article with its count. |
| ArticlesModel.CommentsQueryUnpaged | models/articles.models.js:88-101 | Without paging: params `[article_id]`, numbered, no interpolation, ordered `created_at DESC`, no `LIMIT`. |
| ArticlesModel.CommentsQueryPaged | models/articles.models.js:88-107 | With paging: `LIMIT $2 OFFSET $3` bound to limit and `(p-1)*limit`, the id as `$1`, numbered, ordered. |
| ArticlesModel.CommentsPagedNumbered | models/articles.models.js:97-104 | The paged text is numbered `$1..$3` and interpolates nothing. |
| ArticlesModel.CommentsPagedBinds | models/articles.models.js:97-106 | Each of id, limit and offset sits after its keyword. |
| ArticlesModel.CommentsQueryShape | models/articles.models.js:87-107 | The built query meets `CommentsQueryFor`: pagination appears exactly when both `limit` and `p` are given. |
| ArticlesModel.BuildArticleCommentsQuery | models/articles.models.js:87-107 | The step-by-step assembly produces a query meeting `CommentsQueryFor`. |
| ArticlesModel.FetchArticleCommentsById | models/articles.models.js:87-110 | The result equals `ListComments`: the article's comments, newest first, paged when both are given. |
| ArticlesModel.ListCommentsUnpaginated | models/articles.models.js:97-103 | Without both `limit` and `p`: a permutation of all the article's comments, sorted newest first. |
| ArticlesModel.ListCommentsPage | models/articles.models.js:97-107 | Every listed comment belongs to the article; the list is newest first; when paged it holds at most `limit` comments. |
| ArticlesModel.ListCommentsNeedsBoth | models/articles.models.js:103 | `limit` alone, or `p` alone, gives the same result as neither. |
| ArticlesModel.AddCommentToArticleId | models/articles.models.js:112-123 | A missing or empty `username`/`body` gives 400 "invalid comment input" and no write; extra keys are ignored. Otherwise the insert gives 22P02 for a malformed id, and 23503 unless the user and article exist. On success it returns the comment `[username, body, article_id]` with the next id, 0 votes and the time, appended as the only change. |
| ArticlesModel.VoteIncrement | models/articles.models.js:126-129 | An increment exists exactly when `inc_votes` is a non-zero number. |
| ArticlesModel.UpdateArticleById | models/articles.models.js:125-137 | No valid increment: 400 "invalid input" and no write. Then 22P02 for a malformed id. Otherwise the articles become `WithVotes` (votes + delta on rows with that id), and the rows with that id are returned. |
| ArticlesModel.ImgValuesNumbered | models/articles.models.js:152 | The five-value list names `article_img_url` and uses exactly `$1..$5`. |
| ArticlesModel.PlainValuesNumbered | models/articles.models.js:155 | The four-value list uses exactly `$1..$4` and does not name the column. |
| ArticlesModel.InsertTextNumbered | models/articles.models.js:147-173 | Wrapping either list in the fixed head and tail keeps the query numbered and free of interpolation. |
| ArticlesModel.AddArticleQueryShape | models/articles.models.js:146-173 | The column is named exactly when there are five params, which happens exactly when `article_img_url` is truthy. |
| ArticlesModel.BuildAddArticleQuery | models/articles.models.js:146-175 | The step-by-step assembly meets `AddArticleQueryFor`. |
| ArticlesModel.FreshArticleHasNoComments | models/articles.models.js:160-164 | The LEFT JOIN count of a newly inserted article is 0. |
| ArticlesModel.AddArticle | models/articles.models.js:139-176 | A falsy author, title, body or topic gives 400 "invalid input" and no write. Otherwise success happens exactly when author and topic exist (else 23503). The row has the next id, 0 votes, the time, and the given image URL or the column default. It comes back with count 0 and is appended as the only change. |
| Db.WithVotes | models/articles.models.js:131-133 | Same length. Each row with the id has votes + delta; every other row is unchanged. |
| Db.WithVotesCompose | models/articles.models.js:131-133 | Two patches equal one patch by their sum. |
| Db.WithVotesUndo | models/articles.models.js:131-133 | +v then -v restores the rows. |
| Db.WithVotesAt | models/articles.models.js:131-133 | One row of the patched relation; its id is kept. |
| Db.WithVotesReturnsThePatchedRows | models/articles.models.js:130-134 | `RETURNING *` of the patch has as many rows as the id selected before, and its first row is the first selected row with votes + delta. |
| Db.WithVotesKeepsConsistent | models/articles.models.js:131-133 | A vote patch breaks no key or reference. |
| Db.AppendArticleKeepsConsistent | models/articles.models.js:147-149 | Inserting the next serial id with existing author and topic keeps the store consistent. |
| Db.RemoveArticleKeepsConsistent | models/articles.models.js:178-180 | Deleting an article no comment refers to keeps the store consistent. |
| Db.DropCommentsKeepsConsistent | models/articles.models.js:182-184 | Deleting any comments keeps the store consistent. |
| Db.DropArticlesKeepsConsistent | models/articles.models.js:178-180 | Deleting unreferenced articles keeps the store consistent. |
| Db.Store.CheckUserExists | models/follow-model.js:31-36 | True exactly when some user has that username. |
| Db.Store.CheckTopicExists | models/follow-model.js:38-43 | True exactly when some topic has that slug. |
| Db.Store.FollowTopicInDB | models/follow-model.js:3-8 | Adds the pair `(username, slug)` as a set insert, so a duplicate is a no-op. FK error (and no change) unless both exist. Nothing else changes. |
| Db.Store.UnfollowTopicInDB | models/follow-model.js:10-15 | Removes exactly that pair; an absent pair is a no-op. |
| Db.Store.FollowUserInDB | models/follow-model.js:17-22 | Idempotent insert of the ordered pair; FK error unless both users exist. |
| Db.Store.UnfollowUserInDB | models/follow-model.js:24-29 | Removes only that ordered pair. |
| Db.Store.RemoveCommentsByArticleId | models/articles.models.js:182-184 | 22P02 with no change for a malformed id. Otherwise the comments become exactly the other articles' comments. |
| Db.Store.RemoveArticleById | models/articles.models.js:178-180 | 22P02 for a malformed id; 23503 (no change) while a comment refers to it. Otherwise exactly the other articles remain. |
| Db.Store.RemoveCommentById | models/comments-models.js:3-9 | 22P02 for a malformed id. Otherwise exactly the other comments remain. |
| Db.Store.UpdateArticleVotes | models/articles.models.js:130-136 | 22P02 with no change, or articles := `WithVotes` with the patched rows of that id returned. |
| Db.Store.InsertComment | models/articles.models.js:119-122 | 22P02, or 23503 unless author and article exist. Otherwise the new comment with the next serial id and 0 votes is appended. |
| Db.Store.InsertArticle | models/articles.models.js:147-175 | 23503 unless author and topic exist. Otherwise the new article with the next id, 0 votes and the given or default image URL is appended. |
| Db.Store.InsertTopic | models/topics-models.js:13-16 | 23505 for a taken slug. Otherwise `Topic(slug, description)` is appended and returned. |
| Rows.CommentCountZero | models/articles.models.js:42-44 | The LEFT JOIN count is zero exactly when no comment refers to the article. |
| Rows.ArticlesWithId | utils.js:4 | Exactly the stored articles with that id. |
| Rows.ArticlesWithIdFirst | utils.js:9 | The first selected row is the first in storage order with that id. |
| Rows.WithoutCommentsOf | models/articles.models.js:183 | Exactly the comments of other articles. |
| Rows.WithoutComment | models/comments-models.js:5-6 | Exactly the comments with other ids. |
| Rows.WithoutArticle | models/articles.models.js:179 | Exactly the articles with other ids. |
| Rows.Summaries | models/articles.models.js:34-42 | One listing row per article, `body` left out, with its comment count. |
| Rows.Details | models/articles.models.js:76-78 | `articles.*` with the comment count, one per article. |
| Sql.Where | models/articles.models.js:81 | A filter: its rows are exactly the rows that satisfy the condition. |
| Sql.LimitOffset | models/articles.models.js:59 | `LIMIT l OFFSET o`. A negative limit or offset gives 2201W/2201X; non-integer text gives 22P02. Otherwise it returns at most `l` consecutive rows starting at `o`. |
| Sql.LimitOffsetPastTheEnd | models/articles.models.js:59 | `LIMIT 0`, or an offset at or past the last row, yields no rows. |
| Sql.OrderBySorted | models/articles.models.js:58 | `ORDER BY` yields rows sorted by the key in the direction. |
| Sql.OrderByPermutes | models/articles.models.js:58 | `ORDER BY` is a permutation of its input. |
| TopicsModel.FetchTopics | models/topics-models.js:3-5 | Every topic row, and only those, with the same count. |
| TopicsModel.AddTopic | models/topics-models.js:7-17 | A missing or empty slug or description gives 400 "invalid input" and no write. Otherwise 23505 for a taken slug, or the inserted `Topic(slug, description)`, which is then listed by `FetchTopics` with one more row. |
| ArticlesController.GetArticles | controllers/articles-controllers.js:14-25 | The response is the listing passed through `checkRowsLength`, or the forwarded error. |
| ArticlesController.GetArticlesRejects | controllers/articles-controllers.js:14-25 | Invalid sort or order gives 400 "invalid input". |
| ArticlesController.GetArticlesOk | controllers/articles-controllers.js:18-22 | A 200 holds a non-empty, sorted page of at most `limit` summaries on the topic, and the total of matching articles. |
| ArticlesController.GetArticlesEmptyPage | controllers/articles-controllers.js:14-25 | Every listing whose page is empty, for any `limit` and `p`, gives 404 "not found". |
| ArticlesController.GetArticlesPastTheEnd | controllers/articles-controllers.js:14-25 | With a valid sort and order, `limit=0`, or a page that starts at or after the last matching article, gives 404 "not found". |
| ArticlesController.GetArticlesNoMatch | controllers/articles-controllers.js:14-25 | With default paging (no `limit` and no `p`), no matching article gives 404 "not found", not an empty 200. |
| ArticlesController.GetArticlesPageBelowOne | controllers/articles-controllers.js:17-24 | `p < 1` gives 500 "internal server error". |
| ArticlesController.GetArticleById | controllers/articles-controllers.js:27-38 | The response is the fetch passed through `checkRowsLength`, then the first row. |
| ArticlesController.GetArticleByIdOutcomes | controllers/articles-controllers.js:27-38 | Malformed id gives 400. Unknown id gives 404 "not found". Known id gives 200 with that article and its comment count. |
| ArticlesController.GetArticleCommentsById | controllers/articles-controllers.js:40-52 | The response is the listing passed through `checkRowsLength`. |
| ArticlesController.GetArticleCommentsUnpaged | controllers/articles-controllers.js:40-52 | Malformed id gives 400. No comments gives 404 "not found". Otherwise all of the article's comments, newest first. |
| ArticlesController.GetArticleCommentsEmptyPage | controllers/articles-controllers.js:40-52 | Every comment listing that comes back empty (no comments, no article, or a page past the end) gives 404 "not found". |
| ArticlesController.GetArticleCommentsOk | controllers/articles-controllers.js:44-49 | A 200 holds a non-empty list of the article's comments, newest first, at most `limit` when paged. |
| ArticlesController.PostCommentToArticleId | controllers/articles-controllers.js:54-67 | Malformed id gives 400. Missing article gives 404 "article not found" whatever the body. Then a bad body gives 400 "invalid comment input", and an unknown user gives 400 "invalid input". 201 with the inserted comment exactly when all checks pass. No write otherwise. |
| ArticlesController.PostedCommentIsListed | controllers/articles-controllers.js:54-67 | A posted comment is then listed under its article, and the count rises by one. |
| ArticlesController.PatchArticleById | controllers/articles-controllers.js:69-81 | Response and new store equal `PatchArticleByIdSpec` of the old store: existence first, then the increment, then the patch. |
| ArticlesController.PatchArticleByIdRejects | controllers/articles-controllers.js:69-81 | Malformed id gives 400. Missing article gives 404 "article not found" (checked before the increment). Missing increment gives 400 "invalid input". No write on any of these. 200 exactly when all pass. |
| ArticlesController.PatchArticleByIdUpdates | controllers/articles-controllers.js:72-78 | A 200 returns the checked row with votes + delta. Only the votes of that id change. |
| ArticlesController.PatchReturnsTheCheckedRow | controllers/articles-controllers.js:72-77 | `rows[0]` of the patch is the guard's row with the increment applied. |
| ArticlesController.PostArticle | controllers/articles-controllers.js:83-91 | 400 for a falsy field, 400 for an unknown author or topic, else 201 with the inserted row (count 0) as the only change. |
| ArticlesController.DeleteArticleById | controllers/articles-controllers.js:93-106 | Malformed id gives 400. Missing id gives 404 and removes nothing. Otherwise 204, with the article's comments removed and then the article, and nothing else changed. |
| ArticlesController.NothingLeftToCount | controllers/articles-controllers.js:96-100 | After its comments are deleted the article has none, so its delete is allowed. |
| ArticlesController.DeletedArticleIsGone | controllers/articles-controllers.js:93-106 | Afterwards the guard gives 404 and the article has no comments. Every other article and comment remains. |
| ArticlesController.DeleteArticleCommentsById | controllers/articles-controllers.js:108-118 | 400, 404, or 204 with exactly that article's comments removed. The article row stays. |
| CommentsController.DeleteCommentById | controllers/comments-controllers.js:4-15 | Malformed id gives 400. Unknown id gives 404 "comment not found" and deletes nothing. Otherwise 204 with an empty body and exactly that comment removed. |
| CommentsController.DeletedCommentIsGone | models/comments-models.js:3-9 | Afterwards the guard gives 404, and every other comment remains. |
| FollowController.FollowTopic | controllers/follow-controller.js:10-42 | Response and new store equal `FollowTopicSpec`: input check, user, topic, then insert. |
| FollowController.UnfollowTopic | controllers/follow-controller.js:44-68 | Response and new store equal `UnfollowTopicSpec`. |
| FollowController.FollowUser | controllers/follow-controller.js:70-102 | Response and new store equal `FollowUserSpec`: input check, both users, self test, then insert. |
| FollowController.UnfollowUser | controllers/follow-controller.js:104-130 | Response and new store equal `UnfollowUserSpec`, which has no self test. |
| FollowController.MissingInputIsRejected | controllers/follow-controller.js:16-18 | A missing identifier gives 400 "invalid input" and no write, whatever the tables hold. This holds for all four handlers. |
| FollowController.UserCheckComesFirst | controllers/follow-controller.js:22-27 | A missing user is reported even when the topic is missing too. This holds for follow and unfollow. |
| FollowController.TopicWriteOnlyOnSuccess | controllers/follow-controller.js:20-36 | 200 exactly when every check passes. On any failure the store is unchanged. |
| FollowController.UserWriteOnlyOnSuccess | controllers/follow-controller.js:78-99 | 200 exactly when both users exist and, for follow, the followee is not the same string. No write otherwise. |
| FollowController.FollowTopicIdempotent | models/follow-model.js:3-8 | Following twice equals following once. |
| FollowController.IntendedNeverStoresSelfFollow | controllers/follow-controller.js:86-91 | With the self test comparing the stored text, no request adds a pair `(u, u)`. On a string followee it agrees with `FollowUserSpec`. |
| FollowController.FollowUserIdempotent | models/follow-model.js:17-22 | Following a user twice equals following once. |
| FollowController.UnfollowRemovesOnlyThePair | models/follow-model.js:10-15 | Unfollowing removes only the named pair; an absent pair leaves the tables as they were. |
| FollowController.FollowThenUnfollowTopic | controllers/follow-controller.js:28-60 | Follow then unfollow of a new pair restores the tables. |
| FollowController.SelfFollowAfterExistence | controllers/follow-controller.js:83-91 | A self-follow gives 400 only for an existing user; for an unknown user it gives 404. |
| FollowController.UnfollowSelfPasses | controllers/follow-controller.js:116-121 | Unfollowing oneself succeeds. |
| FollowController.NumericSelfFollowPasses | controllers/follow-controller.js:86 | A numeric body value escapes the strict self test and is stored as the pair ("5", "5"). |

## Left out

- Express wiring is not modelled: `app.js` beyond the handler order, the routers, the catch-all 404 "Endpoint not found", `controllers/topics-controllers.js`, `controllers/users-controller.js`, `controllers/api-controllers.js`, and `fetchApi`, whose module is not part of this model. Those parts move requests and responses without logic of their own.
- Routing is not modelled. `postArticle` and the two article deletes are modelled as handlers, even though the articles router shown does not mount them.
- PostgreSQL itself is not modelled. `WHERE`, `ORDER BY`, `LIMIT`/`OFFSET` and `COUNT` with `LEFT JOIN` are reference definitions, and the order of rows that tie is one choice (storage order). Collation is modelled as code-point order.
- JavaScript and node-postgres coercions are reduced to a few cases:
  - query-string numbers are `IntText` (an integer, or text PostgreSQL rejects with 22P02);
  - empty strings, hexadecimal or exponent forms and whitespace are not modelled;
  - body values that are arrays, objects or fractional numbers are not modelled;
  - `Text` is the interpolation of the values the guards let through.
- Query-string values that arrive as arrays are not modelled. Examples are `?order=asc&order=desc`, `?sort_by[]=votes` and `?topic=a&topic=b`. The inputs are `Option<string>` or `Option<IntText>`. An array `order` would make `order.toUpperCase()` throw, giving a 500, and an array `sort_by` fails the allow-list, giving a 400.
- PostgreSQL's `integer` range is not modelled. `IntText` integers and vote counts are unbounded, and the error 22003 (numeric value out of range) never arises. In the source, that error reaches the chain without a status and is answered with 500. The members whose contracts this changes are below.
- Utils.CheckArticleExists: an id outside the `integer` range, such as `99999999999`, is rejected here with 404 "article not found". The source answers 500, from 22003.
- Utils.CheckCommentExists: an out-of-range id is rejected here with 404 "comment not found". The source answers 500, from 22003.
- ArticlesModel.FetchArticleById: an out-of-range id yields no rows here. The source fails with 22003.
- ArticlesController.GetArticleByIdOutcomes: an out-of-range id is a 404 "not found" here. The source answers 500.
- Db.WithVotes: `votes + delta` is unbounded. The source's UPDATE fails with 22003 when the sum leaves the `integer` range.
- Db.WithVotesUndo: holds for every increment only because the integers are unbounded. In the source, a patch that overflows fails and so cannot be undone.
- Db.Store.UpdateArticleVotes: an `inc_votes` such as `3000000000` writes and returns the row here. The source fails with 22003 and makes no write.
- ArticlesController.PatchArticleById: an increment that overflows the column answers 200 here. The source answers 500 with no write.
- ArticlesModel.Offset: `p` is read as integer text, so the model can only express a fractional `p` such as `1.5` as `NotInteger`, which gives 22P02 and a 400. In the source, `p` never reaches the database; only the JavaScript product `(p - 1) * limit` does. With the default limit, `?p=1.5` therefore binds `OFFSET 5` and answers 200.
- `comment_count` and `total_count` are integers here. node-postgres returns counts as strings, and the code calls `parseInt` on only one of them.
- Values the database generates are not computed. `created_at` is a parameter of the insert methods. The serial ids come from counters in the store, and an id consumed by a failed insert is not modelled. The `article_img_url` column default is a field of the store.
- `Promise.all` in the follow handlers is modelled as two sequential lookups. Neither lookup writes, so there is no concurrency to model.
- `console.log` and `console.error` are not modelled.
- JsValues.ToUpperCase: upper-cases ASCII letters and U+017F only, because other Unicode case mappings (ß to SS, for example) would not change which inputs pass the allow-list.
- ArticlesController.PostArticle: states the returned row's id and count, and the new store, but not every column of the post. Those columns are stated on `ArticlesModel.AddArticle`, which it calls.
