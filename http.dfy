/** Responses as the routing layer sends them: a status and a JSON body. */
module Http {
  import opened Errors
  import opened Rows
  import ErrorHandlers

  /** The JSON bodies the core's controllers send, by their top-level key. */
  datatype Payload =
    | Msg(msg: string)                                              // { msg }
    | ArticlesPage(articles: seq<ArticleSummary>, total_count: int)  // { articles, total_count }
    | ArticlePayload(article: ArticleDetail)                         // { article } from a SELECT
    | UpdatedArticle(updated: Article)                               // { article } from UPDATE ... RETURNING *
    | CommentsPayload(comments: seq<Comment>)                        // { comments }
    | CommentPayload(comment: Comment)                               // { comment }
    | PostPayload(post: ArticleDetail)                               // { post }
    | NoContent                                                      // 204, empty body

  datatype Response = Response(status: int, payload: Payload)

  /** `.catch(next)`: a rejection is answered by the application's error chain. */
  function Forward(err: ErrorValue): (r: Response)
    ensures err.code in {InvalidTextRepresentation, ForeignKeyViolation} ==> r == Response(400, Msg("invalid input"))
    ensures err.code !in {InvalidTextRepresentation, ForeignKeyViolation} && err.status != 0 && err.msg != "" ==>
      r == Response(err.status, Msg(err.msg))
    ensures err.code !in {InvalidTextRepresentation, ForeignKeyViolation} && !(err.status != 0 && err.msg != "") ==>
      r == Response(500, Msg("internal server error"))
  {
    ErrorHandlers.RespondClassifies(err);
    var (status, msg) := ErrorHandlers.Respond(err);
    Response(status, Msg(msg))
  }
}
