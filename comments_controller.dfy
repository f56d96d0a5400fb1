/** `controllers/comments-controllers.js` with the delete of `models/comments-models.js`. */
module CommentsController {
  import opened Wrappers
  import opened JsValues
  import opened Errors
  import opened Sql
  import opened Rows
  import opened Db
  import opened Http
  import opened Utils

  /** `deleteCommentById`: the comment must exist; then `DELETE FROM comments WHERE comment_id = $1`, and 204. */
  method DeleteCommentById(db: Store, id: IntText) returns (resp: Response)
    requires db.Valid()
    modifies db
    ensures db.Valid()
    ensures resp.status != 204 ==> db.Snapshot() == old(db.Snapshot())
    ensures id.NotInteger? ==> resp == Response(400, Msg("invalid input"))
    ensures id.Integer? && !HasComment(old(db.comments), id.n) ==> resp == Response(404, Msg("comment not found"))
    ensures id.Integer? && HasComment(old(db.comments), id.n) ==>
      && resp == Response(204, NoContent)
      && db.Snapshot() == old(db.Snapshot()).(comments := WithoutComment(old(db.comments), id.n))
  {
    var found := CheckCommentExists(db.comments, id);
    if found.Err? {
      return Forward(found.error);
    }
    var removed := db.RemoveCommentById(id);
    assert removed.Ok?;
    return Response(204, NoContent);
  }

  /**
   * The delete takes out exactly the comment with that id: the guard then
   * reports it missing, and every other comment stays.
   */
  lemma DeletedCommentIsGone(comments: seq<Comment>, n: int)
    ensures CheckCommentExists(WithoutComment(comments, n), Integer(n)) == Err(Rejection(404, "comment not found"))
    ensures forall c :: c in comments && c.comment_id != n ==> c in WithoutComment(comments, n)
  {
  }
}
