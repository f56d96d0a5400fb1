/** `models/topics-models.js`: reading and adding topics. */
module TopicsModel {
  import opened Wrappers
  import opened JsValues
  import opened Errors
  import opened Rows
  import opened Db

  /** `SELECT * FROM topics`: every topic row and no other; the query promises no order. */
  function FetchTopics(db: Store): (r: seq<Topic>)
    reads db
    ensures forall t :: t in r <==> t in db.topics
    ensures |r| == |db.topics|
  {
    db.topics
  }

  /** `if (!slug || !description)`: both fields are present and truthy. */
  predicate ValidTopic(topicObj: Body)
  {
    Truthy(Field(topicObj, "slug")) && Truthy(Field(topicObj, "description"))
  }

  /**
   * `addTopic`: the guard, then `INSERT INTO topics (slug, description) VALUES ($1, $2)
   * RETURNING *` with `[slug, description]`; a slug already taken violates the key.
   */
  method AddTopic(db: Store, topicObj: Body) returns (r: Result<Topic, ErrorValue>)
    requires db.Valid()
    modifies db
    ensures db.Valid()
    ensures r.Err? ==> db.Snapshot() == old(db.Snapshot())
    ensures !ValidTopic(topicObj) ==> r == Err(Rejection(400, "invalid input"))
    ensures ValidTopic(topicObj) ==> (r.Ok? <==> !HasTopic(old(db.topics), Text(Field(topicObj, "slug"))))
    ensures ValidTopic(topicObj) && r.Err? ==> r.error == DbError(UniqueViolation)
    ensures r.Ok? ==> r.value == Topic(Text(Field(topicObj, "slug")), Text(Field(topicObj, "description")))
    ensures r.Ok? ==> db.Snapshot() == old(db.Snapshot()).(topics := old(db.topics) + [r.value])
    ensures r.Ok? ==> r.value in FetchTopics(db) && |FetchTopics(db)| == |old(db.topics)| + 1
  {
    var slug, description := Field(topicObj, "slug"), Field(topicObj, "description");
    if !Truthy(slug) || !Truthy(description) {
      return Err(Rejection(400, "invalid input"));
    }
    r := db.InsertTopic(Text(slug), Text(description));
  }
}
