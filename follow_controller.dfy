/**
 * `controllers/follow-controller.js`: input check, existence checks, then one
 * write to a follow relation. Each handler is specified by a function from the
 * tables before the request to the response and the tables after it.
 */
module FollowController {
  import opened Wrappers
  import opened JsValues
  import opened Errors
  import opened Rows
  import opened Db
  import opened Http

  // ============================================================ specifications

  /** The reply sent directly, before any lookup, when an identifier is missing. */
  const InvalidInput := Response(400, Msg("invalid input"))

  /** What the error chain answers for the controller's own rejections. */
  const UserNotFound := Response(404, Msg("user not found"))
  const TopicNotFound := Response(404, Msg("topic not found"))
  const SelfFollow := Response(400, Msg("A user cannot follow themselves."))

  /** `POST /api/users/:username/follow-topic` with `{ topicSlug }`. */
  function FollowTopicSpec(t: Tables, username: string, body: Body): (Response, Tables)
  {
    var slug := Field(body, "topicSlug");
    if username == "" || !Truthy(slug) then (InvalidInput, t)
    else if !HasUser(t.users, username) then (UserNotFound, t)
    else if !HasTopic(t.topics, Text(slug)) then (TopicNotFound, t)
    else (Response(200, Msg("User " + username + " followed topic " + Text(slug))),
          t.(followsTopics := t.followsTopics + {(username, Text(slug))}))
  }

  /** `DELETE /api/users/:username/unfollow-topic` with `{ topicSlug }`. */
  function UnfollowTopicSpec(t: Tables, username: string, body: Body): (Response, Tables)
  {
    var slug := Field(body, "topicSlug");
    if username == "" || !Truthy(slug) then (InvalidInput, t)
    else if !HasUser(t.users, username) then (UserNotFound, t)
    else if !HasTopic(t.topics, Text(slug)) then (TopicNotFound, t)
    else (Response(200, Msg("User " + username + " unfollowed topic " + Text(slug))),
          t.(followsTopics := t.followsTopics - {(username, Text(slug))}))
  }

  /**
   * `POST /api/users/:followerUsername/follow-user` with `{ followeeUsername }`. The
   * self-follow test is JavaScript's `===` between the route's string and the
   * body's value, so it holds only when the body carries the same string.
   */
  function FollowUserSpec(t: Tables, follower: string, body: Body): (Response, Tables)
  {
    var followee := Field(body, "followeeUsername");
    if follower == "" || !Truthy(followee) then (InvalidInput, t)
    else if !HasUser(t.users, follower) || !HasUser(t.users, Text(followee)) then (UserNotFound, t)
    else if followee == Str(follower) then (SelfFollow, t)
    else (Response(200, Msg("User " + follower + " followed user " + Text(followee))),
          t.(followsUsers := t.followsUsers + {(follower, Text(followee))}))
  }

  /**
   * The self-follow test as evidently intended: it compares the stored text of the
   * followee with the follower, so a numeric body value cannot slip past it.
   */
  function FollowUserIntendedSpec(t: Tables, follower: string, body: Body): (Response, Tables)
  {
    var followee := Field(body, "followeeUsername");
    if follower == "" || !Truthy(followee) then (InvalidInput, t)
    else if !HasUser(t.users, follower) || !HasUser(t.users, Text(followee)) then (UserNotFound, t)
    else if Text(followee) == follower then (SelfFollow, t)
    else (Response(200, Msg("User " + follower + " followed user " + Text(followee))),
          t.(followsUsers := t.followsUsers + {(follower, Text(followee))}))
  }

  /** `DELETE /api/users/:followerUsername/unfollow-user` with `{ followeeUsername }`; there is no self-follow test. */
  function UnfollowUserSpec(t: Tables, follower: string, body: Body): (Response, Tables)
  {
    var followee := Field(body, "followeeUsername");
    if follower == "" || !Truthy(followee) then (InvalidInput, t)
    else if !HasUser(t.users, follower) || !HasUser(t.users, Text(followee)) then (UserNotFound, t)
    else (Response(200, Msg("User " + follower + " unfollowed user " + Text(followee))),
          t.(followsUsers := t.followsUsers - {(follower, Text(followee))}))
  }

  // ============================================================ handlers

  method FollowTopic(db: Store, username: string, body: Body) returns (resp: Response)
    requires db.Valid()
    modifies db
    ensures db.Valid()
    ensures (resp, db.Snapshot()) == FollowTopicSpec(old(db.Snapshot()), username, body)
  {
    var topicSlug := Field(body, "topicSlug");
    if username == "" || !Truthy(topicSlug) {
      return InvalidInput;
    }
    var userExists := db.CheckUserExists(username);
    var topicExists := db.CheckTopicExists(Text(topicSlug));
    if !userExists {
      return Forward(Rejection(404, "user not found"));
    }
    if !topicExists {
      return Forward(Rejection(404, "topic not found"));
    }
    var written := db.FollowTopicInDB(username, Text(topicSlug));
    assert written.Ok?;
    return Response(200, Msg("User " + username + " followed topic " + Text(topicSlug)));
  }

  method UnfollowTopic(db: Store, username: string, body: Body) returns (resp: Response)
    requires db.Valid()
    modifies db
    ensures db.Valid()
    ensures (resp, db.Snapshot()) == UnfollowTopicSpec(old(db.Snapshot()), username, body)
  {
    var topicSlug := Field(body, "topicSlug");
    if username == "" || !Truthy(topicSlug) {
      return InvalidInput;
    }
    var userExists := db.CheckUserExists(username);
    var topicExists := db.CheckTopicExists(Text(topicSlug));
    if !userExists {
      return Forward(Rejection(404, "user not found"));
    }
    if !topicExists {
      return Forward(Rejection(404, "topic not found"));
    }
    db.UnfollowTopicInDB(username, Text(topicSlug));
    return Response(200, Msg("User " + username + " unfollowed topic " + Text(topicSlug)));
  }

  method FollowUser(db: Store, follower: string, body: Body) returns (resp: Response)
    requires db.Valid()
    modifies db
    ensures db.Valid()
    ensures (resp, db.Snapshot()) == FollowUserSpec(old(db.Snapshot()), follower, body)
  {
    var followee := Field(body, "followeeUsername");
    if follower == "" || !Truthy(followee) {
      return InvalidInput;
    }
    var followerExists := db.CheckUserExists(follower);
    var followeeExists := db.CheckUserExists(Text(followee));
    if !followerExists || !followeeExists {
      return Forward(Rejection(404, "user not found"));
    }
    if followee == Str(follower) {
      return Forward(Rejection(400, "A user cannot follow themselves."));
    }
    var written := db.FollowUserInDB(follower, Text(followee));
    assert written.Ok?;
    return Response(200, Msg("User " + follower + " followed user " + Text(followee)));
  }

  method UnfollowUser(db: Store, follower: string, body: Body) returns (resp: Response)
    requires db.Valid()
    modifies db
    ensures db.Valid()
    ensures (resp, db.Snapshot()) == UnfollowUserSpec(old(db.Snapshot()), follower, body)
  {
    var followee := Field(body, "followeeUsername");
    if follower == "" || !Truthy(followee) {
      return InvalidInput;
    }
    var followerExists := db.CheckUserExists(follower);
    var followeeExists := db.CheckUserExists(Text(followee));
    if !followerExists || !followeeExists {
      return Forward(Rejection(404, "user not found"));
    }
    db.UnfollowUserInDB(follower, Text(followee));
    return Response(200, Msg("User " + follower + " unfollowed user " + Text(followee)));
  }

  // ============================================================ properties

  /**
   * A missing identifier is answered 400 "invalid input" whatever the tables
   * hold: no lookup decides it and nothing is written.
   */
  lemma MissingInputIsRejected(t: Tables, name: string, body: Body)
    ensures name == "" || !Truthy(Field(body, "topicSlug")) ==>
      FollowTopicSpec(t, name, body) == (InvalidInput, t) && UnfollowTopicSpec(t, name, body) == (InvalidInput, t)
    ensures name == "" || !Truthy(Field(body, "followeeUsername")) ==>
      FollowUserSpec(t, name, body) == (InvalidInput, t) && UnfollowUserSpec(t, name, body) == (InvalidInput, t)
  {
  }

  /** For topics, a missing user is reported even when the topic is missing too. */
  lemma UserCheckComesFirst(t: Tables, username: string, body: Body)
    requires username != "" && Truthy(Field(body, "topicSlug")) && !HasUser(t.users, username)
    ensures FollowTopicSpec(t, username, body).0 == UserNotFound
    ensures UnfollowTopicSpec(t, username, body).0 == UserNotFound
  {
  }

  /** A follow or unfollow of a topic succeeds exactly when every check passes; otherwise nothing changes. */
  lemma TopicWriteOnlyOnSuccess(t: Tables, username: string, body: Body)
    ensures var (resp, after) := FollowTopicSpec(t, username, body);
      (resp.status == 200 <==> username != "" && Truthy(Field(body, "topicSlug")) &&
                               HasUser(t.users, username) && HasTopic(t.topics, Text(Field(body, "topicSlug"))))
      && (resp.status != 200 ==> after == t)
    ensures var (resp, after) := UnfollowTopicSpec(t, username, body);
      (resp.status == 200 <==> username != "" && Truthy(Field(body, "topicSlug")) &&
                               HasUser(t.users, username) && HasTopic(t.topics, Text(Field(body, "topicSlug"))))
      && (resp.status != 200 ==> after == t)
  {
  }

  /** A user follow succeeds exactly when both users exist and they are not the same string. */
  lemma UserWriteOnlyOnSuccess(t: Tables, follower: string, body: Body)
    ensures var followee := Field(body, "followeeUsername");
      var (resp, after) := FollowUserSpec(t, follower, body);
      (resp.status == 200 <==> follower != "" && Truthy(followee) && HasUser(t.users, follower) &&
                               HasUser(t.users, Text(followee)) && followee != Str(follower))
      && (resp.status != 200 ==> after == t)
    ensures var followee := Field(body, "followeeUsername");
      var (resp, after) := UnfollowUserSpec(t, follower, body);
      (resp.status == 200 <==> follower != "" && Truthy(followee) && HasUser(t.users, follower) &&
                               HasUser(t.users, Text(followee)))
      && (resp.status != 200 ==> after == t)
  {
  }

  /** `ON CONFLICT DO NOTHING`: following a second time answers the same and changes nothing more. */
  lemma FollowTopicIdempotent(t: Tables, username: string, body: Body)
    ensures var (first, once) := FollowTopicSpec(t, username, body);
      FollowTopicSpec(once, username, body) == (first, once)
  {
    var (first, once) := FollowTopicSpec(t, username, body);
    var slug := Text(Field(body, "topicSlug"));
    if first.status == 200 {
      assert once.followsTopics + {(username, slug)} == once.followsTopics;
    }
  }

  lemma FollowUserIdempotent(t: Tables, follower: string, body: Body)
    ensures var (first, once) := FollowUserSpec(t, follower, body);
      FollowUserSpec(once, follower, body) == (first, once)
  {
    var (first, once) := FollowUserSpec(t, follower, body);
    var followee := Text(Field(body, "followeeUsername"));
    if first.status == 200 {
      assert once.followsUsers + {(follower, followee)} == once.followsUsers;
    }
  }

  /** Unfollowing removes exactly the named pair; when it was absent the tables stay as they were. */
  lemma UnfollowRemovesOnlyThePair(t: Tables, name: string, body: Body)
    ensures var (resp, after) := UnfollowTopicSpec(t, name, body);
      var pair := (name, Text(Field(body, "topicSlug")));
      && (resp.status == 200 ==> pair !in after.followsTopics &&
                                 forall q :: q in t.followsTopics && q != pair ==> q in after.followsTopics)
      && (pair !in t.followsTopics ==> after == t)
    ensures var (resp, after) := UnfollowUserSpec(t, name, body);
      var pair := (name, Text(Field(body, "followeeUsername")));
      && (resp.status == 200 ==> pair !in after.followsUsers &&
                                 forall q :: q in t.followsUsers && q != pair ==> q in after.followsUsers)
      && (pair !in t.followsUsers ==> after == t)
  {
    var (r1, a1) := UnfollowTopicSpec(t, name, body);
    var p1 := (name, Text(Field(body, "topicSlug")));
    if p1 !in t.followsTopics && r1.status == 200 {
      assert a1.followsTopics == t.followsTopics;
    }
    var (r2, a2) := UnfollowUserSpec(t, name, body);
    var p2 := (name, Text(Field(body, "followeeUsername")));
    if p2 !in t.followsUsers && r2.status == 200 {
      assert a2.followsUsers == t.followsUsers;
    }
  }

  /** A follow then an unfollow of a pair not followed before leaves the relation as it was. */
  lemma FollowThenUnfollowTopic(t: Tables, username: string, body: Body)
    requires FollowTopicSpec(t, username, body).0.status == 200
    requires (username, Text(Field(body, "topicSlug"))) !in t.followsTopics
    ensures UnfollowTopicSpec(FollowTopicSpec(t, username, body).1, username, body).1 == t
  {
    var slug := Text(Field(body, "topicSlug"));
    assert t.followsTopics + {(username, slug)} - {(username, slug)} == t.followsTopics;
  }

  /** The self-follow test runs after the existence tests: an unknown user following themselves gets 404. */
  lemma SelfFollowAfterExistence(t: Tables, follower: string)
    requires follower != ""
    ensures var body := map["followeeUsername" := Str(follower)];
      FollowUserSpec(t, follower, body).0 == (if HasUser(t.users, follower) then SelfFollow else UserNotFound)
  {
    var body := map["followeeUsername" := Str(follower)];
    assert Field(body, "followeeUsername") == Str(follower);
  }

  /** Unfollowing oneself passes: the handler has no self test. */
  lemma UnfollowSelfPasses(t: Tables, follower: string)
    requires follower != "" && HasUser(t.users, follower)
    ensures var body := map["followeeUsername" := Str(follower)];
      UnfollowUserSpec(t, follower, body).0.status == 200
  {
    var body := map["followeeUsername" := Str(follower)];
    assert Field(body, "followeeUsername") == Str(follower);
  }

  /**
   * `===` is strict: a followee sent as the JSON number 5 is not the route's
   * string "5", yet it is looked up and stored as "5"; user "5" then follows
   * itself.
   */
  lemma NumericSelfFollowPasses(t: Tables)
    requires HasUser(t.users, "5")
    ensures var (resp, after) := FollowUserSpec(t, "5", map["followeeUsername" := Num(5)]);
      resp.status == 200 && ("5", "5") in after.followsUsers
  {
    var body := map["followeeUsername" := Num(5)];
    assert Field(body, "followeeUsername") == Num(5);
    assert Text(Num(5)) == "5";
  }

  /**
   * With the intended test no request stores a self-follow, and on every body the
   * strict test already refuses it agrees with the as-written handler.
   */
  lemma IntendedNeverStoresSelfFollow(t: Tables, follower: string, body: Body, u: string)
    requires (u, u) !in t.followsUsers
    ensures (u, u) !in FollowUserIntendedSpec(t, follower, body).1.followsUsers
    ensures Field(body, "followeeUsername").Str? ==> FollowUserIntendedSpec(t, follower, body) == FollowUserSpec(t, follower, body)
  {
    var followee := Field(body, "followeeUsername");
    if followee.Str? {
      assert Text(followee) == followee.s;
      assert (Text(followee) == follower) == (followee == Str(follower));
    }
  }
}
