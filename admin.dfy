/** The admin router (Backend/routes/admin.js), mounted under /admin by both
    server revisions. Path parameters go through `parseInt`; NaN is a 400.
    Deleting a user leaves that user's ratings in place. */
module Admin {
  import opened Records
  import opened Queries
  import opened Store
  import opened Http
  import opened JsNumber

  /** GET /users: every user, in collection order. */
  function GetUsers(users: seq<User>): (r: Response)
    ensures r.status == 200 && r.body == UserList(users)
  {
    FindEverything(users);
    Json(UserList(Find(users, Everything())))
  }

  /** GET /users/:userId: the first user with that id and all of that user's ratings. */
  function GetUser(users: seq<User>, ratings: seq<Rating>, param: string): (r: Response)
    ensures ParseInt(param).None? ==> r == Error(400, "Invalid userId format")
    ensures ParseInt(param).Some? && !HasUserId(users, ParseInt(param).value) ==>
      r == Error(404, "User not found")
    ensures ParseInt(param).Some? && HasUserId(users, ParseInt(param).value) ==>
      var id := ParseInt(param).value;
      var i := FindIndex(users, UserIdIs(id)).value;
      && r.status == 200 && r.body.UserDetails?
      && r.body.user == users[i] && r.body.user.userId == id
      && (forall j :: 0 <= j < i ==> users[j].userId != id)
      && r.body.ratings == Find(ratings, ByUser(id))
      && (forall x :: x in r.body.ratings <==> x in ratings && x.userId == id)
  {
    match ParseInt(param)
    case None => Error(400, "Invalid userId format")
    case Some(userId) =>
      match FindOne(users, UserIdIs(userId))
      case None => Error(404, "User not found")
      case Some(user) =>
        var userRatings := Find(ratings, ByUser(userId));
        Json(UserDetails(user, userRatings))
  }

  /** DELETE /users/:userId as a function of the Users collection: the
      response and the collection afterwards. Only the first user with the
      id is removed. */
  function DeleteUserOutcome(users: seq<User>, param: string): (o: (Response, seq<User>))
    ensures ParseInt(param).None? ==> o == (Error(400, "Invalid userId format"), users)
    ensures ParseInt(param).Some? && !HasUserId(users, ParseInt(param).value) ==>
      o == (Error(404, "User not found"), users)
    ensures ParseInt(param).Some? && HasUserId(users, ParseInt(param).value) ==>
      var id := ParseInt(param).value;
      var i := FindIndex(users, UserIdIs(id)).value;
      && users[i].userId == id
      && o == (Json(UserDeleted("User deleted successfully", users[i])), RemoveAt(users, i))
  {
    match ParseInt(param)
    case None => (Error(400, "Invalid userId format"), users)
    case Some(userId) =>
      var (deletedUser, rest) := FindOneAndDelete(users, UserIdIs(userId));
      match deletedUser
      case None => (Error(404, "User not found"), users)
      case Some(u) => (Json(UserDeleted("User deleted successfully", u)), rest)
  }

  /** DELETE /users/:userId on the database. */
  method DeleteUser(db: Db, param: string) returns (res: Response)
    modifies db
    ensures (res, db.users) == DeleteUserOutcome(old(db.users), param)
    ensures db.ratings == old(db.ratings)
  {
    var userId := ParseInt(param);
    if userId.None? {
      return Error(400, "Invalid userId format");
    }
    var deletedUser := db.FindOneAndDeleteUser(userId.value);
    if deletedUser.None? {
      return Error(404, "User not found");
    }
    res := Json(UserDeleted("User deleted successfully", deletedUser.value));
  }

  /** DELETE /ratings/:ratingId as a function of the Ratings collection. Only
      the first rating with the id is removed. */
  function DeleteRatingOutcome(ratings: seq<Rating>, param: string): (o: (Response, seq<Rating>))
    ensures ParseInt(param).None? ==> o == (Error(400, "Invalid ratingId format"), ratings)
    ensures ParseInt(param).Some? && !HasRatingId(ratings, ParseInt(param).value) ==>
      o == (Error(404, "Rating not found"), ratings)
    ensures ParseInt(param).Some? && HasRatingId(ratings, ParseInt(param).value) ==>
      var id := ParseInt(param).value;
      var i := FindIndex(ratings, RatingIdIs(id)).value;
      && ratings[i].ratingId == id
      && o == (Json(RatingDeleted("Rating entry deleted successfully", ratings[i])), RemoveAt(ratings, i))
  {
    match ParseInt(param)
    case None => (Error(400, "Invalid ratingId format"), ratings)
    case Some(ratingId) =>
      var (deletedRating, rest) := FindOneAndDelete(ratings, RatingIdIs(ratingId));
      match deletedRating
      case None => (Error(404, "Rating not found"), ratings)
      case Some(r) => (Json(RatingDeleted("Rating entry deleted successfully", r)), rest)
  }

  /** DELETE /ratings/:ratingId on the database. */
  method DeleteRating(db: Db, param: string) returns (res: Response)
    modifies db
    ensures (res, db.ratings) == DeleteRatingOutcome(old(db.ratings), param)
    ensures db.users == old(db.users)
  {
    var ratingId := ParseInt(param);
    if ratingId.None? {
      return Error(400, "Invalid ratingId format");
    }
    var deletedRating := db.FindOneAndDeleteRating(ratingId.value);
    if deletedRating.None? {
      return Error(404, "Rating not found");
    }
    res := Json(RatingDeleted("Rating entry deleted successfully", deletedRating.value));
  }

  /** Taking one element out keeps the others pairwise distinct in their ids. */
  lemma RemoveKeepsUserIdsDistinct(users: seq<User>, i: nat)
    requires i < |users| && UserIdsDistinct(users)
    ensures UserIdsDistinct(RemoveAt(users, i))
  {
    var r := RemoveAt(users, i);
    forall a, b | 0 <= a < b < |r| ensures r[a].userId != r[b].userId {
      var a' := if a < i then a else a + 1;
      var b' := if b < i then b else b + 1;
      assert r[a] == users[a'] && r[b] == users[b'];
    }
  }

  /** With distinct userIds, once DELETE /users/:userId has removed a user a
      lookup of the same id is 404; the user's ratings are still in the store. */
  lemma DeleteThenGetUser(users: seq<User>, ratings: seq<Rating>, param: string)
    requires UserIdsDistinct(users)
    requires ParseInt(param).Some? && HasUserId(users, ParseInt(param).value)
    ensures GetUser(DeleteUserOutcome(users, param).1, ratings, param) == Error(404, "User not found")
  {
    var id := ParseInt(param).value;
    var i := FindIndex(users, UserIdIs(id)).value;
    var rest := RemoveAt(users, i);
    forall k | 0 <= k < |rest| ensures rest[k].userId != id {
      if k < i {
        assert rest[k] == users[k];
      } else {
        assert rest[k] == users[k + 1];
        assert users[i].userId == id;
      }
    }
  }

  /** Only the first match is removed: with two users under one id (which the
      count-based allocation can produce), the second is still found. */
  lemma DuplicateIdSurvivesDelete(a: User, b: User)
    requires a.userId == b.userId
    ensures var rest := FindOneAndDelete([a, b], UserIdIs(a.userId)).1;
      rest == [b] && GetUser(rest, [], IntToString(a.userId)).status == 200
  {
    ParseIntToString(a.userId);
    var rest := FindOneAndDelete([a, b], UserIdIs(a.userId)).1;
    assert rest == [b];
    assert HasUserId(rest, a.userId) by { assert rest[0].userId == a.userId; }
  }

  /** With distinct ratingIds, once DELETE /ratings/:ratingId has removed a
      rating no rating with that id is left, and the collection is one shorter. */
  lemma DeleteRatingThenGone(ratings: seq<Rating>, id: int)
    requires RatingIdsDistinct(ratings) && HasRatingId(ratings, id)
    ensures var rest := FindOneAndDelete(ratings, RatingIdIs(id)).1;
      !HasRatingId(rest, id) && |rest| == |ratings| - 1
  {
    var i := FindIndex(ratings, RatingIdIs(id)).value;
    var rest := RemoveAt(ratings, i);
    forall k | 0 <= k < |rest| ensures rest[k].ratingId != id {
      if k >= i {
        assert rest[k] == ratings[k + 1];
        assert ratings[i].ratingId == id;
      }
    }
  }
}
