/** How the two backend revisions relate, and the end-to-end walk through
    the serverless revision with the admin router. */
module Revisions {
  import opened Records
  import opened Queries
  import opened Store
  import opened Http
  import opened Bcrypt
  import ApiServer
  import Server
  import Admin
  import JsNumber

  /** Both signin handlers answer every request alike. */
  lemma SigninRevisionsAgree(users: seq<User>, req: SigninRequest, h: Hasher)
    ensures ApiServer.Signin(users, req, h) == Server.Signin(users, req, h)
  {
  }

  /** POST /ratings and POST /showmore store the same document and answer
      alike, for request bodies made of the rating fields alone (a body's
      `_id` or `__v`, which only /showmore would keep, is not modelled). */
  lemma RatingRevisionsAgree(ratings: seq<Rating>, req: RatingRequest)
    ensures ApiServer.PostRatingOutcome(ratings, req) == Server.ShowMoreOutcome(ratings, req)
  {
  }

  /** The two GET /ratings handlers agree whenever a non-empty mediaId is given. */
  lemma ListRevisionsAgree(ratings: seq<Rating>, mediaId: string)
    requires mediaId != ""
    ensures ApiServer.GetRatings(ratings, Some(mediaId)) == Server.GetRatings(ratings, mediaId)
  {
  }

  /** On dense userIds the largest id is the count. */
  lemma {:induction false} MaxOfDense(users: seq<User>)
    requires users != [] && ApiServer.DenseUserIds(users)
    ensures Server.MaxUserId(users) == |users|
  {
    var m := Server.MaxUserId(users);
    assert users[|users| - 1].userId == |users|;
    var i :| 0 <= i < |users| && users[i].userId == m;
  }

  /** While no user has been deleted (ids dense) and the email is fresh, the
      two signup handlers give the same response and the same collection
      (the same digest too, since `Hash` is deterministic). */
  lemma SignupRevisionsAgreeWhenDense(users: seq<User>, req: SignupRequest, h: Hasher)
    requires ApiServer.DenseUserIds(users) && !HasEmail(users, req.email)
    ensures ApiServer.SignupOutcome(users, req, h) == Server.SignupOutcome(users, req, h)
  {
    if users != [] { MaxOfDense(users); }
    assert FindOne(users, EmailIs(req.email)).None?;
  }

  /** With a registered email they part ways: one refuses, the other stores a
      second account. */
  lemma SignupRevisionsDisagreeOnDuplicate(users: seq<User>, req: SignupRequest, h: Hasher)
    requires HasEmail(users, req.email)
    ensures ApiServer.SignupOutcome(users, req, h).0.status == 400
    ensures Server.SignupOutcome(users, req, h).0.status == 201
    ensures |Server.SignupOutcome(users, req, h).1| == |users| + 1
  {
  }

  /** A client session against the serverless revision: two signups, a wrong
      and a right password, a rating, and the admin deleting the rater. The
      rating outlives its author. */
  method Session(h: Hasher)
    requires !Compare(h, "wrong", Hash(h, "pw"))
  {
    var db := new Db();
    var r := ApiServer.Signup(db, SignupRequest("alice", "a@x.com", "pw"), h);
    assert r == Response(201, UserCreated("User created successfully", 1));
    r := ApiServer.Signup(db, SignupRequest("bob", "b@x.com", "pw"), h);
    assert r == Response(201, UserCreated("User created successfully", 2));
    assert db.users[0].email == "a@x.com" && db.users[1].email == "b@x.com";

    r := ApiServer.Signup(db, SignupRequest("eve", "a@x.com", "other"), h);
    assert r == Error(400, "Email already registered");
    assert |db.users| == 2;

    r := ApiServer.Signin(db.users, SigninRequest("a@x.com", "wrong"), h);
    assert r == Error(401, "Invalid credentials");
    r := ApiServer.Signin(db.users, SigninRequest("nobody@x.com", "pw"), h);
    assert r == Error(401, "Invalid credentials");
    r := ApiServer.Signin(db.users, SigninRequest("a@x.com", "pw"), h);
    assert r == Response(200, LoginSucceeded("Login successful", "alice", 1));

    var req := RatingRequest(None, 1, "alice", 7, "X", "good", "movie", "42", 1, 2, 2024);
    r := ApiServer.PostRating(db, req);
    assert r == Response(201, RatingCreated("Rating saved successfully", 101));
    var stored := db.ratings[0];
    assert db.ratings == [stored];
    assert Find([stored], ForMedia("42")) == [stored] by { assert [stored][1..] == []; }
    r := ApiServer.GetRatings(db.ratings, Some("42"));
    assert r == Json(RatingList([stored]));

    assert JsNumber.ParseInt("1") == Some(1) by {
      JsNumber.ParseIntDigit(1);
      assert [JsNumber.DigitChar(1)] == "1";
    }
    assert db.users[0].userId == 1;
    r := Admin.DeleteUser(db, "1");
    assert r.status == 200 && |db.users| == 1;
    r := ApiServer.GetRatings(db.ratings, Some("42"));
    assert r == Json(RatingList([stored]));
  }
}
