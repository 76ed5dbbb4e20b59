/** The serverless revision of the backend (Backend/api/index.js): signup
    rejects a registered email and numbers users `count + 1`; ratings are
    numbered `count + 101`; GET /ratings demands a mediaId. */
module ApiServer {
  import opened Records
  import opened Queries
  import opened Store
  import opened Http
  import opened Bcrypt

  /** `UserModel.countDocuments() + 1`. */
  function NextUserId(users: seq<User>): int { |users| + 1 }

  /** `RatingModel.countDocuments() + 101`. */
  function NextRatingId(ratings: seq<Rating>): int { |ratings| + 101 }

  /** The user document POST /signup saves. */
  function NewUser(users: seq<User>, req: SignupRequest, h: Hasher): User {
    User(NextUserId(users), req.username, req.email, Hash(h, req.password))
  }

  /** POST /signup as a function of the Users collection: the response and the new collection. */
  function SignupOutcome(users: seq<User>, req: SignupRequest, h: Hasher): (o: (Response, seq<User>))
    ensures HasEmail(users, req.email) ==> o == (Error(400, "Email already registered"), users)
    ensures !HasEmail(users, req.email) ==>
      && |o.1| == |users| + 1 && o.1[..|users|] == users
      && o.1[|users|].userId == |users| + 1
      && o.1[|users|].username == req.username && o.1[|users|].email == req.email
      && Compare(h, req.password, o.1[|users|].password)
      && o.0 == Response(201, UserCreated("User created successfully", |users| + 1))
    ensures EmailsDistinct(users) ==> EmailsDistinct(o.1)
  {
    match FindOne(users, EmailIs(req.email))
    case Some(_) => (Error(400, "Email already registered"), users)
    case None =>
      var u := NewUser(users, req, h);
      assert (users + [u])[..|users|] == users;
      assert forall i :: 0 <= i < |users| ==> users[i].email != u.email by {
        forall i | 0 <= i < |users| ensures users[i].email != u.email {
          assert users[i] in users;
        }
      }
      (Response(201, UserCreated("User created successfully", u.userId)), users + [u])
  }

  /** POST /signup on the database. */
  method Signup(db: Db, req: SignupRequest, h: Hasher) returns (res: Response)
    modifies db
    ensures (res, db.users) == SignupOutcome(old(db.users), req, h)
    ensures db.ratings == old(db.ratings)
  {
    var existingUser := FindOne(db.users, EmailIs(req.email));
    if existingUser.Some? {
      return Error(400, "Email already registered");
    }
    var userId := NextUserId(db.users);
    var hashedPassword := Hash(h, req.password);
    db.SaveUser(User(userId, req.username, req.email, hashedPassword));
    res := Response(201, UserCreated("User created successfully", userId));
  }

  /** POST /signin: checks the password of the first user with that email.
      An unknown email and a wrong password give the same 401. */
  function Signin(users: seq<User>, req: SigninRequest, h: Hasher): (r: Response)
    ensures r.status == 200 <==>
      HasEmail(users, req.email) && Compare(h, req.password, FindOne(users, EmailIs(req.email)).value.password)
    ensures r.status == 200 ==>
      var u := FindOne(users, EmailIs(req.email)).value;
      r.body == LoginSucceeded("Login successful", u.username, u.userId)
    ensures r.status != 200 ==> r == Error(401, "Invalid credentials")
  {
    match FindOne(users, EmailIs(req.email))
    case None => Error(401, "Invalid credentials")
    case Some(user) =>
      if !Compare(h, req.password, user.password) then Error(401, "Invalid credentials")
      else Response(200, LoginSucceeded("Login successful", user.username, user.userId))
  }

  /** The rating document POST /ratings saves: the listed body fields, and
      the server's ratingId. */
  function NewRating(ratings: seq<Rating>, req: RatingRequest): Rating {
    Rating(NextRatingId(ratings), req.userId, req.username, req.rating, req.moviename,
           req.comment, req.mediaType, req.mediaId, req.day, req.month, req.year)
  }

  /** POST /ratings as a function of the Ratings collection. */
  function PostRatingOutcome(ratings: seq<Rating>, req: RatingRequest): (o: (Response, seq<Rating>))
    ensures |o.1| == |ratings| + 1 && o.1[..|ratings|] == ratings
    ensures var r := o.1[|ratings|];
      && r.ratingId == |ratings| + 101
      && r.userId == req.userId && r.username == req.username && r.rating == req.rating
      && r.moviename == req.moviename && r.comment == req.comment
      && r.mediaType == req.mediaType && r.mediaId == req.mediaId
      && r.day == req.day && r.month == req.month && r.year == req.year
    ensures o.0 == Response(201, RatingCreated("Rating saved successfully", |ratings| + 101))
  {
    var r := NewRating(ratings, req);
    assert (ratings + [r])[..|ratings|] == ratings;
    (Response(201, RatingCreated("Rating saved successfully", r.ratingId)), ratings + [r])
  }

  /** POST /ratings on the database. */
  method PostRating(db: Db, req: RatingRequest) returns (res: Response)
    modifies db
    ensures (res, db.ratings) == PostRatingOutcome(old(db.ratings), req)
    ensures db.users == old(db.users)
  {
    var ratingId := NextRatingId(db.ratings);
    db.SaveRating(Rating(ratingId, req.userId, req.username, req.rating, req.moviename,
                         req.comment, req.mediaType, req.mediaId, req.day, req.month, req.year));
    res := Response(201, RatingCreated("Rating saved successfully", ratingId));
  }

  /** GET /ratings?mediaId=m: a missing or empty mediaId is a 400; otherwise
      the ratings for m in collection order. */
  function GetRatings(ratings: seq<Rating>, mediaId: Option<string>): (r: Response)
    ensures mediaId == None || mediaId == Some("") ==> r == Error(400, "Media ID is required")
    ensures mediaId.Some? && mediaId.value != "" ==>
      && r.status == 200 && r.body.RatingList?
      && r.body.ratings == Find(ratings, ForMedia(mediaId.value))
      && (forall x :: x in r.body.ratings <==> x in ratings && x.mediaId == mediaId.value)
  {
    if mediaId.None? || mediaId.value == "" then Error(400, "Media ID is required")
    else Json(RatingList(Find(ratings, ForMedia(mediaId.value))))
  }

  // ---------------------------------------------------------------------
  // Properties relating several requests

  /** After a successful signup, signing in with the same email and password
      succeeds and names the new account. */
  lemma SignupThenSignin(users: seq<User>, req: SignupRequest, h: Hasher)
    requires !HasEmail(users, req.email)
    ensures var users' := SignupOutcome(users, req, h).1;
      Signin(users', SigninRequest(req.email, req.password), h)
        == Response(200, LoginSucceeded("Login successful", req.username, |users| + 1))
  {
    var users' := SignupOutcome(users, req, h).1;
    var i := FindIndex(users', EmailIs(req.email));
    assert users'[|users|].email == req.email;
  }

  /** A submitted rating is listed by GET /ratings for its media item, after
      the ones already there. */
  lemma PostThenList(ratings: seq<Rating>, req: RatingRequest)
    requires req.mediaId != ""
    ensures var ratings' := PostRatingOutcome(ratings, req).1;
      GetRatings(ratings', Some(req.mediaId)).body.ratings
        == Find(ratings, ForMedia(req.mediaId)) + [NewRating(ratings, req)]
  {
    var r := NewRating(ratings, req);
    FindAppend(ratings, [r], ForMedia(req.mediaId));
    assert Find([r], ForMedia(req.mediaId)) == [r] by {
      assert [r][1..] == [];
    }
  }

  /** userIds are dense when the k-th user (from 0) has id k + 1, as a run of
      signups with no deletions leaves them. */
  predicate DenseUserIds(users: seq<User>) {
    forall k :: 0 <= k < |users| ==> users[k].userId == k + 1
  }

  /** Dense ids are distinct, and a signup keeps them dense. */
  lemma SignupKeepsDense(users: seq<User>, req: SignupRequest, h: Hasher)
    requires DenseUserIds(users)
    ensures UserIdsDistinct(users)
    ensures DenseUserIds(SignupOutcome(users, req, h).1)
  {
    var users' := SignupOutcome(users, req, h).1;
    if !HasEmail(users, req.email) {
      forall k | 0 <= k < |users'| ensures users'[k].userId == k + 1 {
        if k < |users| { assert users'[k] == users'[..|users|][k]; }
      }
    }
  }

  /** A run of signups, in order: the final Users collection and the responses. */
  function SignupAll(users: seq<User>, reqs: seq<SignupRequest>, h: Hasher): (seq<User>, seq<Response>)
    decreases |reqs|
  {
    if reqs == [] then (users, [])
    else
      var (r, users') := SignupOutcome(users, reqs[0], h);
      var (final, rs) := SignupAll(users', reqs[1..], h);
      (final, [r] + rs)
  }

  /** Emails of a batch of signup requests are pairwise distinct and none is registered yet. */
  predicate FreshEmails(users: seq<User>, reqs: seq<SignupRequest>) {
    && (forall i, j :: 0 <= i < j < |reqs| ==> reqs[i].email != reqs[j].email)
    && (forall k :: 0 <= k < |reqs| ==> !HasEmail(users, reqs[k].email))
  }

  /** The first signup of a fresh batch leaves the rest of the batch fresh. */
  lemma FreshAfterFirst(users: seq<User>, reqs: seq<SignupRequest>, h: Hasher)
    requires FreshEmails(users, reqs) && reqs != []
    ensures FreshEmails(SignupOutcome(users, reqs[0], h).1, reqs[1..])
  {
    var users' := SignupOutcome(users, reqs[0], h).1;
    var rest := reqs[1..];
    assert !HasEmail(users, reqs[0].email);
    forall k | 0 <= k < |rest| ensures !HasEmail(users', rest[k].email) {
      assert rest[k] == reqs[k + 1];
    }
  }

  /** A signup with an unregistered email appends `NewUser`. */
  lemma SignupFresh(users: seq<User>, req: SignupRequest, h: Hasher)
    requires !HasEmail(users, req.email)
    ensures SignupOutcome(users, req, h)
      == (Response(201, UserCreated("User created successfully", |users| + 1)), users + [NewUser(users, req, h)])
  {
    assert FindOne(users, EmailIs(req.email)).None?;
  }

  /** Signups with fresh, distinct emails keep the existing users and number
      the new ones consecutively after the current count. */
  lemma {:induction false} SignupAllUsers(users: seq<User>, reqs: seq<SignupRequest>, h: Hasher)
    requires FreshEmails(users, reqs)
    ensures var final := SignupAll(users, reqs, h).0;
      && |final| == |users| + |reqs| && final[..|users|] == users
      && (forall j :: |users| <= j < |final| ==> final[j].userId == j + 1)
    decreases |reqs|
  {
    if reqs != [] {
      var users' := users + [NewUser(users, reqs[0], h)];
      SignupFresh(users, reqs[0], h);
      FreshAfterFirst(users, reqs, h);
      SignupAllUsers(users', reqs[1..], h);
      var final := SignupAll(users', reqs[1..], h).0;
      assert SignupAll(users, reqs, h).0 == final;
      assert final[..|users|] == final[..|users'|][..|users|];
      forall j | |users| <= j < |final| ensures final[j].userId == j + 1 {
        if j == |users| { assert final[j] == final[..|users'|][|users|]; }
      }
    }
  }

  /** Signups with fresh, distinct emails all succeed, and the k-th is told
      userId count+k+1. */
  lemma {:induction false} SignupAllResponses(users: seq<User>, reqs: seq<SignupRequest>, h: Hasher)
    requires FreshEmails(users, reqs)
    ensures var rs := SignupAll(users, reqs, h).1;
      && |rs| == |reqs|
      && (forall k :: 0 <= k < |rs| ==>
            rs[k] == Response(201, UserCreated("User created successfully", |users| + k + 1)))
    decreases |reqs|
  {
    if reqs != [] {
      var users' := users + [NewUser(users, reqs[0], h)];
      SignupFresh(users, reqs[0], h);
      FreshAfterFirst(users, reqs, h);
      SignupAllResponses(users', reqs[1..], h);
      var rs' := SignupAll(users', reqs[1..], h).1;
      var r := Response(201, UserCreated("User created successfully", |users| + 1));
      assert SignupAll(users, reqs, h).1 == [r] + rs';
      forall k | 0 <= k < |rs'| + 1
        ensures ([r] + rs')[k] == Response(201, UserCreated("User created successfully", |users| + k + 1))
      {
        if k > 0 { assert ([r] + rs')[k] == rs'[k - 1]; }
      }
    }
  }

  /** From an empty store, n signups with distinct emails get userIds 1..n in order. */
  lemma SignupsFromEmpty(reqs: seq<SignupRequest>, h: Hasher)
    requires forall i, j :: 0 <= i < j < |reqs| ==> reqs[i].email != reqs[j].email
    ensures var (final, rs) := SignupAll([], reqs, h);
      && |final| == |reqs| && |rs| == |reqs| && DenseUserIds(final)
      && (forall k :: 0 <= k < |rs| ==> rs[k] == Response(201, UserCreated("User created successfully", k + 1)))
  {
    SignupAllUsers([], reqs, h);
    SignupAllResponses([], reqs, h);
  }

  /** A run of rating submissions, in order. */
  function PostAll(ratings: seq<Rating>, reqs: seq<RatingRequest>): (seq<Rating>, seq<Response>)
    decreases |reqs|
  {
    if reqs == [] then (ratings, [])
    else
      var (r, ratings') := PostRatingOutcome(ratings, reqs[0]);
      var (final, rs) := PostAll(ratings', reqs[1..]);
      (final, [r] + rs)
  }

  /** Submissions number the new ratings consecutively from count + 101. */
  lemma {:induction false} PostAllNumbers(ratings: seq<Rating>, reqs: seq<RatingRequest>)
    ensures var (final, rs) := PostAll(ratings, reqs);
      && |final| == |ratings| + |reqs| && final[..|ratings|] == ratings && |rs| == |reqs|
      && (forall j :: |ratings| <= j < |final| ==> final[j].ratingId == j + 101)
      && (forall k :: 0 <= k < |rs| ==>
            rs[k] == Response(201, RatingCreated("Rating saved successfully", |ratings| + k + 101)))
    decreases |reqs|
  {
    if reqs != [] {
      var (r, ratings') := PostRatingOutcome(ratings, reqs[0]);
      PostAllNumbers(ratings', reqs[1..]);
      var (final, rs) := PostAll(ratings', reqs[1..]);
      assert final[..|ratings|] == final[..|ratings'|][..|ratings|];
      assert final[|ratings|] == final[..|ratings'|][|ratings|];
    }
  }

  /** From an empty Ratings collection, n submissions get 101, 102, ... in order. */
  lemma PostsFromEmpty(reqs: seq<RatingRequest>)
    ensures var (final, rs) := PostAll([], reqs);
      && |final| == |reqs|
      && (forall k :: 0 <= k < |reqs| ==> final[k].ratingId == k + 101)
  {
    PostAllNumbers([], reqs);
  }

  /** Counting is not enough once a user has been deleted: with users 1 and 2,
      deleting user 1 and signing up again hands out 2 a second time. */
  lemma CountIdReusedAfterDelete(a: User, b: User, req: SignupRequest, h: Hasher)
    requires a.userId == 1 && b.userId == 2 && b.email != req.email
    ensures var users' := SignupOutcome(RemoveAt([a, b], 0), req, h).1;
      users' == [b, NewUser([b], req, h)] && !UserIdsDistinct(users')
  {
    assert RemoveAt([a, b], 0) == [b];
    assert !HasEmail([b], req.email);
    var users' := SignupOutcome([b], req, h).1;
    assert users'[0] == b;
  }

  /** The same with ratings: with ratings 101 and 102, deleting 101 and
      submitting again hands out 102 a second time. */
  lemma CountRatingIdReusedAfterDelete(a: Rating, b: Rating, req: RatingRequest)
    requires a.ratingId == 101 && b.ratingId == 102
    ensures var ratings' := PostRatingOutcome(RemoveAt([a, b], 0), req).1;
      !RatingIdsDistinct(ratings')
  {
    assert RemoveAt([a, b], 0) == [b];
    var ratings' := PostRatingOutcome([b], req).1;
    assert ratings'[0] == b && ratings'[1].ratingId == 102;
  }
}
