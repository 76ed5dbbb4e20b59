/** The root revision of the backend (Backend/index.js): signup numbers
    users one past the largest userId and does not look for a registered
    email; ratings arrive at /showmore and are numbered `count + 101`. */
module Server {
  import opened Records
  import opened Queries
  import opened Store
  import opened Http
  import opened Bcrypt
  import Admin
  import JsNumber

  /** `Math.max(...users.map(user => user.userId))`. */
  function MaxUserId(users: seq<User>): (m: int)
    requires users != []
    ensures forall i :: 0 <= i < |users| ==> users[i].userId <= m
    ensures exists i :: 0 <= i < |users| && users[i].userId == m
    decreases |users|
  {
    if |users| == 1 then users[0].userId
    else
      var rest := MaxUserId(users[1..]);
      assert forall i :: 1 <= i < |users| ==> users[i] == users[1..][i - 1];
      if users[0].userId > rest then users[0].userId else rest
  }

  /** `existingUsers.length === 0 ? 1 : max + 1`. */
  function NextUserId(users: seq<User>): (id: int)
    ensures users == [] ==> id == 1
    ensures forall i :: 0 <= i < |users| ==> users[i].userId < id
    ensures users != [] ==> HasUserId(users, id - 1)
  {
    if |users| == 0 then 1 else MaxUserId(users) + 1
  }

  /** The user document POST /signup saves. */
  function NewUser(users: seq<User>, req: SignupRequest, h: Hasher): User {
    User(NextUserId(users), req.username, req.email, Hash(h, req.password))
  }

  /** POST /signup as a function of the Users collection. It always succeeds;
      the new userId is above every stored one, so distinct ids stay distinct. */
  function SignupOutcome(users: seq<User>, req: SignupRequest, h: Hasher): (o: (Response, seq<User>))
    ensures |o.1| == |users| + 1 && o.1[..|users|] == users
    ensures var u := o.1[|users|];
      && (forall i :: 0 <= i < |users| ==> users[i].userId < u.userId)
      && (users == [] ==> u.userId == 1)
      && (users != [] ==> HasUserId(users, u.userId - 1))
      && u.username == req.username && u.email == req.email
      && Compare(h, req.password, u.password)
      && o.0 == Response(201, UserCreated("User created successfully", u.userId))
    ensures UserIdsDistinct(users) ==> UserIdsDistinct(o.1)
  {
    var u := NewUser(users, req, h);
    assert (users + [u])[..|users|] == users;
    (Response(201, UserCreated("User created successfully", u.userId)), users + [u])
  }

  /** POST /signup on the database. */
  method Signup(db: Db, req: SignupRequest, h: Hasher) returns (res: Response)
    modifies db
    ensures (res, db.users) == SignupOutcome(old(db.users), req, h)
    ensures db.ratings == old(db.ratings)
  {
    var existingUsers := Find(db.users, Everything());
    FindEverything(db.users);
    var userId := if |existingUsers| == 0 then 1 else MaxUserId(existingUsers) + 1;
    var hashedPassword := Hash(h, req.password);
    ghost var u := NewUser(db.users, req, h);
    assert User(userId, req.username, req.email, hashedPassword) == u;
    db.SaveUser(User(userId, req.username, req.email, hashedPassword));
    res := Response(201, UserCreated("User created successfully", userId));
  }

  /** POST /signin: one 401 branch for "no such email" and "password does not match". */
  function Signin(users: seq<User>, req: SigninRequest, h: Hasher): (r: Response)
    ensures r.status == 200 <==>
      HasEmail(users, req.email) && Compare(h, req.password, FindOne(users, EmailIs(req.email)).value.password)
    ensures r.status == 200 ==>
      var u := FindOne(users, EmailIs(req.email)).value;
      r.body == LoginSucceeded("Login successful", u.username, u.userId)
    ensures r.status != 200 ==> r == Error(401, "Invalid credentials")
  {
    var user := FindOne(users, EmailIs(req.email));
    if user.None? || !Compare(h, req.password, user.value.password) then
      Error(401, "Invalid credentials")
    else
      Response(200, LoginSucceeded("Login successful", user.value.username, user.value.userId))
  }

  /** `{ ...req.body, ratingId }`: the body's fields with the server's ratingId on top. */
  function Spread(body: RatingRequest, ratingId: int): Rating {
    Rating(ratingId, body.userId, body.username, body.rating, body.moviename,
           body.comment, body.mediaType, body.mediaId, body.day, body.month, body.year)
  }

  /** POST /showmore as a function of the Ratings collection: any ratingId in
      the body is overridden by count + 101. */
  function ShowMoreOutcome(ratings: seq<Rating>, body: RatingRequest): (o: (Response, seq<Rating>))
    ensures |o.1| == |ratings| + 1 && o.1[..|ratings|] == ratings
    ensures var r := o.1[|ratings|];
      && r.ratingId == |ratings| + 101
      && r.userId == body.userId && r.username == body.username && r.rating == body.rating
      && r.moviename == body.moviename && r.comment == body.comment
      && r.mediaType == body.mediaType && r.mediaId == body.mediaId
      && r.day == body.day && r.month == body.month && r.year == body.year
    ensures o.0 == Response(201, RatingCreated("Rating saved successfully", |ratings| + 101))
  {
    var ratingId := |ratings| + 101;
    var r := Spread(body, ratingId);
    assert (ratings + [r])[..|ratings|] == ratings;
    (Response(201, RatingCreated("Rating saved successfully", ratingId)), ratings + [r])
  }

  /** POST /showmore on the database. */
  method ShowMore(db: Db, body: RatingRequest) returns (res: Response)
    modifies db
    ensures (res, db.ratings) == ShowMoreOutcome(old(db.ratings), body)
    ensures db.users == old(db.users)
  {
    var ratingId := |db.ratings| + 101;
    db.SaveRating(Spread(body, ratingId));
    res := Response(201, RatingCreated("Rating saved successfully", ratingId));
  }

  /** GET /api/authenticated: always authenticated, no check at all. */
  function Authenticated(): (r: Response)
    ensures r.status == 200 && r.body == AuthStatus(true)
  {
    Json(AuthStatus(true))
  }

  /** GET /ratings?mediaId=m: the ratings for m in collection order (no check
      that m is present or non-empty). */
  function GetRatings(ratings: seq<Rating>, mediaId: string): (r: Response)
    ensures r.status == 200 && r.body.RatingList?
    ensures r.body.ratings == Find(ratings, ForMedia(mediaId))
    ensures forall x :: x in r.body.ratings <==> x in ratings && x.mediaId == mediaId
  {
    Json(RatingList(Find(ratings, ForMedia(mediaId))))
  }

  // ---------------------------------------------------------------------
  // Properties relating several requests

  /** The requests that change the Users collection. */
  datatype UserRequest = SignupReq(req: SignupRequest) | DeleteUserReq(param: string)

  /** The Users collection after a run of signups and admin user deletions. */
  function RunUsers(users: seq<User>, reqs: seq<UserRequest>, h: Hasher): seq<User>
    decreases |reqs|
  {
    if reqs == [] then users
    else
      var users' := match reqs[0]
        case SignupReq(req) => SignupOutcome(users, req, h).1
        case DeleteUserReq(param) => Admin.DeleteUserOutcome(users, param).1;
      RunUsers(users', reqs[1..], h)
  }

  /** With max + 1 numbering, userIds stay pairwise distinct through any mix
      of signups and deletions. */
  lemma {:induction false} RunKeepsUserIdsDistinct(users: seq<User>, reqs: seq<UserRequest>, h: Hasher)
    requires UserIdsDistinct(users)
    ensures UserIdsDistinct(RunUsers(users, reqs, h))
    decreases |reqs|
  {
    if reqs != [] {
      match reqs[0]
      case SignupReq(req) =>
        RunKeepsUserIdsDistinct(SignupOutcome(users, req, h).1, reqs[1..], h);
      case DeleteUserReq(param) =>
        var id := JsNumber.ParseInt(param);
        if id.Some? && HasUserId(users, id.value) {
          Admin.RemoveKeepsUserIdsDistinct(users, FindIndex(users, UserIdIs(id.value)).value);
        }
        RunKeepsUserIdsDistinct(Admin.DeleteUserOutcome(users, param).1, reqs[1..], h);
    }
  }

  /** Signin on a collection whose first user with the email is `u`, when the
      password does not match `u`'s digest, is the 401. */
  lemma SigninChecksFirstAccount(users: seq<User>, u: User, rest: seq<User>, req: SigninRequest, h: Hasher)
    requires !HasEmail(users, req.email) && u.email == req.email
    requires !Compare(h, req.password, u.password)
    ensures Signin(users + [u] + rest, req, h) == Error(401, "Invalid credentials")
  {
    var all := users + [u] + rest;
    assert all[|users|] == u;
    assert forall k :: 0 <= k < |users| ==> all[k] == users[k];
    assert FindIndex(all, EmailIs(req.email)) == Some(|users|);
  }

  /** No email check: a second signup with a registered email is stored too,
      and when its password differs, signing in with it fails because
      signin checks the first account. */
  lemma SecondAccountShadowed(users: seq<User>, first: SignupRequest, second: SignupRequest, h: Hasher)
    requires first.email == second.email && !HasEmail(users, first.email)
    requires !Compare(h, second.password, Hash(h, first.password))
    ensures var users' := SignupOutcome(SignupOutcome(users, first, h).1, second, h).1;
      && |users'| == |users| + 2
      && !EmailsDistinct(users')
      && Signin(users', SigninRequest(second.email, second.password), h) == Error(401, "Invalid credentials")
  {
    var u1 := NewUser(users, first, h);
    var u2 := NewUser(users + [u1], second, h);
    assert SignupOutcome(SignupOutcome(users, first, h).1, second, h).1 == users + [u1] + [u2];
    assert (users + [u1] + [u2])[|users|] == u1;
    assert (users + [u1] + [u2])[|users| + 1] == u2;
    SigninChecksFirstAccount(users, u1, [u2], SigninRequest(second.email, second.password), h);
  }

  /** Deleting user 2 of users 1 and 2 and signing up again makes a new user 2. */
  lemma SignupAfterDeletingNewest(a: User, b: User, req: SignupRequest, h: Hasher)
    requires a.userId == 1 && b.userId == 2
    ensures var users' := SignupOutcome(FindOneAndDelete([a, b], UserIdIs(2)).1, req, h).1;
      users' == [a, NewUser([a], req, h)] && users'[1].userId == 2
  {
    assert FindIndex([a, b], UserIdIs(2)) == Some(1);
    assert RemoveAt([a, b], 1) == [a];
    var users' := SignupOutcome([a], req, h).1;
    assert users'[0] == a;
  }

  /** GET /admin/users/:id on two users with different ids shows the second
      with the ratings filed under its id. */
  lemma LookupShowsRatingsOfId(a: User, u: User, r: Rating)
    requires a.userId != u.userId && r.userId == u.userId
    ensures Admin.GetUser([a, u], [r], JsNumber.IntToString(u.userId)) == Json(UserDetails(u, [r]))
  {
    var param := JsNumber.IntToString(u.userId);
    var users := [a, u];
    assert JsNumber.ParseInt(param) == Some(u.userId) by { JsNumber.ParseIntToString(u.userId); }
    assert FindIndex(users, UserIdIs(u.userId)) == Some(1) by {
      assert !UserIdIs(u.userId)(users[0]);
      assert FindIndex(users[1..], UserIdIs(u.userId)) == Some(0);
    }
    assert Find([r], ByUser(u.userId)) == [r] by { assert [r][1..] == []; }
    var g := Admin.GetUser(users, [r], param);
    assert g.status == 200 && g.body == UserDetails(u, [r]);
  }

  /** With users 1 and 2, deleting user 2 hands id 2 to the next signup,
      since max + 1 now sees 1 as the largest id; deletion left user 2's
      rating in place, so the new account is shown with it. */
  lemma DeletedNewestIdReused(a: User, b: User, r: Rating, req: SignupRequest, h: Hasher)
    requires a.userId == 1 && b.userId == 2 && r.userId == 2
    ensures var users' := SignupOutcome(FindOneAndDelete([a, b], UserIdIs(2)).1, req, h).1;
      && users'[1].userId == 2
      && Admin.GetUser(users', [r], JsNumber.IntToString(2)) == Json(UserDetails(users'[1], [r]))
  {
    SignupAfterDeletingNewest(a, b, req, h);
    LookupShowsRatingsOfId(a, NewUser([a], req, h), r);
  }
}
