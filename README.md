# Movie-Rating backend, modelled in Dafny

This project models the Express backend of a movie/series rating service. Users sign up and sign in. They submit ratings tied to a media item and list the ratings of an item. An administrator lists users, looks at one user together with that user's ratings, and deletes users and ratings.

The backend keeps two MongoDB collections, Users and Ratings. Here they are the class `Store.Db`, which holds two sequences in insertion order. The Mongoose calls become operations on a sequence (module `Queries`):
- `findOne` is the first match (`FindIndex`, `FindOne`);
- `find` is an order-keeping filter (`Find`);
- `countDocuments` is the length `|s|`;
- `findOneAndDelete` removes the first match and returns it (`FindOneAndDelete`).

A query such as `{ email }` is a predicate on documents (`EmailIs`, `UserIdIs`, ...).

There are two revisions of the server, and they differ:

| | `Backend/api/index.js` (module `ApiServer`) | `Backend/index.js` (module `Server`) |
|---|---|---|
| userId of a new user | count + 1 | largest userId + 1 (1 when empty) |
| ratingId of a new rating | count + 101 | count + 101 |
| registered email on signup | refused with 400 | stored as a second account |
| rating route | POST /ratings (listed body fields) | POST /showmore (body spread, server ratingId on top) |
| GET /ratings without mediaId | 400 | not modelled (see below) |

Both revisions mount the admin router (`Backend/routes/admin.js`, module `Admin`). That router's path parameters go through JavaScript's `parseInt`. Module `JsNumber` models `parseInt` with no radix argument as section 19.2.5 of ECMAScript 2023 defines it:
- leading white space and line terminators are skipped;
- an optional sign is read;
- a "0x"/"0X" prefix selects radix 16;
- the longest run of digits is read;
- no digits is NaN, which the model writes as `None` and the handler answers with 400.

Deleting a user does not delete that user's ratings.

bcrypt is abstract (module `Bcrypt`). A `Hasher` carries some digest function `h.digest`. `Hash(h, p)` is `h.digest(p)`, and `Compare(h, p, s)` holds exactly when `s` is `h.digest(p)`. So hashing is deterministic here and each password has exactly one accepted digest, while the real `bcrypt.hash(password, 10)` draws a fresh salt on every call (see "Left out").

A handler that only reads is a function of the sequences, so it cannot change the store. A handler that writes is a method that modifies a `Db`. Each writing method is tied to a function of the old collection (`SignupOutcome`, `PostRatingOutcome`, `ShowMoreOutcome`) or `DeleteUserOutcome`, `DeleteRatingOutcome` for the admin deletes. Lemmas about several requests in a row are stated over those functions. Module `Revisions` compares the two revisions and walks one client session through the serverless revision.

Files: `records.dfy`, `http.dfy`, `queries.dfy`, `store.dfy`, `bcrypt.dfy`, `jsnumber.dfy`, `admin.dfy`, `api_server.dfy`, `server.dfy`, `revisions.dfy`.

## Model

| member | source | states |
|---|---|---|
| Queries.FindIndex | Backend/routes/admin.js:28 | `findOne` picks the first matching document: `None` exactly when nothing matches; otherwise the index matches and no earlier document does |
| Queries.FindOne | Backend/api/index.js:35 | the first matching document, or none exactly when no document matches |
| Queries.Find | Backend/routes/admin.js:31 | `find` keeps only matching documents, keeps every matching one, and keeps each one as often as it is stored |
| Queries.FindAppend | Backend/api/index.js:95 | `find` keeps collection order: filtering `a + b` is filtering `a` then filtering `b` |
| Queries.FindEverything | Backend/routes/admin.js:12 | `find()` with the empty query returns the whole collection in order |
| Queries.RemoveAt | Backend/routes/admin.js:48 | taking out one document keeps all others, in order, and drops exactly that one from the multiset |
| Queries.FindOneAndDelete | Backend/routes/admin.js:48 | with no match, returns nothing and leaves the collection as it was; otherwise returns the first match and removes exactly that document |
| Store.Db.SaveUser | Backend/api/index.js:42 | `save()` appends the user; Ratings is unchanged |
| Store.Db.SaveRating | Backend/api/index.js:81 | `save()` appends the rating; Users is unchanged |
| Store.Db.FindOneAndDeleteUser | Backend/routes/admin.js:48 | removes the first user with the id and returns it; Ratings is unchanged |
| Store.Db.FindOneAndDeleteRating | Backend/routes/admin.js:66 | removes the first rating with the id and returns it; Users is unchanged |
| Bcrypt.Hash | Backend/api/index.js:39 | `bcrypt.compare` accepts the digest `bcrypt.hash` made from the same password |
| JsNumber.ParseInt | Backend/routes/admin.js:25 | a number is read only when the string, past its leading white space, starts with a sign or a decimal digit, and only a leading '-' gives a negative result; the lemmas below pin the value |
| JsNumber.TrimStart | Backend/routes/admin.js:25 | strips exactly the leading white space and line terminators |
| JsNumber.DigitPrefix | Backend/routes/admin.js:25 | length of the longest leading run of radix digits |
| JsNumber.DigitPrefixOfDigits | Backend/routes/admin.js:25 | the digit run of a string ends exactly where a non-digit follows the digits |
| JsNumber.ParseDigitsOfRun | Backend/routes/admin.js:25 | a non-empty run of radix digits followed by a non-digit is read as the value of that run alone |
| JsNumber.ParseUnsignedDecimal | Backend/routes/admin.js:25 | with no sign, the decimal notation of n followed by nothing or by a non-digit is read as n; the one exception is an x or X after "0", which makes a hex prefix |
| JsNumber.ParseIntToString | Backend/routes/admin.js:25 | `parseInt` reads back the decimal notation of every integer, negative ones included |
| JsNumber.ParseIntDigit | Backend/routes/admin.js:25 | a single decimal digit is read as its value |
| JsNumber.ParseDecimalPrefix | Backend/routes/admin.js:45 | `parseInt` stops at the first non-digit: the digits of n followed by anything else give n (so "12x" is 12), except an x or X right after "0", which makes a hex prefix |
| JsNumber.ParseIntDecimalRun | Backend/routes/admin.js:25 | any run of decimal digits, leading zeros included, followed by nothing or a non-digit is read as the run's value, unless it forms a hex prefix |
| JsNumber.ParseIntLeadingZerosExample | Backend/routes/admin.js:25 | "007" is 7 |
| JsNumber.ParseIntSkipsSpace | Backend/routes/admin.js:63 | a leading white-space character does not change the result |
| JsNumber.ParseIntNaN | Backend/routes/admin.js:26 | a string that starts with something other than white space, a sign or a digit is NaN |
| JsNumber.ParseIntSign | Backend/routes/admin.js:25 | a leading '-' negates the magnitude read after it, '+' keeps it, and a NaN magnitude stays NaN |
| JsNumber.ParseIntHexPrefix | Backend/routes/admin.js:25 | after "0x" or "0X" the rest of the string is read in radix 16, so no hexadecimal digit after the prefix is NaN |
| JsNumber.ParseIntHex | Backend/routes/admin.js:25 | "0x" or "0X" followed by a run of hexadecimal digits and then a non-hexadecimal character gives the radix-16 value of the run |
| JsNumber.ParseIntHexExample | Backend/routes/admin.js:25 | "0x1A" is read in radix 16 as 26 |
| JsNumber.ParseIntEmptyHexExample | Backend/routes/admin.js:26 | "0x" with no digits after it is NaN |
| JsNumber.ParseIntSignedExample | Backend/routes/admin.js:25 | "-12abc" is -12 |
| Admin.GetUsers | Backend/routes/admin.js:12-13 | 200 with every stored user in collection order |
| Admin.GetUser | Backend/routes/admin.js:25-33 | NaN gives 400 "Invalid userId format"; an absent id gives 404 "User not found"; otherwise 200 with the first user with that id and exactly the ratings whose userId is that id, in collection order |
| Admin.DeleteUserOutcome | Backend/routes/admin.js:45-51 | NaN gives 400 "Invalid userId format" and an absent id gives 404 "User not found", both with Users unchanged; otherwise the first user with the id is removed, all others are kept in order, and the 200 body returns the removed user |
| Admin.DeleteUser | Backend/routes/admin.js:43-51 | the response and the new Users collection are those of `DeleteUserOutcome`; Ratings is unchanged |
| Admin.DeleteRatingOutcome | Backend/routes/admin.js:63-69 | NaN gives 400 "Invalid ratingId format" and an absent id gives 404 "Rating not found", both with Ratings unchanged; otherwise the first rating with the id is removed, all others are kept in order, and the 200 body returns the removed rating |
| Admin.DeleteRating | Backend/routes/admin.js:61-69 | the response and the new Ratings collection are those of `DeleteRatingOutcome`; Users is unchanged |
| Admin.RemoveKeepsUserIdsDistinct | Backend/routes/admin.js:48 | deleting a user keeps the remaining userIds pairwise distinct |
| Admin.DeleteThenGetUser | Backend/routes/admin.js:48-49 | with distinct userIds, a GET of a just-deleted user's id is 404 |
| Admin.DuplicateIdSurvivesDelete | Backend/routes/admin.js:48 | only the first match is deleted: of two users sharing an id, the second is still found afterwards |
| Admin.DeleteRatingThenGone | Backend/routes/admin.js:66-67 | with distinct ratingIds, after the delete no rating has that id and the collection is one shorter |
| ApiServer.SignupOutcome | Backend/api/index.js:35-44 | a registered email gives 400 "Email already registered" and no change; otherwise exactly one user is appended with userId count+1, the given username and email, and a password digest that `Compare` accepts, and 201 reports that userId; pairwise-distinct emails stay distinct |
| ApiServer.Signup | Backend/api/index.js:32-44 | the response and the new Users collection are those of `SignupOutcome`; Ratings is unchanged |
| ApiServer.Signin | Backend/api/index.js:54-64 | 200 exactly when some user has the email and the password matches the first such user's digest, and then it returns that user's username and userId; every other case is the same 401 "Invalid credentials" |
| ApiServer.PostRatingOutcome | Backend/api/index.js:76-83 | exactly one rating is appended with ratingId count+101 and every other field copied from the body unchanged; 201 reports that ratingId |
| ApiServer.PostRating | Backend/api/index.js:74-83 | the response and the new Ratings collection are those of `PostRatingOutcome`; Users is unchanged |
| ApiServer.GetRatings | Backend/api/index.js:92-96 | a missing or empty mediaId gives 400 "Media ID is required"; otherwise 200 with exactly the ratings with that mediaId, in collection order |
| ApiServer.SignupThenSignin | Backend/api/index.js:54-64 | after a successful signup, signing in with the same email and password gives 200 with the new username and userId |
| ApiServer.PostThenList | Backend/api/index.js:95-96 | a submitted rating is listed for its mediaId after the ones already stored, with the fields it was stored with |
| ApiServer.SignupKeepsDense | Backend/api/index.js:38 | while userIds are 1..n with no gaps they are distinct, and a signup keeps them 1..n+1 |
| ApiServer.FreshAfterFirst | Backend/api/index.js:35 | after the first of a batch of distinct unregistered emails signs up, the rest are still unregistered |
| ApiServer.SignupFresh | Backend/api/index.js:35-44 | a signup whose email is not registered gets 201 with userId count+1 and appends exactly the new user |
| ApiServer.SignupAllUsers | Backend/api/index.js:38-42 | signups with distinct unregistered emails keep the existing users and append one user each, numbered count+1, count+2, ... in order |
| ApiServer.SignupAllResponses | Backend/api/index.js:38-44 | signups with distinct unregistered emails all get 201, the k-th reporting userId count+k+1 |
| ApiServer.SignupsFromEmpty | Backend/api/index.js:38 | from an empty store, n signups with distinct emails get userIds 1..n in order and each gets 201 with its id |
| ApiServer.PostAllNumbers | Backend/api/index.js:78-83 | successive submissions number the new ratings count+101, count+102, ... and report those ids |
| ApiServer.PostsFromEmpty | Backend/api/index.js:78 | from an empty Ratings collection, submissions get ratingIds 101, 102, ... in order |
| ApiServer.CountIdReusedAfterDelete | Backend/api/index.js:38 | after user 1 of users 1 and 2 is deleted, the next signup gets userId 2 again, so userIds are no longer distinct |
| ApiServer.CountRatingIdReusedAfterDelete | Backend/api/index.js:78 | after rating 101 of ratings 101 and 102 is deleted, the next rating gets 102 again |
| Server.MaxUserId | Backend/index.js:40 | `Math.max` over the userIds is at least every userId and is one of them |
| Server.NextUserId | Backend/index.js:40 | 1 on an empty collection; otherwise one more than an existing userId, and above every existing userId |
| Server.SignupOutcome | Backend/index.js:39-46 | always exactly one user appended, with no email check; its userId is above every stored one and is max+1 (1 when empty); it has the given username and email and a digest `Compare` accepts; 201 reports the id; distinct userIds stay distinct |
| Server.Signup | Backend/index.js:36-46 | the response and the new Users collection are those of `SignupOutcome`; Ratings is unchanged |
| Server.Signin | Backend/index.js:57-67 | one 401 "Invalid credentials" for an unknown email and for a failed `Compare`; otherwise 200 with the first matching user's username and userId |
| Server.SigninChecksFirstAccount | Backend/index.js:57-61 | signin looks only at the first account with the email: when that account's digest does not match, the answer is 401 whatever accounts follow |
| Server.ShowMoreOutcome | Backend/index.js:77-81 | exactly one rating is appended with ratingId count+101, overriding any ratingId of the body; all other fields come from the body; 201 reports the id |
| Server.ShowMore | Backend/index.js:75-81 | the response and the new Ratings collection are those of `ShowMoreOutcome`; Users is unchanged |
| Server.Authenticated | Backend/index.js:89-90 | always 200 `{authenticated: true}` |
| Server.GetRatings | Backend/index.js:96-98 | 200 with exactly the ratings whose mediaId is the query value, in collection order |
| Server.RunKeepsUserIdsDistinct | Backend/index.js:39-45 | through any sequence of signups and admin user deletions, pairwise-distinct userIds stay distinct |
| Server.SecondAccountShadowed | Backend/index.js:57-61 | signing up twice with one email stores two accounts with that email, and signing in with the second, different password gives 401 |
| Server.SignupAfterDeletingNewest | Backend/index.js:40 | after the admin deletes user 2 of users 1 and 2, the next signup is appended after user 1 with userId 2 |
| Server.LookupShowsRatingsOfId | Backend/routes/admin.js:28-33 | for two users `a` and `u` with different ids and one rating filed under `u`'s id, GET /users/:userId with `u`'s id in decimal shows `u` with exactly that rating |
| Server.DeletedNewestIdReused | Backend/index.js:40 | with users 1 and 2 and one rating of user 2, deleting user 2 makes the next signup userId 2 again, and GET /admin/users/2 shows the new account with that rating |
| Revisions.SigninRevisionsAgree | Backend/index.js:57-67 | both revisions' signin handlers give the same response to every request |
| Revisions.RatingRevisionsAgree | Backend/index.js:77-81 | POST /showmore and POST /ratings store the same rating and give the same response |
| Revisions.ListRevisionsAgree | Backend/index.js:96-98 | the two GET /ratings handlers agree whenever mediaId is non-empty |
| Revisions.MaxOfDense | Backend/index.js:40 | on userIds 1..n the largest id is n |
| Revisions.SignupRevisionsAgreeWhenDense | Backend/index.js:39-46 | while userIds are 1..n and the email is new, the two signup handlers give the same response and the same Users collection, the digest included because `Hash` is deterministic |
| Revisions.SignupRevisionsDisagreeOnDuplicate | Backend/api/index.js:35-36 | with a registered email the serverless revision answers 400, while the root revision answers 201 and stores one more user |

## Left out

- Express routing, CORS, `dotenv`, `mongoose.connect`, `app.listen`, the "/" banner routes and console logging: process and transport plumbing.
- The 500 branches of every handler (driver or store failures, bcrypt throwing on missing arguments, `Math.max` with too many arguments): failures of foreign code are not modelled.
- Concurrency: requests are applied one at a time, so the collisions two simultaneous signups or submissions can cause with count+1, max+1 or count+101 are not modelled.
- bcrypt internals: the salt, the cost factor 10 and timing. `Hash` is a deterministic function chosen by the caller, and `Compare` checks the digest.
- Revisions.SignupRevisionsAgreeWhenDense: the two revisions' Users collections are equal including the new user's `password` only because `Hash` is deterministic; with real bcrypt the two digests differ by their salt, so only the responses, the new user's other fields and the fact that `Compare` accepts each digest carry over. Salting itself is not modelled.
- Mongoose casting and schema strictness: request fields are taken already typed (integer ids and ratings, string names). Body fields outside the schema, which Mongoose drops, are not represented. Missing signup, signin and rating body fields are not modelled.
- Revisions.RatingRevisionsAgree: holds only for bodies without `_id` or `__v`. `{ ...req.body, ratingId }` (Backend/index.js:78) also copies a client-sent `_id` or `__v` into the document, and Mongoose keeps those schema paths; a malformed or duplicate `_id` makes `save()` fail, which is the 500 of Backend/index.js:82-84. POST /ratings (Backend/api/index.js:76-80) copies only the listed fields, so it never stores them.
- Document `_id` and `__v`: records carry neither, so the `_id` and `__v` that every user or rating returned by `res.json` includes are not modelled.
- Server.GetRatings: takes the mediaId as a string. A request without one would filter on an undefined key, and what that matches is decided by Mongoose, not by this code.
- JsNumber.ParseInt: returns an exact integer. JavaScript rounds a parsed value to the nearest double, so ids above 2^53 may differ, and a very long digit string parses to Infinity, which matches no record.
- `-0` from `parseInt("-0")` is the integer 0, which is also what it matches in a query.
- Token issuance, cascading deletion, rating range checks, an atomic id counter and stripping password digests from responses: the code does none of these. GET /admin/users and GET /admin/users/:userId return stored digests as they are.
- The React front end (Frontend/src) is not part of this model.
