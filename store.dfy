/** The database as the handlers see it: the Users and Ratings collections,
    each a sequence of documents in insertion order, updated in place by
    `save()` and `findOneAndDelete()`. */
module Store {
  import opened Records
  import opened Queries

  /** The query `{ userId }` on users. */
  function UserIdIs(id: int): User -> bool { (u: User) => u.userId == id }

  /** The query `{ email }` on users. */
  function EmailIs(email: string): User -> bool { (u: User) => u.email == email }

  /** The query `{ ratingId }` on ratings. */
  function RatingIdIs(id: int): Rating -> bool { (r: Rating) => r.ratingId == id }

  /** The query `{ userId }` on ratings. */
  function ByUser(id: int): Rating -> bool { (r: Rating) => r.userId == id }

  /** The query `{ mediaId }` on ratings. */
  function ForMedia(mediaId: string): Rating -> bool { (r: Rating) => r.mediaId == mediaId }

  /** No two users share a userId. */
  predicate UserIdsDistinct(users: seq<User>) {
    forall i, j :: 0 <= i < j < |users| ==> users[i].userId != users[j].userId
  }

  /** No two users share an email. */
  predicate EmailsDistinct(users: seq<User>) {
    forall i, j :: 0 <= i < j < |users| ==> users[i].email != users[j].email
  }

  /** No two ratings share a ratingId. */
  predicate RatingIdsDistinct(ratings: seq<Rating>) {
    forall i, j :: 0 <= i < j < |ratings| ==> ratings[i].ratingId != ratings[j].ratingId
  }

  /** Some user has this userId. */
  predicate HasUserId(users: seq<User>, id: int) {
    exists i :: 0 <= i < |users| && users[i].userId == id
  }

  /** Some user has this email. */
  predicate HasEmail(users: seq<User>, email: string) {
    exists i :: 0 <= i < |users| && users[i].email == email
  }

  /** Some rating has this ratingId. */
  predicate HasRatingId(ratings: seq<Rating>, id: int) {
    exists i :: 0 <= i < |ratings| && ratings[i].ratingId == id
  }

  class Db {
    var users: seq<User>
    var ratings: seq<Rating>

    /** A fresh, empty database. */
    constructor ()
      ensures users == [] && ratings == []
    {
      users := [];
      ratings := [];
    }

    /** `new UserModel(u).save()`: appends one user document. */
    method SaveUser(u: User)
      modifies this
      ensures users == old(users) + [u]
      ensures ratings == old(ratings)
    {
      users := users + [u];
    }

    /** `new RatingModel(r).save()`: appends one rating document. */
    method SaveRating(r: Rating)
      modifies this
      ensures ratings == old(ratings) + [r]
      ensures users == old(users)
    {
      ratings := ratings + [r];
    }

    /** `UserModel.findOneAndDelete({ userId: id })`. */
    method FindOneAndDeleteUser(id: int) returns (deleted: Option<User>)
      modifies this
      ensures (deleted, users) == FindOneAndDelete(old(users), UserIdIs(id))
      ensures ratings == old(ratings)
    {
      var i := FindIndex(users, UserIdIs(id));
      if i.None? {
        deleted := None;
      } else {
        deleted := Some(users[i.value]);
        users := RemoveAt(users, i.value);
      }
    }

    /** `RatingModel.findOneAndDelete({ ratingId: id })`. */
    method FindOneAndDeleteRating(id: int) returns (deleted: Option<Rating>)
      modifies this
      ensures (deleted, ratings) == FindOneAndDelete(old(ratings), RatingIdIs(id))
      ensures users == old(users)
    {
      var i := FindIndex(ratings, RatingIdIs(id));
      if i.None? {
        deleted := None;
      } else {
        deleted := Some(ratings[i.value]);
        ratings := RemoveAt(ratings, i.value);
      }
    }
  }
}
