/** The two record kinds kept by the backend (the Mongoose schemas in
    Backend/models/Users.js and Backend/models/Rating.js), the request
    bodies the handlers read, and an Option type. */
module Records {

  datatype Option<+T> = None | Some(value: T)

  /** A stored user; `password` holds the bcrypt digest, never the raw password. */
  datatype User = User(userId: int, username: string, email: string, password: string)

  /** A stored rating. `userId` and `username` are copied from the request, not
      checked against the Users collection. */
  datatype Rating = Rating(
    ratingId: int,
    userId: int,
    username: string,
    rating: int,
    moviename: string,
    comment: string,
    mediaType: string,
    mediaId: string,
    day: int,
    month: int,
    year: int)

  /** Body of POST /signup. */
  datatype SignupRequest = SignupRequest(username: string, email: string, password: string)

  /** Body of POST /signin. */
  datatype SigninRequest = SigninRequest(email: string, password: string)

  /** Body of a rating submission. A client may send its own `ratingId`;
      both revisions store a server-assigned one instead. */
  datatype RatingRequest = RatingRequest(
    ratingId: Option<int>,
    userId: int,
    username: string,
    rating: int,
    moviename: string,
    comment: string,
    mediaType: string,
    mediaId: string,
    day: int,
    month: int,
    year: int)
}
