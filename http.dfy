/** The JSON responses the handlers send: a status code and a body. */
module Http {
  import opened Records

  datatype Body =
    | Message(message: string)
    | UserList(users: seq<User>)
    | UserDetails(user: User, ratings: seq<Rating>)
    | UserDeleted(message: string, deletedUser: User)
    | RatingDeleted(message: string, deletedRating: Rating)
    | UserCreated(message: string, userId: int)
    | RatingCreated(message: string, ratingId: int)
    | LoginSucceeded(message: string, username: string, userId: int)
    | RatingList(ratings: seq<Rating>)
    | AuthStatus(authenticated: bool)

  datatype Response = Response(status: int, body: Body)

  /** `res.json(x)` without an explicit status sends 200. */
  function Json(body: Body): Response { Response(200, body) }

  function Error(status: int, message: string): Response { Response(status, Message(message)) }
}
