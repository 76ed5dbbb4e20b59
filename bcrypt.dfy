/** Password hashing. The one-way function is left abstract: a `Hasher`
    carries some digest function, and `Compare` checks a password against a
    stored digest. */
module Bcrypt {

  datatype Hasher = Hasher(digest: string -> string)

  /** `bcrypt.compare(password, stored)`. */
  predicate Compare(h: Hasher, password: string, stored: string) {
    h.digest(password) == stored
  }

  /** `bcrypt.hash(password, 10)`: a digest that `Compare` accepts for the same password. */
  function Hash(h: Hasher, password: string): (stored: string)
    ensures Compare(h, password, stored)
  {
    h.digest(password)
  }
}
