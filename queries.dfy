/** The Mongoose collection operations the handlers use, over a collection
    held as a sequence in insertion (natural) order. A query such as
    `{ email }` is a predicate on documents. */
module Queries {
  import opened Records

  /** Index of the first document matching `p`. */
  function FindIndex<T>(s: seq<T>, p: T -> bool): (r: Option<nat>)
    ensures r.None? <==> forall i :: 0 <= i < |s| ==> !p(s[i])
    ensures r.Some? ==> r.value < |s| && p(s[r.value])
    ensures r.Some? ==> forall j :: 0 <= j < r.value ==> !p(s[j])
    decreases |s|
  {
    if s == [] then None
    else if p(s[0]) then Some(0)
    else match FindIndex(s[1..], p)
      case None => None
      case Some(i) => Some(i + 1)
  }

  /** `Model.findOne(q)`: the first matching document, if any. */
  function FindOne<T>(s: seq<T>, p: T -> bool): (r: Option<T>)
    ensures r.None? <==> forall x :: x in s ==> !p(x)
    ensures r.Some? ==> r.value in s && p(r.value)
    ensures r.Some? ==> exists i :: 0 <= i < |s| && s[i] == r.value && forall j :: 0 <= j < i ==> !p(s[j])
  {
    match FindIndex(s, p)
    case None => None
    case Some(i) => Some(s[i])
  }

  /** `Model.find(q)`: every matching document, in collection order. */
  function Find<T>(s: seq<T>, p: T -> bool): (r: seq<T>)
    ensures |r| <= |s|
    ensures forall x :: x in r ==> x in s && p(x)
    ensures forall x :: x in s && p(x) ==> x in r
    ensures forall x :: x in s ==> multiset(r)[x] == if p(x) then multiset(s)[x] else 0
    decreases |s|
  {
    if s == [] then []
    else
      assert s == [s[0]] + s[1..];
      (if p(s[0]) then [s[0]] else []) + Find(s[1..], p)
  }

  /** `find` keeps collection order: filtering a concatenation filters each part. */
  lemma {:induction false} FindAppend<T>(a: seq<T>, b: seq<T>, p: T -> bool)
    ensures Find(a + b, p) == Find(a, p) + Find(b, p)
    decreases |a|
  {
    if a == [] {
      assert a + b == b;
    } else {
      assert (a + b)[1..] == a[1..] + b;
      FindAppend(a[1..], b, p);
    }
  }

  /** The empty query `{}`. */
  function Everything<T>(): T -> bool { (x: T) => true }

  /** `find()` with the empty query returns the whole collection, in order. */
  lemma {:induction false} FindEverything<T>(s: seq<T>)
    ensures Find(s, Everything()) == s
    decreases |s|
  {
    if s != [] {
      FindEverything(s[1..]);
      assert s == [s[0]] + s[1..];
    }
  }

  /** `s` with the element at `i` taken out. */
  function RemoveAt<T>(s: seq<T>, i: nat): (r: seq<T>)
    requires i < |s|
    ensures |r| == |s| - 1
    ensures forall j :: 0 <= j < i ==> r[j] == s[j]
    ensures forall j :: i <= j < |r| ==> r[j] == s[j + 1]
    ensures multiset(r) + multiset{s[i]} == multiset(s)
  {
    assert s == s[..i] + [s[i]] + s[i + 1..];
    s[..i] + s[i + 1..]
  }

  /** `Model.findOneAndDelete(q)`: removes the first matching document and
      returns it together with the remaining collection; with no match the
      collection is unchanged. */
  function FindOneAndDelete<T>(s: seq<T>, p: T -> bool): (r: (Option<T>, seq<T>))
    ensures FindIndex(s, p).None? ==> r == (None, s)
    ensures FindIndex(s, p).Some? ==>
      var i := FindIndex(s, p).value;
      r.0 == Some(s[i]) && r.1 == RemoveAt(s, i)
  {
    match FindIndex(s, p)
    case None => (None, s)
    case Some(i) => (Some(s[i]), RemoveAt(s, i))
  }
}
