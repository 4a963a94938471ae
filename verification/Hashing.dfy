// What is asked of a hash function: no collision among the texts at hand. A
// hash has finitely many values, so no more than that can be asked.

module Hashing {

  ghost predicate CollisionFree<T>(hash: string -> T, texts: set<string>)
  {
    forall x, y :: x in texts && y in texts && hash(x) == hash(y) ==> x == y
  }
}
