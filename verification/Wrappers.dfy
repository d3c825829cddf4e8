/** Optional values, fallible results, the lesser of two numbers, and a fact about sets. */
module Wrappers {
  datatype Option<+T> = None | Some(value: T)

  datatype Result<+T, +E> = Success(value: T) | Failure(error: E)

  function Least(a: int, b: int): int { if a < b then a else b }

  lemma EmptyIfNoMember(s: set<int>)
    ensures s == {} <==> forall p :: p !in s
  {
    if forall p :: p !in s {
      assert |s| == 0;
    }
  }
}
