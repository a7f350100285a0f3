/** Small datatypes and facts that several modules share. */
module Common {

  datatype Option<+T> = None | Some(value: T)

  datatype Result<+T, +E> = Success(value: T) | Failure(error: E)

  lemma SomeElement(ids: set<int>) returns (id: int)
    requires ids != {}
    ensures id in ids
  {
    EmptyUnlessSome(ids);
    id :| id in ids;
  }

  lemma EmptyUnlessSome(ids: set<int>)
    ensures ids == {} || exists id :: id in ids
  {
    if forall id :: id !in ids { assert ids == {}; }
  }

  lemma SubsetIsSmaller<T>(a: set<T>, b: set<T>)
    requires a <= b
    ensures |a| <= |b|
  {
    assert b == a + (b - a);
    assert |b| == |a| + |b - a|;
  }
}
