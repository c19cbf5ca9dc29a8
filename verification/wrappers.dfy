/** Optional values: a JSON field or CSV cell that may be absent, or a
    computation (parsing a date, finding an id) that may yield nothing. */
module Wrappers {

  datatype Option<+T> = None | Some(value: T)

  /** The first present value of a fallback chain, or None when every link is
      absent. */
  function FirstSome<T>(chain: seq<Option<T>>): (r: Option<T>)
    ensures r.None? <==> forall i :: 0 <= i < |chain| ==> chain[i].None?
    ensures r.Some? ==> exists i :: && 0 <= i < |chain| && chain[i] == r
                                    && forall j :: 0 <= j < i ==> chain[j].None?
  {
    if chain == [] then None
    else if chain[0].Some? then chain[0]
    else
      var r := FirstSome(chain[1..]);
      assert forall j :: 1 <= j < |chain| ==> chain[j] == chain[1..][j - 1];
      r
  }


  /** A three-link chain falls through each absent link to the next. */
  lemma FirstSomeOfThree<T>(a: Option<T>, b: Option<T>, c: Option<T>)
    ensures FirstSome([a, b, c]) == if a.Some? then a else if b.Some? then b else c
  {
    assert [a, b, c][1..] == [b, c];
    assert [b, c][1..] == [c];
    assert [c][1..] == [];
    assert FirstSome([c]) == c by {
      assert FirstSome([c][1..]) == None;
    }
    assert FirstSome([b, c]) == if b.Some? then b else c;
  }

}
