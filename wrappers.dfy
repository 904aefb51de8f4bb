/** The optional value used for every field the source leaves as None. */
module Wrappers {

  datatype Option<+T> = None | Some(value: T)

  /** The first present value of a chain of attempts, tried in order. */
  function FirstSome<T>(attempts: seq<Option<T>>): (r: Option<T>)
    ensures r.Some? ==> r in attempts
    ensures attempts != [] && attempts[0].Some? ==> r == attempts[0]
  {
    if attempts == [] then None
    else if attempts[0].Some? then attempts[0]
    else FirstSome(attempts[1..])
  }

  /** A chain yields nothing exactly when every attempt yields nothing. */
  lemma {:induction false} FirstSomeNoneIffAllNone<T>(attempts: seq<Option<T>>)
    ensures FirstSome(attempts).None? <==> forall i :: 0 <= i < |attempts| ==> attempts[i].None?
  {
    if attempts != [] && attempts[0].None? {
      FirstSomeNoneIffAllNone(attempts[1..]);
      assert forall i :: 1 <= i < |attempts| ==> attempts[i] == attempts[1..][i - 1];
    }
  }

  /** A chain yields the answer of the first attempt that has one. */
  lemma {:induction false} FirstSomePicksFirst<T>(attempts: seq<Option<T>>, i: nat)
    requires i < |attempts| && attempts[i].Some?
    requires forall j :: 0 <= j < i ==> attempts[j].None?
    ensures FirstSome(attempts) == attempts[i]
  {
    if i > 0 {
      FirstSomePicksFirst(attempts[1..], i - 1);
    }
  }
}
