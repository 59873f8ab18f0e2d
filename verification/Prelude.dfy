/** Result types and list facts shared by the models. */
module Prelude {

  datatype Option<+T> = None | Some(value: T)

  datatype Result<+T, +E> = Ok(value: T) | Err(error: E) {
    predicate IsFailure() { Err? }

    function PropagateFailure<U>(): Result<U, E>
      requires Err?
    {
      Err(error)
    }

    function Extract(): T
      requires Ok?
    {
      value
    }
  }

  /** No element occurs at two positions. */
  ghost predicate NoDup<T>(s: seq<T>) {
    forall i, j :: 0 <= i < j < |s| ==> s[i] != s[j]
  }

  ghost function Elements<T>(s: seq<T>): set<T> {
    set x | x in s
  }

  lemma ElementsOfAppend<T>(s: seq<T>, x: T)
    ensures Elements(s + [x]) == Elements(s) + {x}
  {
  }

  /** `list(set(s))` when first occurrences are kept. */
  function KeepFirst<T(==,!new)>(s: seq<T>): (r: seq<T>)
    ensures forall x :: x in r <==> x in s
    ensures NoDup(r)
    ensures |r| <= |s|
  {
    if s == [] then []
    else
      var rest := KeepFirst(s[..|s| - 1]);
      var last := s[|s| - 1];
      assert forall x :: x in s <==> x in s[..|s| - 1] || x == last;
      if last in rest then rest else rest + [last]
  }

  /** A list has as many elements as it has members exactly when it repeats none. */
  lemma {:induction false} SizeOfElements<T>(s: seq<T>)
    ensures |Elements(s)| <= |s|
    ensures |Elements(s)| == |s| <==> NoDup(s)
  {
    if s == [] {
      assert Elements(s) == {};
    } else {
      var front, last := s[..|s| - 1], s[|s| - 1];
      SizeOfElements(front);
      assert forall x :: x in s <==> x in front || x == last;
      assert Elements(s) == Elements(front) + {last};
      if last in front {
        var i :| 0 <= i < |front| && front[i] == last;
        assert s[i] == s[|s| - 1];
        assert Elements(s) == Elements(front);
      } else {
        assert NoDup(front) <==> NoDup(s) by {
          if NoDup(front) {
            forall i, j | 0 <= i < j < |s| ensures s[i] != s[j] {
              assert s[i] == front[i];
              if j < |front| { assert s[j] == front[j]; }
            }
          }
          if NoDup(s) {
            forall i, j | 0 <= i < j < |front| ensures front[i] != front[j] {
              assert s[i] != s[j];
            }
          }
        }
      }
    }
  }

  ghost function Listed<T(!new)>(xs: set<T>): (r: seq<T>)
    ensures forall x :: x in r <==> x in xs
    ensures NoDup(r)
  {
    if xs == {} then [] else
      var x :| x in xs;
      var rest := Listed(xs - {x});
      assert forall y :: y in [x] + rest <==> y == x || y in rest;
      [x] + rest
  }

  ghost predicate Enumerates<T>(l: seq<T>, xs: set<T>) {
    NoDup(l) && Elements(l) == xs
  }

  /** `list(set)`: every member once, in no particular order. */
  method ListOfSet<T(==)>(xs: set<T>) returns (l: seq<T>)
    ensures Enumerates(l, xs)
  {
    l := [];
    var rest := xs;
    while rest != {}
      invariant rest <= xs && NoDup(l)
      invariant Elements(l) == xs - rest
      decreases rest
    {
      var x :| x in rest;
      assert x !in Elements(l);
      l := l + [x];
      assert Elements(l) == Elements(l[..|l| - 1]) + {x};
      rest := rest - {x};
    }
  }
}
