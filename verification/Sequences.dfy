/** Lists without repeats, and removal from them. */
module Sequences {
  function Without<T(==)>(xs: seq<T>, x: T): seq<T> {
    if xs == [] then []
    else
      var last := xs[|xs| - 1];
      Without(xs[..|xs| - 1], x) + if last == x then [] else [last]
  }

  ghost predicate NoRepeats<T>(xs: seq<T>) {
    forall i, j :: 0 <= i < j < |xs| ==> xs[i] != xs[j]
  }

  lemma {:induction false} WithoutKeepsOthers<T>(xs: seq<T>, x: T)
    ensures forall y :: y in Without(xs, x) <==> y in xs && y != x
    ensures NoRepeats(xs) ==> NoRepeats(Without(xs, x))
  {
    if xs != [] {
      var front, last := xs[..|xs| - 1], xs[|xs| - 1];
      WithoutKeepsOthers(front, x);
      assert xs == front + [last];
      if NoRepeats(xs) {
        assert NoRepeats(front) && last !in front by {
          assert forall i :: 0 <= i < |front| ==> front[i] == xs[i];
        }
        assert NoRepeats(Without(front, x) + [last]);
      }
    }
  }

  method Retain<T(==)>(xs: seq<T>, x: T) returns (kept: seq<T>)
    ensures kept == Without(xs, x)
  {
    kept := [];
    for i := 0 to |xs|
      invariant kept == Without(xs[..i], x)
    {
      assert xs[..i + 1][..i] == xs[..i];
      if xs[i] != x {
        kept := kept + [xs[i]];
      }
    }
    assert xs[..|xs|] == xs;
  }
}
