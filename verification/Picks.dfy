/** The elements of a sequence that are marked to be kept. */
module Picks {

  function Picked<T>(keep: seq<bool>, xs: seq<T>): seq<T>
    requires |keep| == |xs|
  {
    if xs == [] then []
    else Picked(keep[..|xs| - 1], xs[..|xs| - 1]) + if keep[|xs| - 1] then [xs[|xs| - 1]] else []
  }

  lemma {:induction false} PickedConcat<T>(k: seq<bool>, l: seq<bool>, x: seq<T>, y: seq<T>)
    requires |k| == |x| && |l| == |y|
    ensures Picked(k + l, x + y) == Picked(k, x) + Picked(l, y)
  {
    if y == [] {
      assert k + l == k && x + y == x;
    } else {
      var n := |y| - 1;
      PickedConcat(k, l[..n], x, y[..n]);
      assert (k + l)[..|x + y| - 1] == k + l[..n] && (x + y)[..|x + y| - 1] == x + y[..n];
    }
  }

  lemma PickedSnoc<T>(keep: seq<bool>, own: bool, xs: seq<T>, x: T)
    requires |keep| == |xs|
    ensures Picked(keep + [own], xs + [x]) == Picked(keep, xs) + if own then [x] else []
  {
    assert (keep + [own])[..|xs|] == keep && (xs + [x])[..|xs|] == xs;
  }

  lemma {:induction false} PickedNone<T>(keep: seq<bool>, xs: seq<T>)
    requires |keep| == |xs| && forall i :: 0 <= i < |keep| ==> !keep[i]
    ensures Picked(keep, xs) == []
  {
    if xs != [] { PickedNone(keep[..|xs| - 1], xs[..|xs| - 1]); }
  }

  lemma {:induction false} PickedLength<S, T>(keep: seq<bool>, xs: seq<S>, ys: seq<T>)
    requires |keep| == |xs| == |ys|
    ensures |Picked(keep, xs)| == |Picked(keep, ys)|
  {
    if xs != [] { PickedLength(keep[..|xs| - 1], xs[..|xs| - 1], ys[..|ys| - 1]); }
  }

  lemma {:induction false} PickedHas<T>(keep: seq<bool>, xs: seq<T>, x: T)
    requires |keep| == |xs|
    ensures x in Picked(keep, xs) <==> exists i :: 0 <= i < |xs| && keep[i] && xs[i] == x
  {
    if xs != [] {
      var n := |xs| - 1;
      PickedHas(keep[..n], xs[..n], x);
      assert keep[..n] + [keep[n]] == keep && xs[..n] + [xs[n]] == xs;
    }
  }
}
