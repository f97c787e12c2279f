/** Facts about sequences without repeated elements, used for Python's
    sets and dictionaries iterated in insertion order. */
module Sequences {

  predicate Distinct<T(==)>(xs: seq<T>) {
    forall i, j :: 0 <= i < j < |xs| ==> xs[i] != xs[j]
  }

  /** The keys of a dictionary filled from `xs` in order: the first
      occurrence of every element, in the order of those occurrences. */
  function Dedup<T(==, !new)>(xs: seq<T>): (d: seq<T>)
    ensures forall x :: x in d <==> x in xs
    ensures Distinct(d)
    ensures |d| <= |xs|
  {
    if |xs| == 0 then []
    else
      var init := xs[..|xs| - 1];
      var last := xs[|xs| - 1];
      assert xs == init + [last];
      var d := Dedup(init);
      if last in d then d else d + [last]
  }

  /** Appending an element already present leaves the keys unchanged;
      appending a new one adds it at the end. */
  lemma DedupSnoc<T(!new)>(xs: seq<T>, x: T)
    ensures x in xs ==> Dedup(xs + [x]) == Dedup(xs)
    ensures x !in xs ==> Dedup(xs + [x]) == Dedup(xs) + [x]
  {
    assert (xs + [x])[..|xs|] == xs;
  }
}
