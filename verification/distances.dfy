/** Pair selection: the intrachain C3'–C3' distances of one structure. A
    distance is kept squared (`sq`), so the cut-off `d <= 20` is `sq <= 400`
    and no square root is taken; `Numeric.CutoffOnSquare` shows the two
    tests agree. The coordinate strings are turned into numbers by `coord`,
    which stands for Python's `float()`. */
module Distances {
  import opened Numeric
  import opened PdbReader

  /** Records closer than this in the record sequence are never paired. */
  const MinGap: nat := 4
  /** The 20 Å cut-off, squared. */
  const CutoffSq: real := 400.0

  /** `[nuc_i, nuc_j, d]`: the two nucleotides in record order and the
      squared distance. */
  datatype Sample = Sample(n1: string, n2: string, sq: NonNegReal)

  lemma SquareNonNeg(x: real)
    ensures x * x >= 0.0
  {
  }

  /** The squared Euclidean distance between two records' coordinates. */
  function SqDist(a: Record, b: Record, coord: string -> real): (sq: NonNegReal) {
    var dx := coord(a.x) - coord(b.x);
    var dy := coord(a.y) - coord(b.y);
    var dz := coord(a.z) - coord(b.z);
    SquareNonNeg(dx); SquareNonNeg(dy); SquareNonNeg(dz);
    dx * dx + dy * dy + dz * dz
  }

  /** Records `i` and `j` form a sample: `j` is at least `MinGap` after `i`,
      both are on the same chain, and they are within the cut-off. */
  predicate Qualifies(recs: seq<Record>, coord: string -> real, i: int, j: int) {
    && 0 <= i && i + MinGap <= j < |recs|
    && recs[i].chain == recs[j].chain
    && SqDist(recs[i], recs[j], coord) <= CutoffSq
  }

  predicate LexLess(p: (int, int), q: (int, int)) {
    p.0 < q.0 || (p.0 == q.0 && p.1 < q.1)
  }

  /** The inner loop: partners `j` of record `i`, from `j` on. */
  function InnerPairs(recs: seq<Record>, coord: string -> real, i: nat, j: nat): (ps: seq<(int, int)>)
    requires i + MinGap <= j <= |recs|
    ensures forall k :: 0 <= k < |ps| ==> ps[k].0 == i && j <= ps[k].1 && Qualifies(recs, coord, i, ps[k].1)
    ensures forall k, l :: 0 <= k < l < |ps| ==> ps[k].1 < ps[l].1
    ensures forall b :: j <= b && Qualifies(recs, coord, i, b) ==> (i, b) in ps
    decreases |recs| - j
  {
    if j == |recs| then []
    else
      var here := if recs[i].chain == recs[j].chain && SqDist(recs[i], recs[j], coord) <= CutoffSq
                  then [(i, j)] else [];
      here + InnerPairs(recs, coord, i, j + 1)
  }

  /** The outer loop: every selected pair whose first index is `i` or more. */
  function OuterPairs(recs: seq<Record>, coord: string -> real, i: nat): (ps: seq<(int, int)>)
    requires i <= |recs|
    ensures forall k :: 0 <= k < |ps| ==> i <= ps[k].0 && Qualifies(recs, coord, ps[k].0, ps[k].1)
    ensures forall k, l :: 0 <= k < l < |ps| ==> LexLess(ps[k], ps[l])
    ensures forall a, b :: i <= a && Qualifies(recs, coord, a, b) ==> (a, b) in ps
    decreases |recs| - i
  {
    if i == |recs| then []
    else
      var row := if i + MinGap <= |recs| then InnerPairs(recs, coord, i, i + MinGap) else [];
      row + OuterPairs(recs, coord, i + 1)
  }

  /** The index pairs the two nested loops emit, in emission order. */
  function SelectedPairs(recs: seq<Record>, coord: string -> real): (ps: seq<(int, int)>)
    ensures forall k :: 0 <= k < |ps| ==> Qualifies(recs, coord, ps[k].0, ps[k].1)
    ensures forall k, l :: 0 <= k < l < |ps| ==> LexLess(ps[k], ps[l])
    ensures forall a, b :: Qualifies(recs, coord, a, b) ==> (a, b) in ps
  {
    OuterPairs(recs, coord, 0)
  }

  function SampleAt(recs: seq<Record>, coord: string -> real, i: nat, j: nat): (s: Sample)
    requires i < |recs| && j < |recs|
  {
    Sample(recs[i].nucleotide, recs[j].nucleotide, SqDist(recs[i], recs[j], coord))
  }

  /** `calculate_distances`: one sample per selected pair, in the same order,
      with the nucleotides in record order (not sorted). */
  function CalculateDistances(recs: seq<Record>, coord: string -> real): (r: seq<Sample>)
    ensures var ps := SelectedPairs(recs, coord);
            && |r| == |ps|
            && forall k :: 0 <= k < |r| ==> r[k] == SampleAt(recs, coord, ps[k].0, ps[k].1)
  {
    var ps := SelectedPairs(recs, coord);
    seq(|ps|, k requires 0 <= k < |ps| => SampleAt(recs, coord, ps[k].0, ps[k].1))
  }

  /** Every sample comes from records `i < j` at least `MinGap` apart on the
      same chain, within the cut-off, and names their nucleotides in record
      order. */
  lemma EmittedSamplesQualify(recs: seq<Record>, coord: string -> real, s: Sample)
    requires s in CalculateDistances(recs, coord)
    ensures exists i, j :: && 0 <= i < j < |recs| && j - i >= MinGap
                           && recs[i].chain == recs[j].chain
                           && s.sq <= CutoffSq
                           && s == SampleAt(recs, coord, i, j)
  {
    var r := CalculateDistances(recs, coord);
    var ps := SelectedPairs(recs, coord);
    var k :| 0 <= k < |r| && r[k] == s;
    assert Qualifies(recs, coord, ps[k].0, ps[k].1);
  }

  /** A pair of records is emitted, exactly once, iff it qualifies: same
      chain, at least `MinGap` apart, and within the cut-off. */
  lemma EmittedOnceIffQualifies(recs: seq<Record>, coord: string -> real, i: int, j: int)
    ensures var ps := SelectedPairs(recs, coord);
            && ((exists k :: 0 <= k < |ps| && ps[k] == (i, j)) <==> Qualifies(recs, coord, i, j))
            && forall k, l :: 0 <= k < |ps| && 0 <= l < |ps| && ps[k] == (i, j) && ps[l] == (i, j) ==> k == l
  {
    var ps := SelectedPairs(recs, coord);
    if Qualifies(recs, coord, i, j) {
      assert (i, j) in ps;
    }
  }
}
