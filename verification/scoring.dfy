/** Scoring one structure against trained tables: the bin lookup of a
    distance and the sum of the finite scores. */
module Scoring {
  import opened Numeric

  /** `scores[k]`, or `+inf` for an index outside the table. */
  function Lookup(k: int, scores: seq<Score>): (s: Score)
    ensures s == PosInf || s in scores
  {
    if k < 0 || k >= |scores| then PosInf else scores[k]
  }

  /** `GetScore`: the score of the bin `int(distance)`, or `+inf` outside
      the table. */
  function GetScore(d: real, scores: seq<Score>): (s: Score)
    ensures s == PosInf || s in scores
  {
    Lookup(IntOf(d), scores)
  }

  /** A distance in `[k, k + 1)` reads bin `k`. */
  lemma GetScoreInBin(d: real, scores: seq<Score>, k: nat)
    requires k < |scores| && k as real <= d < k as real + 1.0
    ensures GetScore(d, scores) == scores[k]
  {
    assert IntOf(d) == k;
  }

  /** A non-empty table is read exactly when `-1 < d < len(scores)`: truncation
      toward zero sends every distance in `(-1, 0)` to bin 0, and anything
      else outside the table scores `+inf`. */
  lemma GetScoreRange(d: real, scores: seq<Score>)
    ensures |scores| > 0 && -1.0 < d < |scores| as real ==>
              0 <= IntOf(d) < |scores| && GetScore(d, scores) == scores[IntOf(d)]
    ensures !(|scores| > 0 && -1.0 < d < |scores| as real) ==> GetScore(d, scores) == PosInf
  {
    var k := IntOf(d);
    if |scores| > 0 && -1.0 < d < |scores| as real {
      if d >= 0.0 {
        assert (k as real) < |scores| as real;
      } else {
        assert k == 0;
      }
    }
  }

  /** On a non-negative distance, the bin of `d` is the integer square root
      of its square, the form the rest of the model keeps. */
  lemma GetScoreOnSquare(d: real, scores: seq<Score>)
    requires d >= 0.0
    ensures GetScore(d, scores) == Lookup(IntSqrt(d * d), scores)
  {
    IntSqrtOfSquare(d);
  }

  /** The scores that survive the `isnan`/`isinf` filter, as floats. */
  function KeepFinite(scores: seq<Score>): (xs: seq<real>)
    ensures |xs| <= |scores|
    ensures forall v :: multiset(xs)[v] == multiset(scores)[Finite(v)]
  {
    if |scores| == 0 then []
    else
      var rest := KeepFinite(scores[1..]);
      assert scores == [scores[0]] + scores[1..];
      if scores[0].Finite? then [scores[0].v] + rest else rest
  }

  /** With no finite score nothing survives the filter; a single score
      survives exactly when it is finite. */
  lemma KeepFiniteShape(scores: seq<Score>)
    ensures (forall i :: 0 <= i < |scores| ==> !scores[i].Finite?) ==> KeepFinite(scores) == []
    ensures |scores| == 1 ==> KeepFinite(scores) == if scores[0].Finite? then [scores[0].v] else []
  {
    var xs := KeepFinite(scores);
    if forall i :: 0 <= i < |scores| ==> !scores[i].Finite? {
      forall v
        ensures multiset(xs)[v] == 0
      {
        assert Finite(v) !in scores;
      }
      assert multiset(xs) == multiset{};
    }
    if |scores| == 1 {
      assert scores[1..] == [];
    }
  }

  /** `calculate_gibbs_free_energy`: the sum of the finite scores. */
  function FreeEnergy(scores: seq<Score>): (e: real)
    ensures (forall i :: 0 <= i < |scores| ==> !scores[i].Finite?) ==> e == 0.0
    ensures |scores| == 1 ==> e == if scores[0].Finite? then scores[0].v else 0.0
  {
    KeepFiniteShape(scores);
    var xs := KeepFinite(scores);
    assert |xs| == 1 ==> xs[1..] == [] && SumReal(xs) == xs[0] + SumReal([]);
    SumReal(xs)
  }

  lemma {:induction false} KeepFiniteAppend(a: seq<Score>, b: seq<Score>)
    ensures KeepFinite(a + b) == KeepFinite(a) + KeepFinite(b)
  {
    if |a| > 0 {
      var head := if a[0].Finite? then [a[0].v] else [];
      assert (a + b)[0] == a[0];
      assert (a + b)[1..] == a[1..] + b;
      assert KeepFinite(a + b) == head + KeepFinite(a[1..] + b);
      assert KeepFinite(a) == head + KeepFinite(a[1..]);
      KeepFiniteAppend(a[1..], b);
    } else {
      assert a + b == b;
    }
  }

  /** The energy of a concatenation is the sum of the energies. */
  lemma FreeEnergyAppend(a: seq<Score>, b: seq<Score>)
    ensures FreeEnergy(a + b) == FreeEnergy(a) + FreeEnergy(b)
  {
    KeepFiniteAppend(a, b);
    SumRealAppend(KeepFinite(a), KeepFinite(b));
  }

  /** NaN and the infinities of either sign are dropped wherever they sit. */
  lemma FreeEnergyIgnoresNonFinite(a: seq<Score>, x: Score, b: seq<Score>)
    requires !x.Finite?
    ensures FreeEnergy(a + [x] + b) == FreeEnergy(a + b)
  {
    FreeEnergyAppend(a + [x], b);
    FreeEnergyAppend(a, [x]);
    FreeEnergyAppend(a, b);
  }
}
