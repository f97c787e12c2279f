/** The training statistics: grouping samples by unordered nucleotide pair,
    20-bin histograms of the distances, observed and reference frequencies,
    and log-odds pseudo-energies. The natural logarithm is the parameter
    `ln`; only its results on positive arguments are ever used. */
module Statistics {
  import opened Numeric
  import opened Text
  import opened Results
  import opened Distances

  /** A nucleotide pair as a tuple of the two nucleotide strings. */
  type Pair = (string, string)

  /** `tuple(sorted([a, b]))` */
  function Canon(a: string, b: string): (p: Pair)
    ensures StrLe(p.0, p.1)
    ensures {p.0, p.1} == {a, b}
  {
    StrLeTotal(a, b);
    if StrLe(a, b) then (a, b) else (b, a)
  }

  /** `set(pair) == set([item[0], item[1]])`: the sample is of the pair,
      in either order. */
  predicate Matches(p: Pair, s: Sample) {
    {p.0, p.1} == {s.n1, s.n2}
  }

  /** For a sorted pair, matching it is the same as sorting to it. */
  lemma MatchesSorted(p: Pair, s: Sample)
    requires StrLe(p.0, p.1)
    ensures Matches(p, s) <==> Canon(s.n1, s.n2) == p
  {
    var c := Canon(s.n1, s.n2);
    if Matches(p, s) {
      assert p.0 in {c.0, c.1} && p.1 in {c.0, c.1};
      assert c.0 in {p.0, p.1} && c.1 in {p.0, p.1};
      if p.0 == c.1 && p.0 != c.0 {
        StrLeAntisymmetric(c.0, c.1);
      } else if p.1 == c.0 && p.1 != c.1 {
        StrLeAntisymmetric(p.0, p.1);
      }
    }
  }

  /** The distances of the samples of pair `p`, in input order (the inner
      loop of `distribution_distances`). */
  function Group(p: Pair, samples: seq<Sample>): (ds: seq<NonNegReal>)
    ensures |ds| <= |samples|
  {
    if |samples| == 0 then []
    else (if Matches(p, samples[0]) then [samples[0].sq] else []) + Group(p, samples[1..])
  }

  /** Grouping commutes with concatenation: the distances keep input order. */
  lemma {:induction false} GroupAppend(p: Pair, a: seq<Sample>, b: seq<Sample>)
    ensures Group(p, a + b) == Group(p, a) + Group(p, b)
  {
    if |a| == 0 {
      assert a + b == b;
    } else {
      assert (a + b)[1..] == a[1..] + b;
      GroupAppend(p, a[1..], b);
    }
  }

  /** A distance is in the group of `p` exactly when some sample of that
      unordered pair carries it. */
  lemma {:induction false} GroupMembers(p: Pair, samples: seq<Sample>, d: NonNegReal)
    ensures d in Group(p, samples)
            <==> exists i :: 0 <= i < |samples| && Matches(p, samples[i]) && samples[i].sq == d
  {
    if |samples| > 0 {
      GroupMembers(p, samples[1..], d);
      if d in Group(p, samples[1..]) {
        var i :| 0 <= i < |samples[1..]| && Matches(p, samples[1..][i]) && samples[1..][i].sq == d;
        assert samples[i + 1] == samples[1..][i];
      }
      if exists i :: 0 <= i < |samples| && Matches(p, samples[i]) && samples[i].sq == d {
        var i :| 0 <= i < |samples| && Matches(p, samples[i]) && samples[i].sq == d;
        if i > 0 {
          assert samples[1..][i - 1] == samples[i];
        }
      }
    }
  }

  /** `distribution_distances`: every given pair mapped to its group. */
  function Distribution(pairs: set<Pair>, samples: seq<Sample>): (m: map<Pair, seq<NonNegReal>>)
    ensures m.Keys == pairs
    ensures forall p :: p in m ==> m[p] == Group(p, samples)
  {
    map p | p in pairs :: Group(p, samples)
  }

  /** `[item[2] for item in distances_list]` */
  function Sqs(samples: seq<Sample>): (ds: seq<NonNegReal>)
    ensures |ds| == |samples|
    ensures forall i :: 0 <= i < |ds| ==> ds[i] == samples[i].sq
  {
    seq(|samples|, i requires 0 <= i < |samples| => samples[i].sq)
  }

  // ---------------------------------------------------------------------
  // Histograms

  /** Number of unit-width bins, covering distances 0 to 20. */
  const Bins: nat := 20

  /** How a distance picks its bin. `AsWritten` is the program's
      `int(distance / 1)`, which for a distance of exactly 20 names a bin
      that does not exist; `ClampLast` puts that distance in the last bin. */
  datatype Binning = AsWritten | ClampLast

  /** A distance has one of the 20 bins exactly when it is below 20 Å. */
  lemma BinBelowCutoff(sq: NonNegReal)
    ensures IntSqrt(sq) < Bins <==> sq < CutoffSq
  {
    var r := IntSqrt(sq);
    if r < Bins {
      SquareMonotone(r + 1, Bins);
    } else {
      SquareMonotone(Bins, r);
    }
  }

  function BinOf(b: Binning, sq: NonNegReal): (k: nat)
    ensures b == AsWritten ==> k == IntSqrt(sq)
    ensures b == ClampLast ==> k < Bins
    ensures b == ClampLast && sq < CutoffSq ==> k == IntSqrt(sq)
    ensures b == ClampLast && sq == CutoffSq ==> k == Bins - 1
  {
    BinBelowCutoff(sq);
    var k := IntSqrt(sq);
    if b == ClampLast && k >= Bins then Bins - 1 else k
  }

  /** Where the program's binning has a bin, the corrected one picks the
      same bin. */
  lemma BinningsAgree(ds: seq<NonNegReal>)
    requires Binnable(AsWritten, ds)
    ensures Binnable(ClampLast, ds)
    ensures forall i :: 0 <= i < |ds| ==> BinOf(ClampLast, ds[i]) == BinOf(AsWritten, ds[i])
  {
  }

  /** Either binning puts the same number of distances into bin `k` when the
      program's binning has a bin for every distance. */
  lemma {:induction false} CountBinAgrees(ds: seq<NonNegReal>, k: nat)
    requires Binnable(AsWritten, ds)
    ensures CountBin(ClampLast, ds, k) == CountBin(AsWritten, ds, k)
  {
    if |ds| > 0 {
      assert BinOf(ClampLast, ds[0]) == BinOf(AsWritten, ds[0]) by {
        BinBelowCutoff(ds[0]);
      }
      assert Binnable(AsWritten, ds[1..]) by {
        assert forall i :: 0 <= i < |ds| - 1 ==> ds[1..][i] == ds[i + 1];
      }
      CountBinAgrees(ds[1..], k);
    }
  }

  /** Counting with either binning gives the same counts when the program's
      binning has a bin for every distance. */
  lemma TallyAgrees(ds: seq<NonNegReal>, acc: seq<nat>)
    requires |acc| == Bins && Binnable(AsWritten, ds)
    ensures Binnable(ClampLast, ds)
    ensures Tally(ClampLast, ds, acc) == Tally(AsWritten, ds, acc)
  {
    BinningsAgree(ds);
    forall k | 0 <= k < Bins
      ensures Tally(ClampLast, ds, acc)[k] == Tally(AsWritten, ds, acc)[k]
    {
      CountBinAgrees(ds, k);
    }
  }

  /** Every distance has a bin: the counting loop does not fail. */
  predicate Binnable(b: Binning, ds: seq<NonNegReal>) {
    forall i :: 0 <= i < |ds| ==> BinOf(b, ds[i]) < Bins
  }

  /** How many of `ds` fall in bin `k`. */
  function CountBin(b: Binning, ds: seq<NonNegReal>, k: nat): (c: nat)
    ensures c <= |ds|
  {
    if |ds| == 0 then 0
    else (if BinOf(b, ds[0]) == k then 1 else 0) + CountBin(b, ds[1..], k)
  }

  function Zeros(): (z: seq<nat>)
    ensures |z| == Bins && forall k :: 0 <= k < Bins ==> z[k] == 0
  {
    seq(Bins, _ => 0)
  }

  /** The counting loop `interval_counts[int(d)] += 1`, one distance at a
      time, starting from the counts `acc`. */
  function Tally(b: Binning, ds: seq<NonNegReal>, acc: seq<nat>): (r: seq<nat>)
    requires |acc| == Bins && Binnable(b, ds)
    ensures |r| == Bins
    ensures forall k :: 0 <= k < Bins ==> r[k] == acc[k] + CountBin(b, ds, k)
  {
    if |ds| == 0 then acc
    else
      var k := BinOf(b, ds[0]);
      Tally(b, ds[1..], acc[k := acc[k] + 1])
  }

  function SumNat(xs: seq<nat>): (total: nat) {
    if |xs| == 0 then 0 else xs[0] + SumNat(xs[1..])
  }

  lemma {:induction false} SumNatBump(xs: seq<nat>, k: nat)
    requires k < |xs|
    ensures SumNat(xs[k := xs[k] + 1]) == SumNat(xs) + 1
  {
    if k > 0 {
      SumNatBump(xs[1..], k - 1);
      assert xs[k := xs[k] + 1][1..] == xs[1..][k - 1 := xs[k] + 1];
    }
  }

  lemma {:induction false} TallyAddsLength(b: Binning, ds: seq<NonNegReal>, acc: seq<nat>)
    requires |acc| == Bins && Binnable(b, ds)
    ensures SumNat(Tally(b, ds, acc)) == SumNat(acc) + |ds|
  {
    if |ds| > 0 {
      var k := BinOf(b, ds[0]);
      SumNatBump(acc, k);
      TallyAddsLength(b, ds[1..], acc[k := acc[k] + 1]);
    }
  }

  lemma {:induction false} SumZeros(n: nat)
    ensures SumNat(seq(n, _ => 0)) == 0
  {
    if n > 0 {
      assert seq(n, _ => 0)[1..] == seq(n - 1, _ => 0);
      SumZeros(n - 1);
    }
  }

  /** The bin counts add up to the number of distances counted. */
  lemma CountsSumToSize(b: Binning, ds: seq<NonNegReal>)
    requires Binnable(b, ds)
    ensures SumNat(Tally(b, ds, Zeros())) == |ds|
  {
    SumZeros(Bins);
    TallyAddsLength(b, ds, Zeros());
  }

  /** `count / len(ds) if len(ds) > 0 else 0` for one bin. */
  function Ratio(c: nat, n: nat): (q: real)
    ensures q >= 0.0
    ensures q == 0.0 <==> n == 0 || c == 0
    ensures n > 0 ==> q * n as real == c as real
  {
    if n > 0 then c as real / n as real else 0.0
  }

  /** `[count / len(ds) if len(ds) > 0 else 0 for count in counts]` */
  function Frequencies(counts: seq<nat>, n: nat): (f: seq<real>)
    ensures |f| == |counts|
    ensures forall k :: 0 <= k < |f| ==> f[k] >= 0.0
    ensures forall k :: 0 <= k < |f| ==> (f[k] == 0.0 <==> n == 0 || counts[k] == 0)
    ensures n > 0 ==> forall k :: 0 <= k < |f| ==> f[k] * n as real == counts[k] as real
  {
    seq(|counts|, k requires 0 <= k < |counts| => Ratio(counts[k], n))
  }

  lemma DivAdd(a: real, b: real, n: real)
    requires n > 0.0
    ensures a / n + b / n == (a + b) / n
  {
  }

  lemma {:induction false} SumFrequencies(counts: seq<nat>, n: nat)
    requires n > 0
    ensures SumReal(Frequencies(counts, n)) == SumNat(counts) as real / n as real
  {
    if |counts| > 0 {
      SumFrequencies(counts[1..], n);
      assert Frequencies(counts, n)[1..] == Frequencies(counts[1..], n);
      DivAdd(counts[0] as real, SumNat(counts[1..]) as real, n as real);
    }
  }

  /** Normalised counts of a non-empty list sum to one. */
  lemma FrequenciesSumToOne(b: Binning, ds: seq<NonNegReal>)
    requires Binnable(b, ds) && |ds| > 0
    ensures SumReal(Frequencies(Tally(b, ds, Zeros()), |ds|)) == 1.0
  {
    var t := Tally(b, ds, Zeros());
    CountsSumToSize(b, ds);
    SumFrequencies(t, |ds|);
    DivSelf(|ds| as real);
  }

  lemma DivSelf(x: real)
    requires x > 0.0
    ensures x / x == 1.0
  {
  }

  /** `compute_observed_frequency`: 20 normalised bins per pair; fails, as the
      program's IndexError does, if any distance of any pair has no bin. */
  function ObservedFrequency(b: Binning, groups: map<Pair, seq<NonNegReal>>)
    : (r: Result<map<Pair, seq<real>>, Error>)
    ensures r.Ok? <==> forall p :: p in groups ==> Binnable(b, groups[p])
    ensures r.Ok? ==> r.value.Keys == groups.Keys
    ensures r.Ok? ==> forall p :: p in groups ==>
              r.value[p] == Frequencies(Tally(b, groups[p], Zeros()), |groups[p]|)
  {
    if forall p :: p in groups ==> Binnable(b, groups[p]) then
      Ok(map p | p in groups :: Frequencies(Tally(b, groups[p], Zeros()), |groups[p]|))
    else
      Err(BinOutOfRange)
  }

  /** `compute_reference_frequency`: the same binning over every sample,
      whatever its nucleotides. */
  function ReferenceFrequency(b: Binning, samples: seq<Sample>): (r: Result<seq<real>, Error>)
    ensures r.Ok? <==> Binnable(b, Sqs(samples))
    ensures r.Ok? ==> r.value == Frequencies(Tally(b, Sqs(samples), Zeros()), |samples|)
  {
    var ds := Sqs(samples);
    if Binnable(b, ds) then Ok(Frequencies(Tally(b, ds, Zeros()), |ds|)) else Err(BinOutOfRange)
  }

  /** Where the program's binning succeeds, the corrected binning gives the
      same observed frequencies. */
  lemma ObservedAgrees(groups: map<Pair, seq<NonNegReal>>)
    requires ObservedFrequency(AsWritten, groups).Ok?
    ensures ObservedFrequency(ClampLast, groups) == ObservedFrequency(AsWritten, groups)
  {
    forall p | p in groups
      ensures Binnable(ClampLast, groups[p])
      ensures Tally(ClampLast, groups[p], Zeros()) == Tally(AsWritten, groups[p], Zeros())
    {
      TallyAgrees(groups[p], Zeros());
    }
    var c := ObservedFrequency(ClampLast, groups).value;
    var a := ObservedFrequency(AsWritten, groups).value;
    assert c == a;
  }

  /** Where the program's binning succeeds, the corrected binning gives the
      same reference frequencies. */
  lemma ReferenceAgrees(samples: seq<Sample>)
    requires ReferenceFrequency(AsWritten, samples).Ok?
    ensures ReferenceFrequency(ClampLast, samples) == ReferenceFrequency(AsWritten, samples)
  {
    TallyAgrees(Sqs(samples), Zeros());
  }

  /** `-log(obs / ref)`, with the logarithm supplied by the caller. */
  function BinEnergy(obs: real, ref: real, ln: real -> real): (e: real)
    requires ref != 0.0
  {
    -ln(obs / ref)
  }

  /** The score of one bin: `-log(obs / ref)`, or `+inf` when either is zero. */
  function LogOdds(obs: seq<real>, ref: seq<real>, ln: real -> real): (s: seq<Score>)
    ensures |s| == if |obs| <= |ref| then |obs| else |ref|
    ensures forall k :: 0 <= k < |s| ==> (s[k] == PosInf <==> obs[k] == 0.0 || ref[k] == 0.0)
    ensures forall k :: 0 <= k < |s| && s[k] != PosInf ==> s[k] == Finite(BinEnergy(obs[k], ref[k], ln))
  {
    var n := if |obs| <= |ref| then |obs| else |ref|;
    seq(n, k requires 0 <= k < n =>
          if ref[k] != 0.0 && obs[k] != 0.0 then Finite(BinEnergy(obs[k], ref[k], ln)) else PosInf)
  }

  /** One entry of `LogOdds`, for callers that know the two frequencies. */
  lemma LogOddsAt(obs: seq<real>, ref: seq<real>, ln: real -> real, k: nat)
    requires k < |obs| && k < |ref|
    ensures var s := LogOdds(obs, ref, ln);
            && k < |s|
            && (obs[k] == 0.0 || ref[k] == 0.0 ==> s[k] == PosInf)
            && (obs[k] != 0.0 && ref[k] != 0.0 ==> s[k] == Finite(BinEnergy(obs[k], ref[k], ln)))
  {
  }

  /** `compute_pseudo_energy`: the same keys, every pair scored against the
      one reference vector. */
  function PseudoEnergy(obs: map<Pair, seq<real>>, ref: seq<real>, ln: real -> real)
    : (m: map<Pair, seq<Score>>)
    ensures m.Keys == obs.Keys
    ensures forall p :: p in m ==> m[p] == LogOdds(obs[p], ref, ln)
  {
    map p | p in obs :: LogOdds(obs[p], ref, ln)
  }

  /** A pair's count in a bin never exceeds the count over all samples. */
  lemma {:induction false} GroupCountBounded(b: Binning, p: Pair, samples: seq<Sample>, k: nat)
    ensures CountBin(b, Group(p, samples), k) <= CountBin(b, Sqs(samples), k)
  {
    if |samples| > 0 {
      var s0, rest := samples[0], samples[1..];
      GroupCountBounded(b, p, rest, k);
      var all := Sqs(samples);
      assert all[1..] == Sqs(rest);
      var bit := if BinOf(b, s0.sq) == k then 1 else 0;
      assert CountBin(b, all, k) == bit + CountBin(b, Sqs(rest), k);
      var g := Group(p, samples);
      if Matches(p, s0) {
        assert g == [s0.sq] + Group(p, rest);
        assert g[1..] == Group(p, rest);
        assert CountBin(b, g, k) == bit + CountBin(b, Group(p, rest), k);
      } else {
        assert g == [] + Group(p, rest);
        assert g == Group(p, rest);
      }
    }
  }

  /** Every grouped distance is one of the samples' distances, so grouped
      distances have bins whenever all distances do. */
  lemma {:induction false} GroupBinnable(b: Binning, p: Pair, samples: seq<Sample>)
    requires Binnable(b, Sqs(samples))
    ensures Binnable(b, Group(p, samples))
  {
    if |samples| > 0 {
      assert Sqs(samples)[1..] == Sqs(samples[1..]);
      GroupBinnable(b, p, samples[1..]);
      assert BinOf(b, Sqs(samples)[0]) < Bins;
    }
  }
}
