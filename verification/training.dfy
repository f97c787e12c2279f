/** The training script's composition: samples of every structure file,
    the set of sorted nucleotide pairs, the grouping, both frequency
    vectors and the score table of every pair. */
module Training {
  import opened Numeric
  import opened Text
  import opened Results
  import opened PdbReader
  import opened Distances
  import opened Statistics
  import opened Sequences

  /** `all_distances.extend(distances)` for each file in turn. */
  function AllDistances(corpus: seq<seq<Sample>>): (all: seq<Sample>)
    ensures forall s :: s in all <==> exists f :: 0 <= f < |corpus| && s in corpus[f]
  {
    if |corpus| == 0 then []
    else
      var init := corpus[..|corpus| - 1];
      assert forall f :: 0 <= f < |init| ==> init[f] == corpus[f];
      AllDistances(init) + corpus[|corpus| - 1]
  }

  /** Extending file by file is concatenation in iteration order. */
  lemma {:induction false} AllDistancesAppend(a: seq<seq<Sample>>, b: seq<seq<Sample>>)
    ensures AllDistances(a + b) == AllDistances(a) + AllDistances(b)
    decreases |b|
  {
    if |b| == 0 {
      assert a + b == a;
    } else {
      assert (a + b)[..|a + b| - 1] == a + b[..|b| - 1];
      AllDistancesAppend(a, b[..|b| - 1]);
    }
  }

  /** A single file's samples are accumulated as they are, in order and with
      their repeats. */
  lemma AllDistancesOne(x: seq<Sample>)
    ensures AllDistances([x]) == x
  {
    assert [x][..0] == [];
  }

  /** The per-file sample lists of a training set, each file read and its
      distances computed independently. */
  function CorpusSamples(files: seq<seq<string>>, coord: string -> real): (c: seq<seq<Sample>>)
    ensures |c| == |files|
  {
    seq(|files|, f requires 0 <= f < |files| => CalculateDistances(ReadPdb(files[f]), coord))
  }

  /** `unique_pairs`: the sorted nucleotide pair of every sample. */
  function UniquePairs(samples: seq<Sample>): (u: set<Pair>)
    ensures forall p :: p in u ==> StrLe(p.0, p.1)
    ensures forall s :: s in samples ==> Canon(s.n1, s.n2) in u
    ensures forall p :: p in u ==> exists s :: s in samples && Canon(s.n1, s.n2) == p
  {
    set s | s in samples :: Canon(s.n1, s.n2)
  }

  /** Lines 23–33 of the training script: pairs, grouping, observed and
      reference frequencies, pseudo-energies. Fails when a distance has no
      bin, as the script's IndexError does. */
  function Train(b: Binning, samples: seq<Sample>, ln: real -> real)
    : (r: Result<map<Pair, seq<Score>>, Error>)
    ensures r.Ok? <==> Binnable(b, Sqs(samples))
    ensures r.Ok? ==> r.value.Keys == UniquePairs(samples)
  {
    var pairs := UniquePairs(samples);
    var groups := Distribution(pairs, samples);
    DistributionBinnable(b, samples);
    match ObservedFrequency(b, groups)
    case Err(e) => Err(e)
    case Ok(obs) =>
      match ReferenceFrequency(b, samples)
      case Err(e) => Err(e)
      case Ok(ref) => Ok(PseudoEnergy(obs, ref, ln))
  }

  /** No accumulated sample is farther apart than the cut-off; the proof
      behind `Corpus`'s contract. */
  lemma CorpusWithinCutoff(files: seq<seq<string>>, coord: string -> real)
    ensures forall i :: 0 <= i < |AllDistances(CorpusSamples(files, coord))| ==>
              AllDistances(CorpusSamples(files, coord))[i].sq <= CutoffSq
  {
    var corpus := CorpusSamples(files, coord);
    var all := AllDistances(corpus);
    forall i | 0 <= i < |all| ensures all[i].sq <= CutoffSq {
      assert all[i] in all;
      var f :| 0 <= f < |corpus| && all[i] in corpus[f];
      EmittedSamplesQualify(ReadPdb(files[f]), coord, all[i]);
    }
  }

  /** The whole training run over the lines of each structure file. As
      written it fails exactly when some file holds two atoms exactly 20 Å
      apart that pass the filters; with the last bin closed it never fails. */
  function TrainOnFiles(b: Binning, files: seq<seq<string>>, coord: string -> real, ln: real -> real)
    : (r: Result<map<Pair, seq<Score>>, Error>)
    ensures b == AsWritten ==>
              (r.Err? <==> exists i :: 0 <= i < |Corpus(files, coord)| && Corpus(files, coord)[i].sq == CutoffSq)
    ensures b == ClampLast ==> r.Ok?
  {
    var all := Corpus(files, coord);
    AsWrittenFailsAtCutoff(all, ln);
    ClampLastNeverFails(all, ln);
    Train(b, all, ln)
  }

  /** `all_distances` after every file: no sample is farther apart than the
      cut-off. What it holds is stated by `CorpusEmpty` and `CorpusExtend`. */
  function Corpus(files: seq<seq<string>>, coord: string -> real): (all: seq<Sample>)
    ensures forall i :: 0 <= i < |all| ==> all[i].sq <= CutoffSq
  {
    CorpusWithinCutoff(files, coord);
    AllDistances(CorpusSamples(files, coord))
  }

  /** Before any file, nothing has been accumulated. */
  lemma CorpusEmpty(coord: string -> real)
    ensures Corpus([], coord) == []
  {
    assert CorpusSamples([], coord) == [];
  }

  /** One more file extends `all_distances` with that file's samples, in
      order: the loop body `all_distances.extend(distances)`. */
  lemma CorpusExtend(files: seq<seq<string>>, f: seq<string>, coord: string -> real)
    ensures Corpus(files + [f], coord) == Corpus(files, coord) + CalculateDistances(ReadPdb(f), coord)
  {
    var x := CalculateDistances(ReadPdb(f), coord);
    var before, after := CorpusSamples(files, coord), CorpusSamples(files + [f], coord);
    assert after == before + [x] by {
      assert forall i :: 0 <= i < |files| ==> (files + [f])[i] == files[i];
      assert (files + [f])[|files|] == f;
    }
    AllDistancesAppend(before, [x]);
    AllDistancesOne(x);
  }

  // ---------------------------------------------------------------------
  // The groups partition the samples

  /** Every sample falls in exactly one group: that of its sorted pair. */
  lemma GroupsPartition(samples: seq<Sample>, s: Sample)
    requires s in samples
    ensures var c := Canon(s.n1, s.n2);
            && c in UniquePairs(samples) && Matches(c, s)
            && forall p :: p in UniquePairs(samples) && Matches(p, s) ==> p == c
  {
    var c := Canon(s.n1, s.n2);
    MatchesSorted(c, s);
    forall p | p in UniquePairs(samples) && Matches(p, s)
      ensures p == c
    {
      MatchesSorted(p, s);
    }
  }

  /** The number of samples whose sorted pair is in `u`. */
  function CountSortedIn(u: set<Pair>, samples: seq<Sample>): (c: nat)
    ensures c <= |samples|
  {
    if |samples| == 0 then 0
    else (if Canon(samples[0].n1, samples[0].n2) in u then 1 else 0) + CountSortedIn(u, samples[1..])
  }

  lemma {:induction false} CountSortedInAll(u: set<Pair>, samples: seq<Sample>)
    requires forall s :: s in samples ==> Canon(s.n1, s.n2) in u
    ensures CountSortedIn(u, samples) == |samples|
  {
    if |samples| > 0 {
      assert samples[0] in samples;
      CountSortedInAll(u, samples[1..]);
    }
  }

  lemma {:induction false} CountSortedInSplit(u: set<Pair>, p: Pair, samples: seq<Sample>)
    requires p in u && StrLe(p.0, p.1)
    ensures CountSortedIn(u, samples) == |Group(p, samples)| + CountSortedIn(u - {p}, samples)
  {
    if |samples| > 0 {
      MatchesSorted(p, samples[0]);
      CountSortedInSplit(u, p, samples[1..]);
    }
  }

  /** The group sizes, over the pairs in the order `keys` lists them. */
  function SumSizes(keys: seq<Pair>, samples: seq<Sample>): (total: nat) {
    if |keys| == 0 then 0 else |Group(keys[0], samples)| + SumSizes(keys[1..], samples)
  }

  lemma {:induction false} SumSizesCounts(keys: seq<Pair>, samples: seq<Sample>)
    requires Distinct(keys)
    requires forall i :: 0 <= i < |keys| ==> StrLe(keys[i].0, keys[i].1)
    ensures SumSizes(keys, samples) == CountSortedIn((set k | k in keys), samples)
  {
    var u := set k | k in keys;
    if |keys| == 0 {
      CountSortedInNone(u, samples);
    } else {
      var rest := keys[1..];
      assert (set k | k in rest) == u - {keys[0]} by {
        forall k | k in rest ensures k != keys[0] {
          var j :| 0 <= j < |rest| && rest[j] == k;
          assert keys[j + 1] == k;
        }
        assert forall k :: k in keys ==> k == keys[0] || k in rest;
      }
      SumSizesCounts(rest, samples);
      CountSortedInSplit(u, keys[0], samples);
    }
  }

  lemma {:induction false} CountSortedInNone(u: set<Pair>, samples: seq<Sample>)
    requires u == {}
    ensures CountSortedIn(u, samples) == 0
  {
    if |samples| > 0 {
      CountSortedInNone(u, samples[1..]);
    }
  }

  /** Whatever order the set of pairs is iterated in, the group sizes add up
      to the number of samples: no sample is lost or counted twice. */
  lemma GroupSizesSum(samples: seq<Sample>, keys: seq<Pair>)
    requires Distinct(keys) && (set k | k in keys) == UniquePairs(samples)
    ensures SumSizes(keys, samples) == |samples|
  {
    SumSizesCounts(keys, samples);
    CountSortedInAll(UniquePairs(samples), samples);
  }

  lemma {:induction false} GroupHasSample(p: Pair, samples: seq<Sample>, s: Sample)
    requires s in samples && Matches(p, s)
    ensures |Group(p, samples)| > 0
  {
    if samples[0] != s {
      GroupHasSample(p, samples[1..], s);
    }
  }

  /** No group is empty, so the observed frequencies of a pair are always
      counts divided by a non-zero total. */
  lemma GroupsNonEmpty(samples: seq<Sample>, p: Pair)
    requires p in UniquePairs(samples)
    ensures |Group(p, samples)| > 0
  {
    var s :| s in samples && Canon(s.n1, s.n2) == p;
    MatchesSorted(p, s);
    GroupHasSample(p, samples, s);
  }

  // ---------------------------------------------------------------------
  // When training succeeds, and what it produces

  /** When every distance has a bin, so does every distance of every group. */
  lemma DistributionBinnable(b: Binning, samples: seq<Sample>)
    ensures Binnable(b, Sqs(samples)) ==>
              forall p :: p in Distribution(UniquePairs(samples), samples) ==>
                Binnable(b, Distribution(UniquePairs(samples), samples)[p])
  {
    var groups := Distribution(UniquePairs(samples), samples);
    if Binnable(b, Sqs(samples)) {
      forall p | p in groups ensures Binnable(b, groups[p]) {
        GroupBinnable(b, p, samples);
      }
    }
  }

  /** With the last bin closed at 20, training never fails. */
  lemma ClampLastNeverFails(samples: seq<Sample>, ln: real -> real)
    ensures Train(ClampLast, samples, ln).Ok?
  {
    assert Binnable(ClampLast, Sqs(samples));
  }

  /** Closing the last bin changes nothing where the program already
      trains: on any samples it accepts, both binnings give the same table. */
  lemma ClampLastAgreesWhereProgramWorks(samples: seq<Sample>, ln: real -> real)
    requires Train(AsWritten, samples, ln).Ok?
    ensures Train(ClampLast, samples, ln) == Train(AsWritten, samples, ln)
  {
    var groups := Distribution(UniquePairs(samples), samples);
    DistributionBinnable(AsWritten, samples);
    ObservedAgrees(groups);
    ReferenceAgrees(samples);
  }

  /** On samples within the cut-off, the program's binning fails exactly when
      some distance is exactly 20. */
  lemma AsWrittenFailsAtCutoff(samples: seq<Sample>, ln: real -> real)
    requires forall i :: 0 <= i < |samples| ==> samples[i].sq <= CutoffSq
    ensures Train(AsWritten, samples, ln).Err?
            <==> exists i :: 0 <= i < |samples| && samples[i].sq == CutoffSq
  {
    forall i | 0 <= i < |samples|
      ensures BinOf(AsWritten, Sqs(samples)[i]) < Bins <==> samples[i].sq != CutoffSq
    {
      BinBelowCutoff(samples[i].sq);
    }
  }

  /** The trained table has one entry per sorted pair, 20 scores each; a
      score is `+inf` exactly when the pair has no sample in that bin (a
      pair's count never exceeds the global count, so a non-zero observed
      frequency always meets a non-zero reference one), and otherwise it is
      `-log(obs / ref)` of the two frequencies. */
  lemma TrainedScores(b: Binning, samples: seq<Sample>, ln: real -> real, p: Pair, k: nat)
    requires Binnable(b, Sqs(samples))
    requires p in UniquePairs(samples) && k < Bins
    ensures Train(b, samples, ln).Ok?
    ensures Train(b, samples, ln).value.Keys == UniquePairs(samples)
    ensures |Train(b, samples, ln).value[p]| == Bins
    ensures Train(b, samples, ln).value[p][k] == PosInf <==> CountBin(b, Group(p, samples), k) == 0
    ensures Train(b, samples, ln).value[p][k] != PosInf ==>
              Ratio(CountBin(b, Sqs(samples), k), |samples|) > 0.0
              && Train(b, samples, ln).value[p][k]
                 == Finite(BinEnergy(Ratio(CountBin(b, Group(p, samples), k), |Group(p, samples)|),
                                  Ratio(CountBin(b, Sqs(samples), k), |samples|), ln))
  {
    var u := UniquePairs(samples);
    var groups := Distribution(u, samples);
    var g := Group(p, samples);
    TrainParts(b, samples, ln);
    var obs := ObservedFrequency(b, groups).value;
    var ref := ReferenceFrequency(b, samples).value;
    var m := Train(b, samples, ln).value;
    assert m[p] == LogOdds(obs[p], ref, ln);
    ObservedAt(b, samples, p, k);
    ReferenceAt(b, samples, k);
    GroupsNonEmpty(samples, p);
    GroupCountBounded(b, p, samples, k);
    var o := Ratio(CountBin(b, g, k), |g|);
    var r := Ratio(CountBin(b, Sqs(samples), k), |samples|);
    EntryScore(obs[p], ref, ln, k, o, r);
  }

  /** A pair's observed frequency in one bin is its count over its group size. */
  lemma ObservedAt(b: Binning, samples: seq<Sample>, p: Pair, k: nat)
    requires Binnable(b, Sqs(samples))
    requires p in UniquePairs(samples) && k < Bins
    ensures ObservedFrequency(b, Distribution(UniquePairs(samples), samples)).Ok?
    ensures var obs := ObservedFrequency(b, Distribution(UniquePairs(samples), samples)).value;
            && p in obs
            && |obs[p]| == Bins
            && obs[p][k] == Ratio(CountBin(b, Group(p, samples), k), |Group(p, samples)|)
  {
    var groups := Distribution(UniquePairs(samples), samples);
    forall q | q in groups ensures Binnable(b, groups[q]) {
      GroupBinnable(b, q, samples);
    }
    var g := Group(p, samples);
    assert groups[p] == g;
    var t := Tally(b, g, Zeros());
    assert t[k] == CountBin(b, g, k);
  }

  /** The reference frequency of one bin is its count over all samples. */
  lemma ReferenceAt(b: Binning, samples: seq<Sample>, k: nat)
    requires ReferenceFrequency(b, samples).Ok? && k < Bins
    ensures var ref := ReferenceFrequency(b, samples).value;
            && |ref| == Bins
            && ref[k] == Ratio(CountBin(b, Sqs(samples), k), |samples|)
  {
    var t := Tally(b, Sqs(samples), Zeros());
    assert t[k] == CountBin(b, Sqs(samples), k);
  }

  /** One bin's score in terms of its two frequencies. */
  lemma EntryScore(obs: seq<real>, ref: seq<real>, ln: real -> real, k: nat, o: real, r: real)
    requires k < |obs| && k < |ref| && obs[k] == o && ref[k] == r && r >= 0.0
    ensures var s := LogOdds(obs, ref, ln);
            && k < |s|
            && (s[k] == PosInf <==> o == 0.0 || r == 0.0)
            && (s[k] != PosInf ==> r > 0.0 && s[k] == Finite(BinEnergy(o, r, ln)))
  {
    LogOddsAt(obs, ref, ln, k);
  }

  /** A successful run is the pseudo-energy of the two frequency results. */
  lemma TrainParts(b: Binning, samples: seq<Sample>, ln: real -> real)
    requires Train(b, samples, ln).Ok?
    ensures var groups := Distribution(UniquePairs(samples), samples);
            && ObservedFrequency(b, groups).Ok?
            && ReferenceFrequency(b, samples).Ok?
            && Train(b, samples, ln).value
               == PseudoEnergy(ObservedFrequency(b, groups).value, ReferenceFrequency(b, samples).value, ln)
  {
  }

  // ---------------------------------------------------------------------
  // The cut-off and the last bin disagree

  /** Two C3' atoms four records apart on one chain, exactly 20 Å apart,
      with three atoms at the origin between them. */
  const Origin: Record := Record("C3'", "A", "A", "1", "0", "0", "0")
  const Far: Record := Record("C3'", "U", "A", "5", "20", "0", "0")

  function BoundaryRecords(): (recs: seq<Record>) {
    [Origin, Origin, Origin, Origin, Far]
  }

  function BoundaryCoord(s: string): (v: real) {
    if s == Far.x then 20.0 else 0.0
  }

  /** The pair at exactly 20 Å passes the `d <= 20` test, and its distance
      then indexes bin 20 of a 20-bin list: training as written fails on
      this structure, while closing the last bin lets it through. */
  lemma BoundaryStructureBreaksTraining(ln: real -> real)
    ensures var samples := CalculateDistances(BoundaryRecords(), BoundaryCoord);
            && Sample("A", "U", CutoffSq) in samples
            && Train(AsWritten, samples, ln).Err?
            && Train(ClampLast, samples, ln).Ok?
  {
    var recs := BoundaryRecords();
    assert recs[0] == Origin && recs[4] == Far;
    assert Origin.x != Far.x by {
      assert |Origin.x| != |Far.x|;
    }
    assert BoundaryCoord(Far.x) == 20.0 && BoundaryCoord(Origin.x) == 0.0;
    assert BoundaryCoord(Far.y) == 0.0 && BoundaryCoord(Far.z) == 0.0;
    assert SqDist(Origin, Far, BoundaryCoord) == CutoffSq;
    assert Qualifies(recs, BoundaryCoord, 0, 4);
    var samples := CalculateDistances(recs, BoundaryCoord);
    var ps := SelectedPairs(recs, BoundaryCoord);
    var k :| 0 <= k < |ps| && ps[k] == (0, 4);
    assert samples[k] == Sample("A", "U", CutoffSq);
    forall i | 0 <= i < |samples| ensures samples[i].sq <= CutoffSq {
      assert Qualifies(recs, BoundaryCoord, ps[i].0, ps[i].1);
    }
    AsWrittenFailsAtCutoff(samples, ln);
    ClampLastNeverFails(samples, ln);
  }
}
