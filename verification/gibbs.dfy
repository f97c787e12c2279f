/** Estimating the Gibbs free energy of one structure: the table of score
    files per ordered nucleotide pair, the score of every distinct sample
    and their finite sum. Reading a score file is the parameter `tables`,
    from file name to the list of scores it holds. */
module Gibbs {
  import opened Numeric
  import opened Text
  import opened Results
  import opened PdbReader
  import opened Distances
  import opened Statistics
  import opened Scoring
  import opened Sequences
  import Training

  /** The four nucleotides that have score files. */
  const Bases: set<string> := {"A", "U", "G", "C"}

  /** The ten entries written out in the constructor. */
  const Forward: map<Pair, string> := map[
    ("A", "A") := "A_A_scores.txt",
    ("A", "U") := "A_U_scores.txt",
    ("A", "G") := "A_G_scores.txt",
    ("A", "C") := "A_C_scores.txt",
    ("U", "U") := "U_U_scores.txt",
    ("U", "G") := "G_U_scores.txt",
    ("U", "C") := "C_U_scores.txt",
    ("G", "G") := "G_G_scores.txt",
    ("G", "C") := "C_G_scores.txt",
    ("C", "C") := "C_C_scores.txt"
  ]

  /** `{pair[::-1]: filename for pair, filename in m.items()}` */
  function Reversed(m: map<Pair, string>): (r: map<Pair, string>)
    ensures forall a, b :: (a, b) in r <==> (b, a) in m
    ensures forall a, b :: (a, b) in r ==> r[(a, b)] == m[(b, a)]
  {
    map p | p in m :: (p.1, p.0) := m[p]
  }

  /** `score_files` after the `update` with the reversed pairs. */
  const ScoreFiles: map<Pair, string> := Forward + Reversed(Forward)

  /** The name training writes a pair's table under. */
  function FileName(p: Pair): (name: string) {
    p.0 + "_" + p.1 + "_scores.txt"
  }

  /** The pair can be read back from its file name: the first nucleotide
      before the first `_`, the second between it and `_scores.txt`. */
  lemma FileNameParts(p: Pair)
    ensures var name := FileName(p);
            && |name| == |p.0| + |p.1| + 12
            && name[..|p.0|] == p.0 && name[|p.0|] == '_'
            && name[|p.0| + 1..|name| - 11] == p.1 && name[|name| - 11..] == "_scores.txt"
  {
    var name := FileName(p);
    assert name[..|p.0|] == p.0;
    assert name[|p.0| + 1..|name| - 11] == p.1;
    assert name[|name| - 11..] == "_scores.txt";
  }

  /** Pairs whose first nucleotides have the same length, single letters in
      particular, get the same file name only when they are the same pair. */
  lemma FileNameInjective(p: Pair, q: Pair)
    requires |p.0| == |q.0|
    ensures FileName(p) == FileName(q) <==> p == q
  {
    FileNameParts(p);
    FileNameParts(q);
  }

  /** After the update, a pair is present when either order was written
      out, and the reversed entry wins. */
  lemma UpdateReversed(m: map<Pair, string>, a: string, b: string)
    ensures (a, b) in m + Reversed(m) <==> (a, b) in m || (b, a) in m
    ensures (b, a) in m ==> (m + Reversed(m))[(a, b)] == m[(b, a)]
    ensures (a, b) in m && (b, a) !in m ==> (m + Reversed(m))[(a, b)] == m[(a, b)]
  {
  }

  /** The written-out pairs: every unordered pair of bases exactly once. */
  lemma ForwardKeys(a: string, b: string)
    ensures (a, b) in Forward <==>
            || (a == "A" && b in Bases)
            || (a == "U" && b in {"U", "G", "C"})
            || (a == "G" && b in {"G", "C"})
            || (a == "C" && b == "C")
  {
  }

  lemma BasesDistinct()
    ensures "A" != "U" && "A" != "G" && "A" != "C"
    ensures "U" != "G" && "U" != "C" && "G" != "C"
  {
    assert "A"[0] == 'A' && "U"[0] == 'U' && "G"[0] == 'G' && "C"[0] == 'C';
  }

  /** The sorted order of two bases, as `sorted` gives it. */
  lemma CanonOfBases(a: string, b: string)
    requires a in Bases && b in Bases
    ensures Canon(a, b) == Canon(b, a)
    ensures Canon(a, b).0 == "A" || Canon(a, b).1 != "A"
    ensures Canon(a, b).1 == "U" || Canon(a, b).0 != "U"
    ensures Canon(a, b) != ("G", "C")
  {
    BasesDistinct();
    assert StrLe("A", "U") && StrLe("A", "G") && StrLe("A", "C");
    assert StrLe("G", "U") && StrLe("C", "U") && StrLe("C", "G");
    assert !StrLe("U", "A") && !StrLe("G", "A") && !StrLe("C", "A");
    assert !StrLe("U", "G") && !StrLe("U", "C") && !StrLe("G", "C");
  }

  /** Every written-out file name is the `generate_files` name of the
      sorted pair. */
  lemma ForwardNames(c: Pair)
    requires c in Forward
    ensures Forward[c] == FileName(Canon(c.0, c.1))
  {
    ForwardKeys(c.0, c.1);
    CanonOfBases(c.0, c.1);
    if c.0 == "A" {
      ForwardNamesA(c.1);
    } else if c.0 == "U" {
      ForwardNamesU(c.1);
    } else if c.0 == "G" {
      ForwardNamesG(c.1);
    } else {
      assert c == ("C", "C");
      assert FileName(c) == "C_C_scores.txt";
    }
  }

  lemma ForwardNamesA(b: string)
    requires b in Bases
    ensures Canon("A", b) == ("A", b) && Forward[("A", b)] == FileName(("A", b))
  {
    CanonOfBases("A", b);
    assert FileName(("A", b)) == "A_" + b + "_scores.txt";
  }

  lemma ForwardNamesU(b: string)
    requires b in {"U", "G", "C"}
    ensures Forward[("U", b)] == FileName(Canon("U", b))
  {
    CanonOfBases("U", b);
    BasesDistinct();
    if b == "U" {
      assert FileName(("U", "U")) == "U_U_scores.txt";
    } else if b == "G" {
      assert FileName(("G", "U")) == "G_U_scores.txt";
    } else {
      assert FileName(("C", "U")) == "C_U_scores.txt";
    }
  }

  lemma ForwardNamesG(b: string)
    requires b in {"G", "C"}
    ensures Forward[("G", b)] == FileName(Canon("G", b))
  {
    CanonOfBases("G", b);
    BasesDistinct();
    if b == "G" {
      assert FileName(("G", "G")) == "G_G_scores.txt";
    } else {
      assert FileName(("C", "G")) == "C_G_scores.txt";
    }
  }

  /** Every ordered pair of bases was written out in one order or the other. */
  lemma ForwardCovers(a: string, b: string)
    requires a in Bases && b in Bases
    ensures (a, b) in Forward || (b, a) in Forward
  {
    ForwardKeys(a, b);
    ForwardKeys(b, a);
  }

  /** One ordered pair of bases: present, and named after its sorted pair. */
  lemma ScoreFileOfBases(a: string, b: string)
    requires a in Bases && b in Bases
    ensures (a, b) in ScoreFiles && ScoreFiles[(a, b)] == FileName(Canon(a, b))
  {
    UpdateReversed(Forward, a, b);
    ForwardCovers(a, b);
    CanonOfBases(a, b);
    if (b, a) in Forward {
      ForwardNames((b, a));
    } else {
      ForwardNames((a, b));
    }
  }

  /** The table holds exactly the sixteen ordered pairs of bases; any other
      nucleotide has no score file. */
  lemma ScoreFilesKeys(a: string, b: string)
    ensures (a, b) in ScoreFiles <==> a in Bases && b in Bases
  {
    if a in Bases && b in Bases {
      ScoreFileOfBases(a, b);
    } else {
      UpdateReversed(Forward, a, b);
      ForwardKeys(a, b);
      ForwardKeys(b, a);
    }
  }

  /** Both orders of a pair are present or absent together, and read the
      same file. */
  lemma ScoreFilesSymmetric(a: string, b: string)
    ensures (a, b) in ScoreFiles <==> (b, a) in ScoreFiles
    ensures (a, b) in ScoreFiles ==> ScoreFiles[(b, a)] == ScoreFiles[(a, b)]
  {
    ScoreFilesKeys(a, b);
    ScoreFilesKeys(b, a);
    if a in Bases && b in Bases {
      ScoreFileOfBases(a, b);
      ScoreFileOfBases(b, a);
      CanonOfBases(a, b);
    }
  }


  // ---------------------------------------------------------------------
  // Scoring the samples of one structure

  /** `score_files.get((n1, n2))` is not `None`. */
  predicate Known(files: map<Pair, string>, s: Sample) {
    (s.n1, s.n2) in files
  }

  /** The score of one sample: the bin `int(d)` of its pair's table, read
      through the pair in sample order. */
  function BinScore(files: map<Pair, string>, s: Sample, tables: string -> seq<Score>): (x: Score)
    requires Known(files, s)
    ensures x == PosInf || x in tables(files[(s.n1, s.n2)])
  {
    Lookup(IntSqrt(s.sq), tables(files[(s.n1, s.n2)]))
  }

  /** The score of a sample is `GetScore` of its distance in the table of
      its pair. */
  lemma BinScoreIsGetScore(files: map<Pair, string>, s: Sample, d: real, tables: string -> seq<Score>)
    requires Known(files, s) && d >= 0.0 && d * d == s.sq
    ensures BinScore(files, s, tables) == GetScore(d, tables(files[(s.n1, s.n2)]))
  {
    GetScoreOnSquare(d, tables(files[(s.n1, s.n2)]));
  }

  /** The loop body over every sample in order: the first sample without a
      score file ends the run with that pair. */
  function ScoreAll(files: map<Pair, string>, samples: seq<Sample>, tables: string -> seq<Score>): (r: Result<seq<Score>, Error>)
    ensures r.Ok? <==> forall i :: 0 <= i < |samples| ==> Known(files, samples[i])
    ensures r.Ok? ==> |r.value| == |samples|
                      && forall i :: 0 <= i < |samples| ==> r.value[i] == BinScore(files, samples[i], tables)
    ensures r.Err? ==> exists i :: && 0 <= i < |samples| && !Known(files, samples[i])
                                  && r.error == MissingScoreFile(samples[i].n1, samples[i].n2)
                                  && forall j :: 0 <= j < i ==> Known(files, samples[j])
  {
    if |samples| == 0 then Ok([])
    else
      var s := samples[0];
      if !Known(files, s) then Err(MissingScoreFile(s.n1, s.n2))
      else
        var rest := ScoreAll(files, samples[1..], tables);
        assert forall i :: 1 <= i < |samples| ==> samples[i] == samples[1..][i - 1];
        if rest.Err? then
          var i :| && 0 <= i < |samples[1..]| && !Known(files, samples[1..][i])
                   && rest.error == MissingScoreFile(samples[1..][i].n1, samples[1..][i].n2)
                   && forall j :: 0 <= j < i ==> Known(files, samples[1..][j]);
          assert forall j :: 0 <= j < i + 1 ==> Known(files, samples[j]);
          Err(rest.error)
        else
          Ok([BinScore(files, s, tables)] + rest.value)
  }

  /** Every sample has a score file. */
  predicate AllKnown(files: map<Pair, string>, samples: seq<Sample>) {
    forall i :: 0 <= i < |samples| ==> Known(files, samples[i])
  }

  lemma DedupKnown(files: map<Pair, string>, samples: seq<Sample>)
    requires AllKnown(files, samples)
    ensures AllKnown(files, Dedup(samples))
  {
  }

  /** The scores of samples that all have a score file, in order. */
  function Scores(files: map<Pair, string>, ks: seq<Sample>, tables: string -> seq<Score>): (xs: seq<Score>)
    requires AllKnown(files, ks)
    ensures |xs| == |ks|
  {
    seq(|ks|, i requires 0 <= i < |ks| => BinScore(files, ks[i], tables))
  }

  /** What one score adds to the sum: its value when finite, else nothing. */
  function Contribution(x: Score): (c: real)
    ensures x.Finite? ==> c == x.v
    ensures !x.Finite? ==> c == 0.0
  {
    if x.Finite? then x.v else 0.0
  }

  /** The sum of the finite scores of `ks`, one sample at a time. */
  function EnergyOf(files: map<Pair, string>, ks: seq<Sample>, tables: string -> seq<Score>): (e: real)
    requires AllKnown(files, ks)
  {
    if |ks| == 0 then 0.0
    else EnergyOf(files, ks[..|ks| - 1], tables) + Contribution(BinScore(files, ks[|ks| - 1], tables))
  }

  /** `calculate_gibbs_free_energy` of the estimator: score every sample,
      keep one entry per distinct `(n1, n2, distance)` in first-seen order,
      and sum the finite scores (`EstimateIsFreeEnergy` shows the sum is
      `FreeEnergy` of those scores). */
  function Estimate(files: map<Pair, string>, samples: seq<Sample>, tables: string -> seq<Score>): (r: Result<real, Error>)
    ensures r.Ok? <==> forall i :: 0 <= i < |samples| ==> Known(files, samples[i])
  {
    match ScoreAll(files, samples, tables)
    case Err(e) => Err(e)
    case Ok(_) =>
      DedupKnown(files, samples);
      Ok(EnergyOf(files, Dedup(samples), tables))
  }

  /** The estimate fails exactly when some sample has a nucleotide other
      than A, U, G and C. */
  lemma {:induction false} EstimateFailsIff(samples: seq<Sample>, tables: string -> seq<Score>)
    ensures Estimate(ScoreFiles, samples, tables).Err?
            <==> exists i :: 0 <= i < |samples| && (samples[i].n1 !in Bases || samples[i].n2 !in Bases)
  {
    forall i | 0 <= i < |samples|
      ensures Known(ScoreFiles, samples[i]) <==> samples[i].n1 in Bases && samples[i].n2 in Bases
    {
      ScoreFilesKeys(samples[i].n1, samples[i].n2);
    }
  }

  /** Once a sample without a score file has been met, later samples are
      never scored: the same error comes out. */
  lemma ScoreAllErrSnoc(files: map<Pair, string>, samples: seq<Sample>, s: Sample, tables: string -> seq<Score>)
    requires ScoreAll(files, samples, tables).Err?
    ensures ScoreAll(files, samples + [s], tables) == ScoreAll(files, samples, tables)
  {
    var t := samples + [s];
    var r := ScoreAll(files, samples, tables);
    var q := ScoreAll(files, t, tables);
    var i :| && 0 <= i < |samples| && !Known(files, samples[i])
             && r.error == MissingScoreFile(samples[i].n1, samples[i].n2)
             && forall j :: 0 <= j < i ==> Known(files, samples[j]);
    assert t[i] == samples[i];
    var k :| && 0 <= k < |t| && !Known(files, t[k])
             && q.error == MissingScoreFile(t[k].n1, t[k].n2)
             && forall j :: 0 <= j < k ==> Known(files, t[j]);
    assert k == i;
  }

  /** A sample seen before changes nothing: its dictionary entry is
      overwritten with the same score. */
  lemma EstimateIgnoresRepeat(files: map<Pair, string>, samples: seq<Sample>, s: Sample, tables: string -> seq<Score>)
    requires s in samples
    ensures Estimate(files, samples + [s], tables) == Estimate(files, samples, tables)
  {
    if ScoreAll(files, samples, tables).Err? {
      ScoreAllErrSnoc(files, samples, s, tables);
    } else {
      var i :| 0 <= i < |samples| && samples[i] == s;
      assert Known(files, s);
      SnocKnown(files, samples, s);
      DedupSnoc(samples, s);
      EstimateOk(files, samples, tables);
      EstimateOk(files, samples + [s], tables);
    }
  }

  /** A successful estimate is the energy of the distinct samples. */
  lemma EstimateOk(files: map<Pair, string>, samples: seq<Sample>, tables: string -> seq<Score>)
    requires AllKnown(files, samples)
    ensures AllKnown(files, Dedup(samples))
    ensures Estimate(files, samples, tables) == Ok(EnergyOf(files, Dedup(samples), tables))
  {
    DedupKnown(files, samples);
  }

  /** One more sample with a score file keeps every sample scorable. */
  lemma SnocKnown(files: map<Pair, string>, samples: seq<Sample>, s: Sample)
    requires AllKnown(files, samples) && Known(files, s)
    ensures AllKnown(files, samples + [s])
  {
    var t := samples + [s];
    assert forall j :: 0 <= j < |samples| ==> t[j] == samples[j];
    assert t[|samples|] == s;
  }

  /** Scoring one more sample appends its score. */
  lemma ScoresSnoc(files: map<Pair, string>, ks: seq<Sample>, s: Sample, tables: string -> seq<Score>)
    requires AllKnown(files, ks) && Known(files, s)
    ensures AllKnown(files, ks + [s])
    ensures Scores(files, ks + [s], tables) == Scores(files, ks, tables) + [BinScore(files, s, tables)]
  {
    SnocKnown(files, ks, s);
    var t := ks + [s];
    assert forall j :: 0 <= j < |ks| ==> t[j] == ks[j];
    assert t[|ks|] == s;
  }

  /** One more sample adds its contribution to the energy. */
  lemma EnergyOfSnoc(files: map<Pair, string>, ks: seq<Sample>, s: Sample, tables: string -> seq<Score>)
    requires AllKnown(files, ks) && Known(files, s)
    ensures AllKnown(files, ks + [s])
    ensures EnergyOf(files, ks + [s], tables) == EnergyOf(files, ks, tables) + Contribution(BinScore(files, s, tables))
  {
    SnocKnown(files, ks, s);
    assert (ks + [s])[..|ks|] == ks;
  }

  /** The distinct samples gain the new sample's contribution. */
  lemma DistinctEnergySnoc(files: map<Pair, string>, samples: seq<Sample>, s: Sample, tables: string -> seq<Score>)
    requires s !in samples && AllKnown(files, samples) && Known(files, s)
    ensures AllKnown(files, Dedup(samples)) && AllKnown(files, Dedup(samples + [s]))
    ensures EnergyOf(files, Dedup(samples + [s]), tables)
            == EnergyOf(files, Dedup(samples), tables) + Contribution(BinScore(files, s, tables))
  {
    DedupSnoc(samples, s);
    DedupKnown(files, samples);
    EnergyOfSnoc(files, Dedup(samples), s, tables);
  }

  /** A new sample adds its score when finite and nothing otherwise. The
      estimate before it succeeds exactly when every earlier sample has a
      score file (`Estimate`'s own contract). */
  lemma EstimateAddsNew(files: map<Pair, string>, samples: seq<Sample>, s: Sample, tables: string -> seq<Score>)
    requires s !in samples && AllKnown(files, samples) && Known(files, s)
    ensures Estimate(files, samples, tables).Ok?
    ensures Estimate(files, samples + [s], tables)
            == Ok(Estimate(files, samples, tables).value + Contribution(BinScore(files, s, tables)))
  {
    SnocKnown(files, samples, s);
    EstimateOk(files, samples, tables);
    EstimateOk(files, samples + [s], tables);
    DistinctEnergySnoc(files, samples, s, tables);
  }

  /** Summing contributions one sample at a time is `FreeEnergy` of the
      scores. */
  lemma {:induction false} EnergyOfIsFreeEnergy(files: map<Pair, string>, ks: seq<Sample>, tables: string -> seq<Score>)
    requires AllKnown(files, ks)
    ensures EnergyOf(files, ks, tables) == FreeEnergy(Scores(files, ks, tables))
    decreases |ks|
  {
    if |ks| > 0 {
      var init := ks[..|ks| - 1];
      var last := ks[|ks| - 1];
      assert ks == init + [last];
      assert AllKnown(files, init);
      EnergyOfIsFreeEnergy(files, init, tables);
      ScoresSnoc(files, init, last, tables);
      FreeEnergyAppend(Scores(files, init, tables), [BinScore(files, last, tables)]);
    } else {
      assert Scores(files, ks, tables) == [];
    }
  }

  /** A successful estimate is `calculate_gibbs_free_energy` of the scores of
      the distinct samples, in first-seen order. */
  lemma EstimateIsFreeEnergy(files: map<Pair, string>, samples: seq<Sample>, tables: string -> seq<Score>)
    requires Estimate(files, samples, tables).Ok?
    ensures AllKnown(files, Dedup(samples))
    ensures Estimate(files, samples, tables) == Ok(FreeEnergy(Scores(files, Dedup(samples), tables)))
  {
    EstimateOk(files, samples, tables);
    EnergyOfIsFreeEnergy(files, Dedup(samples), tables);
  }

  /** With no samples the estimate is zero. */
  lemma EstimateEmpty(files: map<Pair, string>, tables: string -> seq<Score>)
    ensures Estimate(files, [], tables) == Ok(0.0)
  {
  }

  /** The A-U pair reads `A_U_scores.txt`. */
  lemma AUFile()
    ensures ("A", "U") in ScoreFiles && ScoreFiles[("A", "U")] == "A_U_scores.txt"
  {
    UpdateReversed(Forward, "A", "U");
    UANotWritten();
    AUWritten();
  }

  lemma AUWritten()
    ensures ("A", "U") in Forward && Forward[("A", "U")] == "A_U_scores.txt"
  {
  }

  lemma UANotWritten()
    ensures ("U", "A") !in Forward
  {
    BasesDistinct();
    ForwardKeys("U", "A");
  }

  /** A single sample with a score file contributes its own score. */
  lemma EstimateOne(files: map<Pair, string>, s: Sample, tables: string -> seq<Score>)
    requires Known(files, s)
    ensures Estimate(files, [s], tables) == Ok(Contribution(BinScore(files, s, tables)))
  {
    EstimateEmpty(files, tables);
    assert [] + [s] == [s];
    EstimateAddsNew(files, [], s, tables);
  }

  /** One A-U sample 8 Å apart, scored -1.25 in bin 8 of the A-U table,
      gives an estimate of -1.25. */
  lemma EstimateSingleSample(tables: string -> seq<Score>)
    requires |tables("A_U_scores.txt")| > 8 && tables("A_U_scores.txt")[8] == Finite(-1.25)
    ensures Estimate(ScoreFiles, [Sample("A", "U", 64.0)], tables) == Ok(-1.25)
  {
    var s := Sample("A", "U", 64.0);
    AUFile();
    IntSqrtUnique(64.0, 8);
    assert BinScore(ScoreFiles, s, tables) == Finite(-1.25);
    EstimateOne(ScoreFiles, s, tables);
  }

  /** Five C3' records on one chain: an A at the origin (`Training.Origin`),
      three copies of it, and a U 8 Å away on the x axis, four records after
      the A. */
  const Far8: Record := Record("C3'", "U", "A", "5", "8", "0", "0")

  function FiveRecords(): (recs: seq<Record>) {
    [Training.Origin, Training.Origin, Training.Origin, Training.Origin, Far8]
  }

  function FiveCoord(s: string): (v: real) {
    if s == Far8.x then 8.0 else 0.0
  }

  /** Records 0 and 4 are 8 Å apart, so they form a sample. */
  lemma FiveQualifies()
    ensures SqDist(Training.Origin, Far8, FiveCoord) == 64.0
    ensures Qualifies(FiveRecords(), FiveCoord, 0, 4)
  {
    assert Training.Origin.x != Far8.x by {
      assert Training.Origin.x[0] != Far8.x[0];
    }
    assert FiveCoord(Far8.x) == 8.0;
  }

  /** In five records, only records 0 and 4 are far enough apart. */
  lemma OnlyPairOfFive(recs: seq<Record>, coord: string -> real, a: int, b: int)
    requires |recs| == 5 && Qualifies(recs, coord, a, b)
    ensures (a, b) == (0, 4)
  {
  }

  /** When records 0 and 4 of five qualify, they are the only selected pair. */
  lemma PairsOfFive(recs: seq<Record>, coord: string -> real)
    requires |recs| == 5 && Qualifies(recs, coord, 0, 4)
    ensures SelectedPairs(recs, coord) == [(0, 4)]
  {
    var ps := SelectedPairs(recs, coord);
    assert (0, 4) in ps;
    forall k | 0 <= k < |ps| ensures ps[k] == (0, 4) {
      OnlyPairOfFive(recs, coord, ps[k].0, ps[k].1);
    }
    assert |ps| >= 2 ==> LexLess(ps[0], ps[1]);
    assert !LexLess((0, 4), (0, 4));
  }

  /** When records 0 and 4 of five qualify, their sample is the only one. */
  lemma SamplesOfFive(recs: seq<Record>, coord: string -> real)
    requires |recs| == 5 && Qualifies(recs, coord, 0, 4)
    ensures CalculateDistances(recs, coord) == [SampleAt(recs, coord, 0, 4)]
  {
    PairsOfFive(recs, coord);
  }

  /** The five records give exactly one sample: A-U at 8 Å. */
  lemma FiveRecordsSamples()
    ensures CalculateDistances(FiveRecords(), FiveCoord) == [Sample("A", "U", 64.0)]
  {
    FiveQualifies();
    SamplesOfFive(FiveRecords(), FiveCoord);
    assert SampleAt(FiveRecords(), FiveCoord, 0, 4) == Sample(Training.Origin.nucleotide, Far8.nucleotide, 64.0);
  }

  /** The whole chain from records to estimate: five records whose only
      sample is A-U at 8 Å, scored -1.25 in bin 8 of the A-U table, give an
      estimate of -1.25. */
  lemma EstimateFiveRecords(tables: string -> seq<Score>)
    requires |tables("A_U_scores.txt")| > 8 && tables("A_U_scores.txt")[8] == Finite(-1.25)
    ensures Estimate(ScoreFiles, CalculateDistances(FiveRecords(), FiveCoord), tables) == Ok(-1.25)
  {
    FiveRecordsSamples();
    EstimateSingleSample(tables);
  }

  /** `GibbsFreeEnergyCalculator(path).calculate_gibbs_free_energy()` on
      the lines of one file: a failure names a nucleotide read from an
      ATOM line that is not one of the four bases. */
  function EstimateFile(lines: seq<string>, coord: string -> real, tables: string -> seq<Score>)
    : (r: Result<real, Error>)
    ensures r.Err? ==> exists rec :: rec in ReadPdb(lines) && rec.nucleotide !in Bases
  {
    var recs := ReadPdb(lines);
    var samples := CalculateDistances(recs, coord);
    var r := Estimate(ScoreFiles, samples, tables);
    if r.Err? then
      EstimateFailsIff(samples, tables);
      var i :| 0 <= i < |samples| && (samples[i].n1 !in Bases || samples[i].n2 !in Bases);
      EmittedSamplesQualify(recs, coord, samples[i]);
      r
    else
      r
  }
}
