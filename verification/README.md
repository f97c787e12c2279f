# RNA folding statistical potential, modelled in Dafny

This project models the core of the RNA folding statistical potential. The
program learns a distance-dependent pseudo-energy for every pair of
nucleotides from known RNA structures. It then uses those tables to score a
new structure.

Training works like this:

- read the C3' atoms of each PDB file;
- collect the intrachain distances of at most 20 Å between atoms at least
  four records apart;
- group them by sorted nucleotide pair;
- build 20 one-ångström histograms, observed per pair and reference over
  all pairs;
- score each bin `-log(obs / ref)`, or `+inf` where either frequency is zero.

Estimation reads one structure the same way. It looks up the score of each
distinct sample in the table file of its pair and sums the finite scores.

Modules, one per file:

| module | file | models |
|---|---|---|
| `Results` | results.dfy | the error outcomes (Python exceptions) |
| `Numeric` | numeric.dfy | `int()`, the integer square root, scores with infinities and NaN, `sum` |
| `Text` | text.dfy | `startswith`, `in`, slicing, `strip`, string ordering |
| `Sequences` | sequences.dfy | dictionary keys in first-insertion order |
| `PdbReader` | pdb_reader.dfy | `read_pdb` over the lines of a file |
| `Distances` | distances.dfy | `calculate_distances` |
| `Statistics` | statistics.dfy | grouping, histograms, frequencies, pseudo-energies |
| `Training` | training.dfy | the training script's composition |
| `Scoring` | scoring.dfy | `GetScore`, `calculate_gibbs_free_energy` |
| `Gibbs` | gibbs.dfy | the score-file table and the estimator |

Modelling choices:

- **Squared distances.** Distances are kept squared (`Sample.sq`). The
  cut-off `d <= 20` becomes `sq <= 400`, and the bin `int(d)` becomes
  `IntSqrt(sq)`, the largest `k` with `k*k <= sq`. `Numeric.IntSqrtOfSquare`
  and `Numeric.CutoffOnSquare` relate the two forms.
- **Parameters for I/O.** Converting a coordinate string to a float is the
  parameter `coord`, the natural logarithm is `ln`, and reading a score file
  is `tables` (file name to list of scores).
- **Scores.** A score is `Finite(v)`, `PosInf`, `NegInf` or `NaN`.
- **Errors.** An exception is an `Err` value:
  - an `IndexError` when binning a distance of exactly 20 is `BinOutOfRange`;
  - the failing `os.path.join(dir, None)` for a pair without a score file is
    `MissingScoreFile`.

## Model

| member | source | states |
|---|---|---|
| Numeric.IntOf | src/utils/distance_calculation.py:64 | `int()` truncates toward zero: on non-negative input the result is the floor, on negative input the ceiling |
| Numeric.IntSqrt | src/utils/distance_calculation.py:64 | the bin index of a squared distance is the largest `k` with `k*k <= sq` |
| Numeric.IntSqrtOfSquare | src/utils/distance_calculation.py:20-22 | for a non-negative distance `d`, `IntSqrt(d*d) == int(d)`, so binning the squared distance matches binning the distance |
| Numeric.CutoffOnSquare | src/utils/distance_calculation.py:23 | `d <= 20` holds exactly when `d*d <= 400`, for non-negative `d` |
| Numeric.SumRealAppend | src/utils/score_calculation.py:52 | the sum of a concatenation is the sum of the sums |
| Text.StartsWithIsPrefix | src/utils/file_io.py:19 | `startswith` holds exactly when the prefix equals the line's first characters |
| Text.ContainsIsMembership | src/utils/file_io.py:19 | `"1" in line` holds exactly when the character occurs in the line |
| Text.Slice | src/utils/file_io.py:32 | a slice has the clamped length and the characters at the shifted indices, and is empty past the end of a short line |
| Text.Strip | src/utils/file_io.py:32 | `strip()` keeps a contiguous stretch of the field, removing only whitespace before and after it, and what is left neither starts nor ends with whitespace |
| Text.StrLeTotal | src/obj_funct_training.py:25 | the string order used by `sorted` is total |
| Text.StrLeAntisymmetric | src/obj_funct_training.py:25 | two strings each before the other are equal |
| PdbReader.Field | src/utils/file_io.py:32 | a field is no longer than its column range, and is empty for a line ending before it |
| PdbReader.Extract | src/utils/file_io.py:23-32 | each of the seven fields is bounded by its column width, and a line of 11 characters or fewer gives seven empty fields |
| PdbReader.Classify | src/utils/file_io.py:19-37 | a line is a model opener, an ATOM line with its extracted fields, or an ENDMDL line exactly when the corresponding test holds |
| PdbReader.HetatmIgnored | src/utils/file_io.py:21 | a `HETATM` line is never an atom line |
| PdbReader.Scan | src/utils/file_io.py:18-50 | the reading loop, from any line and in either state of `model_found`, returns only records with atom name `C3'` |
| PdbReader.ReadPdb | src/utils/file_io.py:14-52 | every returned record has atom name `C3'` |
| PdbReader.ReadPdbIsPrefixRecords | src/utils/file_io.py:14-52 | the result is the C3' ATOM records of all lines before the cut point. The cut point is the first ENDMDL after the first line that opens a model, or the end of the file. Both extraction branches agree |
| PdbReader.ReadPdbSingleModel | src/utils/file_io.py:37-52 | a file without a MODEL line containing `1` yields every C3' ATOM record in the file |
| PdbReader.ReadPdbStopsAtEndOfModel | src/utils/file_io.py:35-36 | once the model has ended, lines appended after it change nothing |
| PdbReader.C3RangeMembers | src/utils/file_io.py:21-34 | a record is returned for a stretch of lines exactly when some ATOM line there has atom `C3'` and extracts to it |
| Distances.SelectedPairs | src/utils/distance_calculation.py:16-23 | the index pairs considered are exactly those `i + 4 <= j` on one chain within the cut-off, each once, in lexicographic order |
| Distances.CalculateDistances | src/utils/distance_calculation.py:14-26 | one sample per selected pair, in the same order, with the two nucleotides in record order and the squared distance |
| Distances.EmittedSamplesQualify | src/utils/distance_calculation.py:16-24 | every sample comes from records `i < j` with `j - i >= 4`, on one chain, within the cut-off |
| Distances.EmittedOnceIffQualifies | src/utils/distance_calculation.py:16-24 | a pair of records yields a sample exactly when it qualifies, and then at exactly one position |
| Statistics.Canon | src/obj_funct_training.py:25 | `tuple(sorted([a, b]))` is ordered and holds the same two nucleotides |
| Statistics.Group | src/utils/distance_calculation.py:41-44 | a pair's group holds at most one distance per sample |
| Statistics.MatchesSorted | src/utils/distance_calculation.py:43 | for a sorted pair, `set(pair) == {n1, n2}` exactly when the sample's sorted pair is that pair |
| Statistics.GroupAppend | src/utils/distance_calculation.py:42-44 | grouping a concatenation concatenates the groups, so distances keep input order |
| Statistics.GroupMembers | src/utils/distance_calculation.py:42-44 | a distance is in a pair's group exactly when some sample of that unordered pair carries it |
| Statistics.Distribution | src/utils/distance_calculation.py:39-46 | the keys are exactly the given pairs, each mapped to its group |
| Statistics.BinOf | src/utils/distance_calculation.py:64 | the program's binning is the integer part of the distance. The corrected binning always names one of the 20 bins: below 20 Å it is the same integer part, and exactly 20 Å goes into bin 19 |
| Statistics.Tally | src/utils/distance_calculation.py:61-65 | after counting, each bin holds its starting count plus the number of distances in it |
| Statistics.CountsSumToSize | src/utils/distance_calculation.py:61-65 | the 20 counts sum to the number of distances |
| Statistics.Frequencies | src/utils/distance_calculation.py:67 | one non-negative frequency per bin, zero exactly when the list is empty or the bin is empty; for a non-empty list each frequency times the list length is the bin's count |
| Statistics.FrequenciesSumToOne | src/utils/distance_calculation.py:86 | the frequencies of a non-empty list sum to one |
| Statistics.ObservedFrequency | src/utils/distance_calculation.py:58-69 | succeeds exactly when every distance of every group has a bin, and then gives each pair the frequencies of its counts |
| Statistics.ReferenceFrequency | src/utils/distance_calculation.py:81-87 | the same binning over all samples, whatever their nucleotides, failing exactly when some distance has no bin |
| Statistics.LogOdds | src/utils/distance_calculation.py:107-112 | as many scores as the shorter list. Each score is `+inf` exactly when either frequency is zero, and otherwise `-log(obs / ref)` |
| Statistics.PseudoEnergy | src/utils/distance_calculation.py:101-116 | the same keys as the observed frequencies, each scored against the one reference vector |
| Statistics.CountBinAgrees | src/utils/distance_calculation.py:63-65 | when every distance has a bin as written, each bin receives the same number of distances under either binning |
| Statistics.TallyAgrees | src/utils/distance_calculation.py:61-65 | when every distance has a bin as written, counting with the corrected binning gives the same counts |
| Statistics.ObservedAgrees | src/utils/distance_calculation.py:58-69 | when the program's observed frequencies succeed, the corrected binning gives the same frequencies |
| Statistics.ReferenceAgrees | src/utils/distance_calculation.py:81-87 | when the program's reference frequency succeeds, the corrected binning gives the same frequency |
| Statistics.GroupCountBounded | src/utils/distance_calculation.py:63-65 | a pair's count in a bin never exceeds the count over all samples |
| Training.AllDistances | src/obj_funct_training.py:14-21 | a sample is accumulated exactly when some file produced it |
| Training.AllDistancesAppend | src/obj_funct_training.py:14-21 | accumulating file by file is concatenation in iteration order |
| Training.AllDistancesOne | src/obj_funct_training.py:21 | a single file's samples are accumulated as they are, so with `AllDistancesAppend` each `extend` appends that file's samples unchanged |
| Training.UniquePairs | src/obj_funct_training.py:23-26 | every pair is sorted, every sample's sorted pair is present, and every pair comes from some sample |
| Training.GroupsPartition | src/obj_funct_training.py:28 | every sample falls in the group of its sorted pair and in no other |
| Training.GroupSizesSum | src/obj_funct_training.py:28 | the group sizes sum to the number of samples |
| Training.GroupsNonEmpty | src/obj_funct_training.py:23-28 | every group has at least one distance, so the zero guard of the observed frequency is never taken |
| Training.DistributionBinnable | src/obj_funct_training.py:28-31 | when every accumulated distance has a bin, so does every distance of every group |
| Training.Train | src/obj_funct_training.py:23-33 | training succeeds exactly when every distance has a bin, and then writes one table per sorted pair that occurs among the samples |
| Training.AsWrittenFailsAtCutoff | src/utils/distance_calculation.py:64-65 | on samples within the cut-off, the program's binning fails exactly when some distance is exactly 20 |
| Training.ClampLastNeverFails | src/obj_funct_training.py:28-33 | with the last bin closed, training never fails |
| Training.ClampLastAgreesWhereProgramWorks | src/obj_funct_training.py:28-33 | whenever the program's training succeeds, the corrected binning produces exactly the same tables |
| Training.TrainedScores | src/obj_funct_training.py:31-33 | when every distance has a bin, training succeeds and each pair gets 20 scores. A score is `+inf` exactly when the pair has no sample in that bin. Otherwise the reference frequency is positive and the score is `-log(obs / ref)` of the two frequencies |
| Training.Corpus | src/obj_funct_training.py:14-21 | no accumulated sample is farther apart than the cut-off |
| Training.CorpusEmpty | src/obj_funct_training.py:12 | with no training file, nothing is accumulated |
| Training.CorpusExtend | src/obj_funct_training.py:14-21 | one more file appends exactly the distances calculated from its records to what was accumulated before |
| Training.TrainOnFiles | src/obj_funct_training.py:14-33 | the whole run as written fails exactly when some accumulated distance is exactly 20, and never fails with the corrected binning |
| Training.BoundaryStructureBreaksTraining | src/utils/distance_calculation.py:23 | a structure with two C3' atoms exactly 20 Å apart makes training as written fail, while the corrected binning succeeds |
| Sequences.Dedup | gibbs_estimation.py:54 | the dictionary keys hold the same elements as the inserted sequence, without repeats |
| Sequences.DedupSnoc | gibbs_estimation.py:54 | re-inserting a key changes nothing, and a new key goes at the end |
| Scoring.GetScore | src/utils/score_calculation.py:20-35 | the score read is `+inf` or one of the table's scores |
| Scoring.GetScoreInBin | src/utils/score_calculation.py:31-35 | a distance in `[k, k + 1)` with `k` inside the table reads bin `k` |
| Scoring.GetScoreRange | src/utils/score_calculation.py:31-35 | a non-empty table is read exactly when `-1 < d < len(scores)`, and then at `int(d)`. Everything else, including any distance against an empty table, is `+inf` |
| Scoring.GetScoreOnSquare | src/utils/score_calculation.py:31 | on a non-negative distance, the lookup equals the lookup by the integer square root of its square |
| Scoring.KeepFinite | src/utils/score_calculation.py:49 | the kept values are, with their multiplicities, exactly the values of the finite scores |
| Scoring.FreeEnergyAppend | src/utils/score_calculation.py:49-52 | the energy of a concatenation is the sum of the energies |
| Scoring.FreeEnergyIgnoresNonFinite | src/utils/score_calculation.py:49-52 | inserting NaN or an infinity of either sign anywhere leaves the energy unchanged |
| Scoring.FreeEnergy | src/utils/score_calculation.py:38-52 | with no finite score, including the empty list, the energy is 0; one score contributes its value when finite and zero otherwise |
| Gibbs.Reversed | gibbs_estimation.py:27 | the reversed map has `(a, b)` exactly when the original has `(b, a)`, with the same file |
| Gibbs.UpdateReversed | gibbs_estimation.py:27 | after the update a pair is present when either order was present, and the reversed entry wins |
| Gibbs.ForwardKeys | gibbs_estimation.py:14-25 | the ten written-out keys are every unordered pair of bases exactly once |
| Gibbs.ScoreFilesKeys | gibbs_estimation.py:14-27 | the table holds exactly the 16 ordered pairs over A, U, G, C, so any other nucleotide has no file |
| Gibbs.ScoreFilesSymmetric | gibbs_estimation.py:14-27 | both orders of a pair are present or absent together, and read the same file |
| Gibbs.FileNameParts | src/utils/file_io.py:65 | a table's file name is the first nucleotide, `_`, the second nucleotide and `_scores.txt` |
| Gibbs.FileNameInjective | src/utils/file_io.py:64-65 | two pairs of single-letter nucleotides get the same file name only when they are the same pair |
| Gibbs.ScoreFileOfBases | gibbs_estimation.py:14-27 | the file of a pair of bases is `<first>_<second>_scores.txt` of its sorted pair, the name training writes |
| Gibbs.ScoreAll | gibbs_estimation.py:38-54 | every sample gets the bin score of its pair's table in sample order. Otherwise the run fails naming the first sample without a file |
| Gibbs.BinScore | gibbs_estimation.py:43-52 | a sample's score is `+inf` or one of the scores in its pair's table |
| Gibbs.BinScoreIsGetScore | gibbs_estimation.py:52 | a sample's score is `GetScore` of its distance in its pair's table |
| Gibbs.Estimate | gibbs_estimation.py:30-59 | the estimate succeeds exactly when every sample has a score file |
| Gibbs.EstimateFailsIff | gibbs_estimation.py:43-46 | the estimate fails exactly when some sample has a nucleotide other than A, U, G and C |
| Gibbs.ScoreAllErrSnoc | gibbs_estimation.py:38-46 | once a sample without a score file is met, later samples do not change the error |
| Gibbs.EstimateIgnoresRepeat | gibbs_estimation.py:40-54 | a sample already seen leaves the estimate unchanged |
| Gibbs.EstimateAddsNew | gibbs_estimation.py:38-57 | when every sample so far has a score file, the estimate succeeds, and a new sample adds its score when finite and nothing otherwise |
| Gibbs.EnergyOfIsFreeEnergy | src/utils/score_calculation.py:49-52 | adding up the contributions of the samples one at a time gives `calculate_gibbs_free_energy` of their scores |
| Gibbs.EstimateIsFreeEnergy | gibbs_estimation.py:35-57 | a successful estimate is `calculate_gibbs_free_energy` of the scores of the distinct samples, in first-seen order |
| Gibbs.EstimateEmpty | gibbs_estimation.py:57 | with no samples the estimate is 0 |
| Gibbs.EstimateOne | gibbs_estimation.py:38-57 | one sample with a score file gives its finite score, or zero |
| Gibbs.EstimateSingleSample | gibbs_estimation.py:30-59 | one A-U sample 8 Å apart, scored -1.25 in bin 8 of `A_U_scores.txt`, gives -1.25 |
| Gibbs.FiveRecordsSamples | src/utils/distance_calculation.py:14-26 | five C3' records on one chain, with records 0 and 4 being A and U 8 Å apart, give exactly one sample, A-U at 8 Å |
| Gibbs.EstimateFiveRecords | gibbs_estimation.py:30-59 | the estimate of those five records, with -1.25 in bin 8 of `A_U_scores.txt`, is -1.25 |
| Gibbs.EstimateFile | gibbs_estimation.py:30-59 | the estimate of a file fails only when a C3' record read from it has a nucleotide outside A, U, G, C |

## Left out

- File opening, `os.listdir`, `os.path`, `argparse` and `print`: I/O glue. A
  file is its sequence of lines, and a training set is a sequence of files in
  listing order.
- `generate_files` and `generate_csv`: text and CSV formatting. Only the file
  naming convention of `generate_files` appears, as `Gibbs.FileName`.
- `read_scores` and the `float()` of coordinate strings: these are the
  parameters `tables` and `coord`. The `ValueError` of a malformed coordinate
  and the `FileNotFoundError` of a missing score file are not modelled.
- IEEE rounding, overflow, `sqrt` and `log`: arithmetic is exact on reals,
  distances are compared squared, and `log` is a parameter. Distances that
  differ only after rounding are treated as different dictionary keys.
- Linear interpolation: the docstring of `GetScore` mentions it, but the code
  looks up one bin, and that lookup is what is modelled.
- PdbReader.Extract: states length bounds and the short-line case. The exact
  field contents are stated by `Text.Slice` and `Text.Strip`.
- PdbReader.Scan: its own contract gives only the atom name. Which records
  it returns is stated by `PdbReader.ReadPdbIsPrefixRecords`.
- Statistics.Group: its own contract gives only the length bound. Which
  distances a group holds is stated by `Statistics.GroupMembers`, and their
  order by `Statistics.GroupAppend`.
- Scoring.KeepFinite: its own contract states the kept values as a multiset.
  That the filter also keeps input order is stated by
  `Scoring.KeepFiniteAppend`.
- Scoring.FreeEnergy: its own contract covers no finite score and a single
  score. The general sum follows from these by `Scoring.FreeEnergyAppend`.
- Scoring.GetScore: its own contract says only where the result comes from.
  Which bin is read is stated by `Scoring.GetScoreRange` and
  `Scoring.GetScoreInBin`.
- Gibbs.BinScore: its own contract says only where the result comes from.
  The bin read is stated by `Gibbs.BinScoreIsGetScore`.
- Training.Corpus: its own contract gives only the cut-off bound. What it
  holds is stated by `Training.CorpusEmpty` and `Training.CorpusExtend`.
- Gibbs.Estimate: its own contract gives only the success condition. The
  value is stated by `Gibbs.EstimateIsFreeEnergy`, and also by
  `Gibbs.EstimateEmpty`, `Gibbs.EstimateAddsNew` and
  `Gibbs.EstimateIgnoresRepeat`, which together determine it by induction
  on the samples.

## Findings

| source | as written | input that shows it | evidently intended | confidence | as-written member | corrected member |
|---|---|---|---|---|---|---|
| src/utils/distance_calculation.py:64-65 | `d <= 20` (line 23) admits a distance of exactly 20.0. The counting loop then increments `interval_counts[int(20.0)]`, the 21st entry of a 20-entry list, an `IndexError`. The reference count at lines 84-85 fails the same way | `Training.BoundaryRecords`: five C3' atoms on chain A, four at the origin and the fifth 20 Å away on the x axis, with `Training.BoundaryCoord` | a distance of 20 counts in the last bin, 19-20 Å | not executed | Training.BoundaryStructureBreaksTraining | Training.ClampLastNeverFails |

The model keeps both binnings as `Statistics.Binning`:

- `AsWritten` is the program's `int(d)`, which fails at 20;
- `ClampLast` puts 20 into bin 19.

`Training.TrainOnFiles` states that the program as written fails on a
training set exactly when some accumulated distance is exactly 20 Å. With
`ClampLast`, training never fails. Wherever the program as written
succeeds, `ClampLast` gives the same tables
(`Training.ClampLastAgreesWhereProgramWorks`).
