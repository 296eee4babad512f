# Heterozygosity versus repeat-finder score: a Dafny model

`analyze_heterozygosity_new.py` relates the heterozygosity of short tandem
repeat loci to the quality score that the Tandem Repeats Finder (TRF)
assigns them. Its steps are:

1. Build an index from locus to `(score, period)` out of the per-chromosome
   TRF annotation files. Only periods below 6 are kept.
2. Run a fuzzy matcher over every line of an allele-frequency file. The
   matcher tolerates an offset of one base on the start and on the stop.
3. On a hit, record the pair (TRF score, heterozygosity `1 - sum f^2`) under
   the period of the matched entry.
4. For period-5 loci in the score bands [20,25) and [25,32], run the
   "repeat multiple" test: does a non-wild-type allele differ from the wild
   type by a multiple of 5 bases?
5. Do a second, residual pass over the reference loci that the frequency
   file did not name. Those loci are treated as monomorphic: each hit
   records heterozygosity 0 by convention, not from a measurement.
6. Aggregate the five period classes: an exceedance count per period, a 2x2
   cross table, and the binning of scores into 30 buckets of width 5. The
   midpoint and the mean heterozygosity of each non-empty bucket are
   reported.

The model follows the program's imperative form. Every loop of the core is
a Dafny `method` with a `while` loop and invariants. Each method is proved
against a pure specification function: a fold over a prefix of its input,
or a closed-form predicate. The properties the program relies on are proved
about those functions as lemmas.

Modules, one file each, in program order:

- `Loci` (`loci.dfy`): loci, annotation entries, and the index build.
- `Matcher` (`matcher.dfy`): the nine-offset search order and its loop.
- `Heterozygosity` (`heterozygosity.dfy`): `calc_heterozyg`, the wild
  type, and the repeat-multiple test.
- `Reconcile` (`reconcile.dfy`): the frequency pass and the residual pass.
- `Aggregate` (`aggregate.dfy`): the counting and binning part of
  `plot_results`.
- `Pipeline` (`pipeline.dfy`): `main`, with the parsed files as inputs.

Modelling decisions:

- A locus is the triple `(chrom, start, stop)`. The program keys its
  dictionaries by the text `chrom:start-stop`. Equality of canonical
  texts is taken to be equality of triples.
- Two functions change data their caller owns. `read_trf_file` writes
  into the `loci` dict passed to it (line 45). `process_rem_loci` appends
  to the caller's score and heterozygosity lists. The model takes each of
  these in and returns the updated value. For `read_trf_file` this matches
  what `read_all_trf_data` sees: it ignores the return value and relies on
  the in-place update, but the function returns the dict it updated. For
  `process_rem_loci`, `main` re-binds the returned lists. The other
  functions keep local accumulators.
- Python's `lst[period-1]` is modelled by `Reconcile.Slot`. Periods 1..5
  map to slots 0..4. A period of 0 would be index -1, the last list, and
  maps to slot 4.
- The reference loci are a Python `set`, whose iteration order is
  unspecified. `Reconcile.ProcessRemLoci` picks its next locus
  nondeterministically. It is proved equal to the fold over *some*
  duplicate-free enumeration of the set, and its counts are proved
  independent of that order.
- `numpy.digitize(x, bins)` over increasing edges is the number of edges
  `<= x`. Python's `vals[indices[j]-1]` sends an index of 0 (a negative
  score) to `vals[-1]`, bucket 29.
- Python's `%` floors and Dafny's `%` is Euclidean. They agree for the
  positive divisor 5, so `(len - wt_len) % 5 == 0` is modelled directly.

Where the code does something other than its surrounding description
suggests, the model follows the code:

- `numpy.arange(0, 150, 5)` gives 30 lower edges, 0 to 145. Scores in
  [0,145) fall in buckets 0..28. Scores of 145 or more and negative scores
  all fall in bucket 29, which the report loop (`range(len(bins)-1)`)
  never reports. So the reported range is [0,145), not [0,150).
- The multiple test skips *every* allele whose frequency equals the
  maximum, not only the wild-type allele. With two alleles tied at the
  maximum, neither is compared (`Heterozygosity.ExampleTieSkipped`).
- The lower band is [20,25) and the upper band is [25,32]: 32 is included.
  A record is tallied in a band only after its sample has been recorded,
  so only for accepted periods.

## Model

| member | source | states |
|---|---|---|
| `Loci.ReadTrfFile` | analyze_heterozygosity_new.py:38-47 | A key is in the result iff it was in the index before or some kept record (period < 6) of the file has it. For every key, the last kept record with that key supplies the entry. Keys no kept record names keep their old entry. Periods below 6 stay below 6. |
| `Loci.ReadAllTrfData` | analyze_heterozygosity_new.py:24-31 | Starting from an empty index, the folded index holds exactly the keys some file has a kept record for. Every entry has a period below 6. All files share one index, so each key holds the entry of the last kept record of the last file naming it. |
| `Matcher.FirstHitCharacterised` | analyze_heterozygosity_new.py:69-83 | The ordered search over any list of offsets misses iff no shifted locus is present. A hit is the entry at the first present offset, with that offset. |
| `Matcher.OffsetsListed` | analyze_heterozygosity_new.py:96-122 | Walking `diffs = [1, 0, -1]` with `j` inside `i` visits the offsets in the order (1,1),(1,0),(1,-1),(0,1),(0,0),(0,-1),(-1,1),(-1,0),(-1,-1). |
| `Matcher.OffsetsAt` | analyze_heterozygosity_new.py:119-122 | The pair visited at outer step a and inner step b sits at position 3a+b of the offset order. |
| `Matcher.LookupMissCharacterised` | analyze_heterozygosity_new.py:119-124 | The matcher misses iff none of the nine loci within one base on start and stop is in the index. |
| `Matcher.LookupMissSound` | analyze_heterozygosity_new.py:119-124 | If no candidate in the offset order is present, then no locus within one base on start and stop is present. |
| `Matcher.LookupHitCharacterised` | analyze_heterozygosity_new.py:119-124 | A hit is the entry at the first present offset in the order, with that offset. |
| `Matcher.LookupAt` | analyze_heterozygosity_new.py:119-124 | If offset k is the first present one, the matcher returns exactly the entry of that shifted locus and offset k. |
| `Matcher.LookupHitSound` | analyze_heterozygosity_new.py:123-124 | A hit has offsets in [-1,1]. Its shifted locus is in the index, and the hit carries that locus's entry. |
| `Matcher.PrefersShiftedStart` | analyze_heterozygosity_new.py:119-123 | When the locus with start+1 is present, the exact locus is never chosen: the matcher picks (1,1) if that is present and (1,0) otherwise. |
| `Matcher.ExampleLastOffset` | analyze_heterozygosity_new.py:72-74 | An index holding only chr1:100-110 is reached from chr1:101-111 through the last offset (-1,-1). |
| `Matcher.Match` | analyze_heterozygosity_new.py:69-83 | The nested loops with the stop flag and both breaks return exactly the matcher's answer. |
| `Heterozygosity.FreqsOf` | analyze_heterozygosity_new.py:114 | The frequency list has one entry per allele, equal to that allele's frequency, in order. |
| `Heterozygosity.CalcHeterozyg` | analyze_heterozygosity_new.py:18-22 | The loop computes `1 - sum of squares` of the frequencies. The result is at most 1. |
| `Heterozygosity.HeterozygosityBounds` | analyze_heterozygosity_new.py:18-22 | For frequencies in [0,1] summing to 1, the heterozygosity lies in [0,1]. |
| `Heterozygosity.ZeroHeterozygosityIffFixed` | analyze_heterozygosity_new.py:18-22 | For such a distribution, the heterozygosity is 0 iff one allele has frequency 1. |
| `Heterozygosity.SquaredDeviations` | analyze_heterozygosity_new.py:18-22 | A helper of the `1 - 1/n` bound on the heterozygosity computed there, not a model of those lines. The sum of squared deviations from `c` equals `Expanded`: the sum of squares, minus `2c` times the sum, plus `n * c^2`. |
| `Heterozygosity.HeterozygosityAtMostUniform` | analyze_heterozygosity_new.py:18-22 | For n frequencies summing to 1, the heterozygosity is at most `1 - 1/n`. |
| `Heterozygosity.ExampleHeterozygosity` | analyze_heterozygosity_new.py:18-22 | [0.5,0.3,0.2] gives 0.62, and [1.0] gives 0. |
| `Heterozygosity.WildTypeCharacterised` | analyze_heterozygosity_new.py:132-137 | The running maximum starts at 0 and bounds every frequency. With no positive frequency, the wild-type length is -1. Otherwise it is the length at the first index holding the strict maximum. |
| `Heterozygosity.WildType` | analyze_heterozygosity_new.py:132-137 | The loop returns that wild-type length and that maximum frequency. |
| `Heterozygosity.RepeatMultiple` | analyze_heterozygosity_new.py:139-146 | The loop with its `continue` and `break` flags the alleles iff some allele has a frequency other than the maximum and a length differing from the wild type's by a multiple of 5. |
| `Heterozygosity.ExampleMultiple` | analyze_heterozygosity_new.py:139-146 | Lengths [15,20,25] with frequencies [0.6,0.3,0.1] have wild type 15 and are flagged. |
| `Heterozygosity.ExampleTieSkipped` | analyze_heterozygosity_new.py:141-142 | Lengths [15,20] with frequencies [0.5,0.5] have wild type 15 and are not flagged, because both tied alleles are skipped. |
| `Reconcile.Slot` | analyze_heterozygosity_new.py:128-129 | A period below 6 selects one of the five lists. Period p >= 1 selects list p-1. |
| `Reconcile.AppendEffect` | analyze_heterozygosity_new.py:128-129 | Recording a sample grows that slot's score list and heterozygosity list by one value each and leaves the other slots unchanged. The sample count rises by one, and equal list lengths are preserved. |
| `Reconcile.FreqStepEffect` | analyze_heterozygosity_new.py:117-182 | A record's nominal locus is marked processed. On a miss the samples are unchanged. On a hit with an accepted period, `(score, H)` is recorded under the period's slot. |
| `Reconcile.FreqFoldCounts` | analyze_heterozygosity_new.py:178-182 | Successes plus failures equal the number of records. The successes are the records the matcher resolves. |
| `Reconcile.FreqFoldProcessed` | analyze_heterozygosity_new.py:117 | After the pass, a locus is processed iff it is the nominal locus of some record, whether it matched or not. |
| `Reconcile.FreqFoldShape` | analyze_heterozygosity_new.py:126-175 | The five score and heterozygosity lists stay pairwise of equal length. In each band the flagged count is at most the band total and equals the number of kept heterozygosities. |
| `Reconcile.FreqFoldSampleCount` | analyze_heterozygosity_new.py:126-129 | Over an index whose periods are all below 6, the number of recorded samples equals the number of successes. |
| `Reconcile.RecordSample` | analyze_heterozygosity_new.py:126-175 | For an accepted period, the loop body computes the fold's attribution step. The score and the record's heterozygosity go to the period's slot. When the entry lies in a band, that band counts the sample, its value, and whether the alleles carry a repeat multiple. |
| `Reconcile.VisitRecord` | analyze_heterozygosity_new.py:110-182 | The loop body for one record (marking, matching, recording, band tallies with the multiple test, counting) computes exactly one fold step. |
| `Reconcile.ProcessFreqFile` | analyze_heterozygosity_new.py:91-205 | The pass equals the fold over the records, in file order. Successes plus failures equal the number of records, and the processed set is exactly the records' nominal loci. The lists are well formed and the bands consistent. With periods below 6, samples equal successes. |
| `Reconcile.CountAbove` | analyze_heterozygosity_new.py:185-186 | The number of band values above the threshold is at most the band size, and equals it iff every value is above the threshold. |
| `Reconcile.RemFoldCounts` | analyze_heterozygosity_new.py:62-85 | Over any visiting order, the successes count the positions holding an unprocessed locus that matches, and the failures count those holding one that does not. |
| `Reconcile.RemStepAppends` | analyze_heterozygosity_new.py:76-79 | One reference locus only appends to the five lists, and any heterozygosity it appends is 0.0. |
| `Reconcile.RemFoldKeepsPrefix` | analyze_heterozygosity_new.py:76-79 | The residual pass only appends: the earlier samples are a prefix of every list, and every heterozygosity it adds is 0. |
| `Reconcile.RemFoldShape` | analyze_heterozygosity_new.py:76-81 | Equal list lengths are preserved. With periods below 6, the samples added equal the successes added. |
| `Reconcile.RemFoldOverEnumeration` | analyze_heterozygosity_new.py:62-85 | Over a duplicate-free enumeration of the reference set, the successes are the unprocessed reference loci that match and the failures those that do not. Together they are the reference loci not processed. |
| `Reconcile.VisitReference` | analyze_heterozygosity_new.py:63-85 | The loop body for one reference locus (skip if processed, match, append `(score, 0.0)`, count) computes exactly one fold step. |
| `Reconcile.ProcessRemLoci` | analyze_heterozygosity_new.py:58-88 | The pass equals the fold over some enumeration of the reference set. Success and failure counts are the sizes of the unprocessed hit and miss sets and together equal the size of the reference set minus the processed set. Earlier samples are kept as prefixes, new heterozygosities are 0, and the lists stay well formed. With periods below 6, the samples added equal the successes. |
| `Aggregate.BinEdges` | analyze_heterozygosity_new.py:209 | There are 30 edges, and edge j is 5j. |
| `Aggregate.CellsPartition` | analyze_heterozygosity_new.py:230-241 | The four cells of the cross table partition the samples. |
| `Aggregate.ExceedCount` | analyze_heterozygosity_new.py:215-220 | The loop counts the samples with score at most the cutoff and heterozygosity above 0.02. The count is at most the number of samples. |
| `Aggregate.CrossTabulate` | analyze_heterozygosity_new.py:223-242 | `c1` equals the number of samples, `c2..c5` are the four cells, and `c1 == c2 + c3 + c4 + c5`. |
| `Aggregate.DigitizeBrackets` | analyze_heterozygosity_new.py:255 | Over increasing edges, edge j is at most x iff j is below the digitize index. So the index brackets x between the edges on either side of it. |
| `Aggregate.BucketOf` | analyze_heterozygosity_new.py:256-257 | Every score goes to one of the 30 buckets. |
| `Aggregate.BucketClosedForm` | analyze_heterozygosity_new.py:253-257 | A score in [0,145) goes to bucket `score / 5`. Every other score, negative or at least 145, goes to bucket 29. |
| `Aggregate.SortIntoBuckets` | analyze_heterozygosity_new.py:250-257 | The loops build 30 buckets. Each holds, in sample order, the heterozygosities of the samples whose score goes there, and the bucket sizes add up to the number of samples. |
| `Aggregate.MidpointValue` | analyze_heterozygosity_new.py:260 | The midpoint of bucket j is 5j + 2.5. |
| `Aggregate.ReportSound` | analyze_heterozygosity_new.py:258-262 | Every reported point is the (midpoint, mean) of a non-empty bucket among those visited. |
| `Aggregate.ReportComplete` | analyze_heterozygosity_new.py:258-262 | Every non-empty bucket among those visited is reported. |
| `Aggregate.ReportIncreasing` | analyze_heterozygosity_new.py:258-262 | The reported midpoints strictly increase and lie below 5 times the number of buckets visited. |
| `Aggregate.MeanWithin` | analyze_heterozygosity_new.py:261 | The mean of a bucket lies between any lower and upper bound of its values. |
| `Aggregate.Summarise` | analyze_heterozygosity_new.py:258-262 | The report loop over buckets 0..28 returns the non-empty ones in increasing order, no others, each with its midpoint and mean. Bucket 29 is never reported. |
| `Aggregate.PlotResults` | analyze_heterozygosity_new.py:208-264 | For each of the five periods, under cutoffs [24,22,28,28,32], the result holds the exceedance count, the cross table (`c1` the number of samples, `c2` to `c5` the four score/heterozygosity cells in the source's order, `c2` equal to that count), the 30 buckets holding all samples, and the reported points. |
| `Pipeline.Analyze` | analyze_heterozygosity_new.py:319-326 | The index keys are the kept annotation keys, and each holds the entry of the last file's last kept record for it. The frequency pass is the fold over the records in file order, with consistent bands. It counts every record once and processes exactly the nominal loci. The residual pass is the fold over some enumeration of the reference set, starting from the frequency pass's samples. It counts exactly the reference loci not named in the frequency file. Every success of either pass yields one sample, and the aggregation summarises exactly those samples over the five periods. |

## Left out

- File and directory reading is not modelled. This covers listing the
  annotation directory, the chromosome-name rewrite of the file names,
  skipping the 15 header lines, and splitting and parsing lines
  (`read_reference`, and the token handling in `read_trf_file` and
  `process_freq_file`). The model takes the parsed records as inputs:
  already-tokenised annotation records, frequency records and a set of
  reference loci.
- The text form of locus keys is not modelled. Keys are triples, and
  equality of canonical `chrom:start-stop` texts is taken as equality of
  triples.
- Every `print` is left out, including the diagnostic line that prints
  `stop+i` where `stop+j` is meant. The counters the prints show are
  returned instead. The one exception is the third figure of the `C1` and
  `C2` lines, the number of band values above 0.02. The model does not
  return it; it is `Reconcile.CountAbove` of the returned band values.
- All plotting, PDF output and `numpy.std` are left out, as are the
  standard deviations they need (square roots). The mean is modelled as an
  exact quotient.
- Floating point is modelled as exact `real` arithmetic, so no rounding
  is modelled. In particular, `freqs[k] == max_freq` is exact equality.
- Set iteration order in `process_rem_loci`: the model fixes no order. It
  proves the result is the fold over some duplicate-free enumeration.
- The unused `get_counts` helper and the commented-out blocks are left
  out.
- In-place mutation and aliasing are not modelled. `read_trf_file`
  updates the dict shared by all files. `read_all_trf_data` ignores its
  return value and keeps sharing the dict. The model returns the updated
  map instead (`index := ReadTrfFile(index, ...)`), which holds the same
  contents. Likewise, the lists `process_rem_loci` appends to are returned
  as new values; `main` re-binds them, so nothing observable differs.
- Aggregate.PlotResults: the per-period x values and means are returned as
  one list of (midpoint, mean) points rather than two parallel lists, and
  the standard deviations are not computed.
