/**
 The driver: the annotation index is built from the per-chromosome files,
 the allele-frequency records are reconciled against it, then the
 reference loci the first pass did not see, and the five period classes
 are aggregated.
 */
module Pipeline {
  import opened Loci
  import opened Reconcile
  import opened Aggregate

  /** What the run computes: the index, both passes' states and the
      per-period aggregation. */
  datatype Outcome = Outcome(index: Index, freq: FreqState, rem: RemState, report: seq<PeriodReport>)

  /** The nominal loci of the frequency records. */
  function NominalLoci(records: seq<FreqRecord>): set<Locus>
  {
    set i | 0 <= i < |records| :: records[i].locus
  }

  /** The sum of the cross tables' totals over the five periods. */
  function TabulatedTotal(report: seq<PeriodReport>): nat
    requires |report| == 5
  {
    report[0].table.c1 + report[1].table.c1 + report[2].table.c1 + report[3].table.c1 + report[4].table.c1
  }

  /** `main` with the file reading replaced by its parsed contents. */
  method Analyze(files: seq<ChromFile>, records: seq<FreqRecord>, refLoci: set<Locus>) returns (out: Outcome)
    ensures forall k :: k in out.index <==> exists f :: 0 <= f < |files| && HasKept(files[f].chrom, files[f].records, k)
    ensures forall g, i :: 0 <= g < |files| && IsLastKept(files[g].chrom, files[g].records, i) &&
                           NoLaterKept(files, g, |files|, KeyOf(files[g].chrom, files[g].records[i])) ==>
              KeyOf(files[g].chrom, files[g].records[i]) in out.index &&
              out.index[KeyOf(files[g].chrom, files[g].records[i])] == EntryOf(files[g].records[i])
    ensures out.freq == FreqFold(out.index, records)
    ensures BandConsistent(out.freq.low) && BandConsistent(out.freq.high)
    ensures exists order :: Enumerates(order, refLoci) &&
                            out.rem == RemFold(out.index, out.freq.proc, RemState(out.freq.samples, 0, 0), order)
    ensures out.freq.success + out.freq.fail == |records|
    ensures out.freq.proc == NominalLoci(records)
    ensures out.rem.success == |ResidualHits(out.index, out.freq.proc, refLoci)|
    ensures out.rem.fail == |ResidualMisses(out.index, out.freq.proc, refLoci)|
    ensures out.rem.success + out.rem.fail == |refLoci - NominalLoci(records)|
    ensures WellFormed(out.rem.samples)
    ensures SampleCount(out.rem.samples) == out.freq.success + out.rem.success
    ensures |out.report| == 5
    ensures forall i :: 0 <= i < 5 ==>
      Summarises(out.rem.samples.scores[i], out.rem.samples.heterozs[i], Cutoffs[i], out.report[i])
    ensures TabulatedTotal(out.report) == out.freq.success + out.rem.success
  {
    var index := ReadAllTrfData(files);
    var freq := ProcessFreqFile(index, records);
    assert freq.proc == NominalLoci(records) by {
      forall k ensures k in freq.proc <==> k in NominalLoci(records) {
        if k in freq.proc {
          var i :| 0 <= i < |records| && records[i].locus == k;
        }
      }
    }
    var rem := ProcessRemLoci(refLoci, index, freq.proc, freq.samples);
    var report := PlotResults(rem.samples);
    out := Outcome(index, freq, rem, report);
  }
}
