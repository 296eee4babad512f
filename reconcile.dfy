/**
 The two reconcilers.  The frequency reconciler runs the matcher over every
 allele-frequency record and, on a hit, appends `(score, H)` to the sample
 lists of the entry's period and runs the period-5 band tallies; the
 residual reconciler runs the matcher over the reference loci that the
 first pass did not mark processed and appends `(score, 0.0)` on a hit.
 */
module Reconcile {
  import opened Loci
  import opened Matcher
  import opened Heterozygosity

  /** Five parallel pairs of lists, one per period 1..5 at slots 0..4. */
  datatype Samples = Samples(scores: seq<seq<int>>, heterozs: seq<seq<real>>)

  const NoSamples: Samples := Samples([[], [], [], [], []], [[], [], [], [], []])

  predicate FiveLists(s: Samples)
  {
    |s.scores| == 5 && |s.heterozs| == 5
  }

  /** Five lists of each kind, pairwise of equal length. */
  predicate WellFormed(s: Samples)
  {
    FiveLists(s) && forall p :: 0 <= p < 5 ==> |s.scores[p]| == |s.heterozs[p]|
  }

  /** `lists[period - 1]` as Python indexes it: a period of 0 would give
      index -1, the last of the five lists. */
  function Slot(period: nat): (slot: nat)
    requires period < PeriodLimit
    ensures slot < 5
    ensures 1 <= period ==> slot == period - 1
  {
    if period == 0 then 4 else period - 1
  }

  function Append(s: Samples, slot: nat, score: int, h: real): (r: Samples)
    requires FiveLists(s) && slot < 5
    ensures FiveLists(r)
  {
    Samples(s.scores[slot := s.scores[slot] + [score]], s.heterozs[slot := s.heterozs[slot] + [h]])
  }

  /** The number of samples over the five periods. */
  function SampleCount(s: Samples): nat
    requires FiveLists(s)
  {
    |s.scores[0]| + |s.scores[1]| + |s.scores[2]| + |s.scores[3]| + |s.scores[4]|
  }

  /** Appending one sample adds to its own slot's two lists and leaves the
      other slots alone. */
  lemma AppendEffect(s: Samples, slot: nat, score: int, h: real)
    requires FiveLists(s) && slot < 5
    ensures Append(s, slot, score, h).scores[slot] == s.scores[slot] + [score]
    ensures Append(s, slot, score, h).heterozs[slot] == s.heterozs[slot] + [h]
    ensures forall p :: 0 <= p < 5 && p != slot ==>
      Append(s, slot, score, h).scores[p] == s.scores[p] && Append(s, slot, score, h).heterozs[p] == s.heterozs[p]
    ensures SampleCount(Append(s, slot, score, h)) == SampleCount(s) + 1
    ensures WellFormed(s) ==> WellFormed(Append(s, slot, score, h))
  {
  }

  // ---------------------------------------------------------------------
  // Frequency reconciler

  /** One allele-frequency line: its nominal locus and its alleles. */
  datatype FreqRecord = FreqRecord(locus: Locus, alleles: seq<Allele>)

  /** A period-5 score band: loci flagged by the multiple test, all loci of
      the band, and the heterozygosities of the flagged ones. */
  datatype Band = Band(flagged: nat, total: nat, vals: seq<real>)

  const NoBand: Band := Band(0, 0, [])

  predicate BandConsistent(b: Band)
  {
    b.flagged <= b.total && |b.vals| == b.flagged
  }

  /** Period 5 with score in [20, 25). */
  predicate InLowBand(e: Entry)
  {
    e.period == 5 && 20 <= e.score < 25
  }

  /** Period 5 with score in [25, 32]. */
  predicate InHighBand(e: Entry)
  {
    e.period == 5 && 25 <= e.score <= 32
  }

  function Tally(b: Band, flagged: bool, h: real): Band
  {
    Band(if flagged then b.flagged + 1 else b.flagged, b.total + 1, if flagged then b.vals + [h] else b.vals)
  }

  datatype FreqState = FreqState(samples: Samples, proc: set<Locus>, success: nat, fail: nat, low: Band, high: Band)

  const FreqStart: FreqState := FreqState(NoSamples, {}, 0, 0, NoBand, NoBand)

  /** What a hit on an entry with an accepted period adds. */
  function Attribute(st: FreqState, e: Entry, alleles: seq<Allele>): FreqState
    requires FiveLists(st.samples) && e.period < PeriodLimit
  {
    var h := H(FreqsOf(alleles));
    st.(samples := Append(st.samples, Slot(e.period), e.score, h),
        low := if InLowBand(e) then Tally(st.low, HasMultiple(alleles), h) else st.low,
        high := if InHighBand(e) then Tally(st.high, HasMultiple(alleles), h) else st.high)
  }

  /** One record: its nominal locus is marked processed before matching,
      then a hit is attributed and counted, and a miss is counted. */
  function FreqStep(index: Index, st: FreqState, rec: FreqRecord): (r: FreqState)
    requires FiveLists(st.samples)
    ensures FiveLists(r.samples)
  {
    var marked := st.(proc := st.proc + {rec.locus});
    match Lookup(index, rec.locus)
    case None => marked.(fail := marked.fail + 1)
    case Some(hit) =>
      var attributed := if hit.entry.period < PeriodLimit then Attribute(marked, hit.entry, rec.alleles) else marked;
      attributed.(success := attributed.success + 1)
  }

  /** The state after the records, in file order. */
  function FreqFold(index: Index, records: seq<FreqRecord>): (r: FreqState)
    ensures FiveLists(r.samples)
  {
    if |records| == 0 then FreqStart
    else FreqStep(index, FreqFold(index, records[..|records| - 1]), records[|records| - 1])
  }

  /** Records in `records` whose nominal locus the matcher resolves. */
  function MatchedCount(index: Index, records: seq<FreqRecord>): (n: nat)
  {
    if |records| == 0 then 0
    else MatchedCount(index, records[..|records| - 1]) + if Lookup(index, records[|records| - 1].locus).Some? then 1 else 0
  }

  /** On a hit with an accepted period exactly the lists of that period grow,
      by the entry's score and the heterozygosity of the record; on a miss
      the samples do not change. */
  lemma FreqStepEffect(index: Index, st: FreqState, rec: FreqRecord)
    requires FiveLists(st.samples)
    ensures rec.locus in FreqStep(index, st, rec).proc
    ensures Lookup(index, rec.locus).None? ==> FreqStep(index, st, rec).samples == st.samples
    ensures Lookup(index, rec.locus).Some? && Lookup(index, rec.locus).value.entry.period < PeriodLimit ==>
      var e := Lookup(index, rec.locus).value.entry;
      FreqStep(index, st, rec).samples == Append(st.samples, Slot(e.period), e.score, H(FreqsOf(rec.alleles)))
  {
  }

  /** Every record is counted once, as a hit or as a miss. */
  lemma {:induction false} FreqFoldCounts(index: Index, records: seq<FreqRecord>)
    ensures FreqFold(index, records).success + FreqFold(index, records).fail == |records|
    ensures FreqFold(index, records).success == MatchedCount(index, records)
  {
    if |records| > 0 {
      FreqFoldCounts(index, records[..|records| - 1]);
    }
  }

  /** The processed set is exactly the set of nominal loci of the records,
      hit or miss. */
  lemma {:induction false} FreqFoldProcessed(index: Index, records: seq<FreqRecord>)
    ensures forall k :: k in FreqFold(index, records).proc <==> Names(records, k)
  {
    if |records| > 0 {
      var p := records[..|records| - 1];
      FreqFoldProcessed(index, p);
      NamesExtend(records);
      assert FreqFold(index, records).proc == FreqFold(index, p).proc + {records[|records| - 1].locus};
    }
  }

  /** Some record of `records` has nominal locus `k`. */
  predicate Names(records: seq<FreqRecord>, k: Locus)
  {
    exists i :: 0 <= i < |records| && records[i].locus == k
  }

  lemma NamesExtend(records: seq<FreqRecord>)
    requires |records| > 0
    ensures forall k :: Names(records, k) <==> Names(records[..|records| - 1], k) || records[|records| - 1].locus == k
  {
    var p := records[..|records| - 1];
    forall k ensures Names(records, k) <==> Names(p, k) || records[|records| - 1].locus == k {
      if Names(p, k) {
        var i :| 0 <= i < |p| && p[i].locus == k;
        assert records[i] == p[i];
      }
      if Names(records, k) {
        var i :| 0 <= i < |records| && records[i].locus == k;
        if i < |p| {
          assert p[i] == records[i];
        }
      }
    }
  }


  /** The score and heterozygosity lists of each period stay of equal
      length, and in each band the flagged loci are at most all loci and
      carry one value each. */
  lemma {:induction false} FreqFoldShape(index: Index, records: seq<FreqRecord>)
    ensures WellFormed(FreqFold(index, records).samples)
    ensures BandConsistent(FreqFold(index, records).low) && BandConsistent(FreqFold(index, records).high)
  {
    if |records| > 0 {
      var p := records[..|records| - 1];
      var rec := records[|records| - 1];
      FreqFoldShape(index, p);
      var before := FreqFold(index, p);
      match Lookup(index, rec.locus) {
      case None =>
      case Some(hit) =>
        if hit.entry.period < PeriodLimit {
          AppendEffect(before.samples, Slot(hit.entry.period), hit.entry.score, H(FreqsOf(rec.alleles)));
        }
      }
    }
  }

  /** When every entry of the index has an accepted period, each hit adds
      exactly one sample. */
  lemma {:induction false} FreqFoldSampleCount(index: Index, records: seq<FreqRecord>)
    requires PeriodsBelowLimit(index)
    ensures SampleCount(FreqFold(index, records).samples) == FreqFold(index, records).success
  {
    if |records| > 0 {
      var p := records[..|records| - 1];
      var rec := records[|records| - 1];
      FreqFoldSampleCount(index, p);
      var before := FreqFold(index, p);
      match Lookup(index, rec.locus) {
      case None =>
      case Some(hit) =>
        LookupHitSound(index, rec.locus);
        AppendEffect(before.samples, Slot(hit.entry.period), hit.entry.score, H(FreqsOf(rec.alleles)));
      }
    }
  }

  /** The whole frequency pass over the records. */
  lemma FreqPassFacts(index: Index, records: seq<FreqRecord>)
    ensures var st := FreqFold(index, records);
      && st.success + st.fail == |records|
      && (forall k :: k in st.proc <==> Names(records, k))
      && WellFormed(st.samples)
      && BandConsistent(st.low) && BandConsistent(st.high)
      && (PeriodsBelowLimit(index) ==> SampleCount(st.samples) == st.success)
  {
    FreqFoldCounts(index, records);
    FreqFoldProcessed(index, records);
    FreqFoldShape(index, records);
    if PeriodsBelowLimit(index) {
      FreqFoldSampleCount(index, records);
    }
  }

  /** A hit on an accepted period: the sample `(score, H)` is recorded and,
      for period 5 in either score band, the band is tallied by the
      multiple test. */
  method RecordSample(st: FreqState, e: Entry, alleles: seq<Allele>) returns (r: FreqState)
    requires FiveLists(st.samples) && e.period < PeriodLimit
    ensures r == Attribute(st, e, alleles)
  {
    var scores, heterozs := st.samples.scores, st.samples.heterozs;
    var count1, count1Total, vals1 := st.low.flagged, st.low.total, st.low.vals;
    var count2, count2Total, vals2 := st.high.flagged, st.high.total, st.high.vals;
    var heteroz := CalcHeterozyg(FreqsOf(alleles));
    var slot := Slot(e.period);
    heterozs := heterozs[slot := heterozs[slot] + [heteroz]];
    scores := scores[slot := scores[slot] + [e.score]];
    if e.period == 5 && e.score >= 20 && e.score < 25 {
      var hasMultiple := RepeatMultiple(alleles);
      if hasMultiple {
        count1 := count1 + 1;
        vals1 := vals1 + [heteroz];
      }
      count1Total := count1Total + 1;
    }
    if e.period == 5 && e.score >= 25 && e.score <= 32 {
      var hasMultiple := RepeatMultiple(alleles);
      if hasMultiple {
        count2 := count2 + 1;
        vals2 := vals2 + [heteroz];
      }
      count2Total := count2Total + 1;
    }
    r := st.(samples := Samples(scores, heterozs),
             low := Band(count1, count1Total, vals1), high := Band(count2, count2Total, vals2));
  }

  /** The body of the loop of `process_freq_file` for one record. */
  method VisitRecord(index: Index, st: FreqState, rec: FreqRecord) returns (r: FreqState)
    requires FiveLists(st.samples)
    ensures r == FreqStep(index, st, rec)
  {
    r := st.(proc := st.proc + {rec.locus});
    var hit := Match(index, rec.locus);
    match hit {
    case None =>
      r := r.(fail := r.fail + 1);
    case Some(h) =>
      if h.entry.period < PeriodLimit {
        r := RecordSample(r, h.entry, rec.alleles);
      }
      r := r.(success := r.success + 1);
    }
  }

  /** `process_freq_file` without its line parsing. */
  method ProcessFreqFile(index: Index, records: seq<FreqRecord>) returns (st: FreqState)
    ensures st == FreqFold(index, records)
    ensures st.success + st.fail == |records|
    ensures forall k :: k in st.proc <==> Names(records, k)
    ensures WellFormed(st.samples)
    ensures BandConsistent(st.low) && BandConsistent(st.high)
    ensures PeriodsBelowLimit(index) ==> SampleCount(st.samples) == st.success
  {
    st := FreqStart;
    var n := 0;
    while n < |records|
      invariant 0 <= n <= |records|
      invariant st == FreqFold(index, records[..n])
    {
      assert records[..n + 1][..n] == records[..n];
      st := VisitRecord(index, st, records[n]);
      n := n + 1;
    }
    assert records[..n] == records;
    FreqPassFacts(index, records);
  }

  /** The number of values above a threshold (the band summaries count the
      flagged heterozygosities above 0.02). */
  function CountAbove(vals: seq<real>, t: real): (n: nat)
    ensures n <= |vals|
    ensures n == |vals| <==> forall k :: 0 <= k < |vals| ==> vals[k] > t
  {
    if |vals| == 0 then 0
    else CountAbove(vals[..|vals| - 1], t) + if vals[|vals| - 1] > t then 1 else 0
  }

  // ---------------------------------------------------------------------
  // Residual reconciler

  datatype RemState = RemState(samples: Samples, success: nat, fail: nat)

  /** One reference locus: skipped when processed, otherwise matched; a hit
      on an accepted period adds the sample `(score, 0.0)`. */
  function RemStep(index: Index, proc: set<Locus>, st: RemState, l: Locus): (r: RemState)
    requires FiveLists(st.samples)
    ensures FiveLists(r.samples)
  {
    if l in proc then st
    else match Lookup(index, l)
      case None => st.(fail := st.fail + 1)
      case Some(hit) =>
        var e := hit.entry;
        RemState(if e.period < PeriodLimit then Append(st.samples, Slot(e.period), e.score, 0.0) else st.samples,
                 st.success + 1, st.fail)
  }

  /** The state after the reference loci in the order `order`. */
  function RemFold(index: Index, proc: set<Locus>, st: RemState, order: seq<Locus>): (r: RemState)
    requires FiveLists(st.samples)
    ensures FiveLists(r.samples)
  {
    if |order| == 0 then st
    else RemStep(index, proc, RemFold(index, proc, st, order[..|order| - 1]), order[|order| - 1])
  }

  /** `order` lists every element of `s` exactly once. */
  ghost predicate Enumerates(order: seq<Locus>, s: set<Locus>)
  {
    (forall i, j :: 0 <= i < j < |order| ==> order[i] != order[j]) && (forall x :: x in s <==> x in order)
  }

  lemma EnumeratesExtend(order: seq<Locus>, s: set<Locus>, x: Locus)
    requires Enumerates(order, s) && x !in s
    ensures Enumerates(order + [x], s + {x})
  {
    var o := order + [x];
    forall i, j | 0 <= i < j < |o| ensures o[i] != o[j] {
      if j == |order| {
        assert o[i] == order[i] && order[i] in s;
      }
    }
  }

  /** Folding over one more locus is one more step. */
  lemma RemFoldSnoc(index: Index, proc: set<Locus>, st: RemState, order: seq<Locus>, x: Locus)
    requires FiveLists(st.samples)
    ensures RemFold(index, proc, st, order + [x]) == RemStep(index, proc, RemFold(index, proc, st, order), x)
  {
    assert (order + [x])[..|order|] == order;
  }

  /** Taking one more element out of the unvisited part extends the
      enumeration of the visited part. */
  lemma EnumerationStep(order: seq<Locus>, all: set<Locus>, rest: set<Locus>, x: Locus)
    requires rest <= all && Enumerates(order, all - rest) && x in rest
    ensures Enumerates(order + [x], all - (rest - {x}))
  {
    EnumeratesExtend(order, all - rest, x);
    assert all - (rest - {x}) == (all - rest) + {x};
  }

  /** Unprocessed reference loci that the matcher resolves. */
  function ResidualHits(index: Index, proc: set<Locus>, refLoci: set<Locus>): set<Locus>
  {
    set l | l in refLoci && l !in proc && Lookup(index, l).Some?
  }

  /** Unprocessed reference loci that the matcher cannot resolve. */
  function ResidualMisses(index: Index, proc: set<Locus>, refLoci: set<Locus>): set<Locus>
  {
    set l | l in refLoci && l !in proc && Lookup(index, l).None?
  }

  /** Positions of `order` holding an element of `t`. */
  function CountIn(order: seq<Locus>, t: set<Locus>): nat
  {
    if |order| == 0 then 0 else CountIn(order[..|order| - 1], t) + if order[|order| - 1] in t then 1 else 0
  }

  lemma {:induction false} CountInIgnoresAbsent(order: seq<Locus>, t: set<Locus>, x: Locus)
    requires x !in order
    ensures CountIn(order, t) == CountIn(order, t - {x})
  {
    if |order| > 0 {
      var p := order[..|order| - 1];
      assert x !in p;
      CountInIgnoresAbsent(p, t, x);
    }
  }

  /** A duplicate-free list meets each of its elements once. */
  lemma {:induction false} CountInDistinct(order: seq<Locus>, t: set<Locus>)
    requires forall i, j :: 0 <= i < j < |order| ==> order[i] != order[j]
    requires forall x :: x in t ==> x in order
    ensures CountIn(order, t) == |t|
  {
    if |order| > 0 {
      var p := order[..|order| - 1];
      var x := order[|order| - 1];
      assert x !in p;
      forall y | y in t - {x} ensures y in p {
        var i :| 0 <= i < |order| && order[i] == y;
        assert i < |p| && p[i] == y;
      }
      CountInDistinct(p, t - {x});
      CountInIgnoresAbsent(p, t, x);
    } else {
      assert t == {};
    }
  }

  /** Over any list of reference loci drawn from `refLoci`, only unprocessed
      loci are matched and each hit and each miss is counted once. */
  lemma {:induction false} RemFoldCounts(index: Index, proc: set<Locus>, st: RemState, order: seq<Locus>, refLoci: set<Locus>)
    requires FiveLists(st.samples)
    requires forall i :: 0 <= i < |order| ==> order[i] in refLoci
    ensures RemFold(index, proc, st, order).success == st.success + CountIn(order, ResidualHits(index, proc, refLoci))
    ensures RemFold(index, proc, st, order).fail == st.fail + CountIn(order, ResidualMisses(index, proc, refLoci))
  {
    if |order| > 0 {
      var p := order[..|order| - 1];
      assert forall i :: 0 <= i < |p| ==> p[i] == order[i];
      RemFoldCounts(index, proc, st, p, refLoci);
    }
  }

  /** The lists present beforehand stay as they were, and every
      heterozygosity added is 0. */
  lemma {:induction false} RemFoldKeepsPrefix(index: Index, proc: set<Locus>, st: RemState, order: seq<Locus>)
    requires FiveLists(st.samples)
    ensures forall p :: 0 <= p < 5 ==>
      && st.samples.scores[p] <= RemFold(index, proc, st, order).samples.scores[p]
      && st.samples.heterozs[p] <= RemFold(index, proc, st, order).samples.heterozs[p]
    ensures forall p, k :: 0 <= p < 5 && |st.samples.heterozs[p]| <= k < |RemFold(index, proc, st, order).samples.heterozs[p]| ==>
      RemFold(index, proc, st, order).samples.heterozs[p][k] == 0.0
  {
    if |order| > 0 {
      var o := order[..|order| - 1];
      RemFoldKeepsPrefix(index, proc, st, o);
      var before := RemFold(index, proc, st, o).samples;
      RemStepAppends(index, proc, RemFold(index, proc, st, o), order[|order| - 1]);
      var after := RemFold(index, proc, st, order).samples;
      forall p, k | 0 <= p < 5 && |st.samples.heterozs[p]| <= k < |after.heterozs[p]|
        ensures after.heterozs[p][k] == 0.0
      {
        if k < |before.heterozs[p]| {
          assert after.heterozs[p][k] == before.heterozs[p][k];
        }
      }
    }
  }

  /** One step of the residual pass only appends, and only zeros. */
  lemma RemStepAppends(index: Index, proc: set<Locus>, st: RemState, l: Locus)
    requires FiveLists(st.samples)
    ensures forall p :: 0 <= p < 5 ==>
      && st.samples.scores[p] <= RemStep(index, proc, st, l).samples.scores[p]
      && st.samples.heterozs[p] <= RemStep(index, proc, st, l).samples.heterozs[p]
    ensures forall p, k :: 0 <= p < 5 && |st.samples.heterozs[p]| <= k < |RemStep(index, proc, st, l).samples.heterozs[p]| ==>
      RemStep(index, proc, st, l).samples.heterozs[p][k] == 0.0
  {
    if l !in proc && Lookup(index, l).Some? && Lookup(index, l).value.entry.period < PeriodLimit {
      var e := Lookup(index, l).value.entry;
      AppendEffect(st.samples, Slot(e.period), e.score, 0.0);
    }
  }


  /** Equal-length lists stay of equal length, and when every entry of the
      index has an accepted period each hit adds exactly one sample. */
  lemma {:induction false} RemFoldShape(index: Index, proc: set<Locus>, st: RemState, order: seq<Locus>)
    requires FiveLists(st.samples)
    ensures WellFormed(st.samples) ==> WellFormed(RemFold(index, proc, st, order).samples)
    ensures PeriodsBelowLimit(index) ==>
      SampleCount(RemFold(index, proc, st, order).samples) - SampleCount(st.samples)
      == RemFold(index, proc, st, order).success - st.success
  {
    if |order| > 0 {
      var p := order[..|order| - 1];
      var l := order[|order| - 1];
      RemFoldShape(index, proc, st, p);
      var before := RemFold(index, proc, st, p);
      if l !in proc && Lookup(index, l).Some? {
        var e := Lookup(index, l).value.entry;
        LookupHitSound(index, l);
        if e.period < PeriodLimit {
          AppendEffect(before.samples, Slot(e.period), e.score, 0.0);
        }
      }
    }
  }

  /** Over a duplicate-free enumeration of the reference set, the counts are
      the sizes of the sets of unprocessed hits and misses, which together
      are the unprocessed reference loci. */
  lemma RemFoldOverEnumeration(index: Index, proc: set<Locus>, st: RemState, order: seq<Locus>, refLoci: set<Locus>)
    requires FiveLists(st.samples) && st.success == 0 && st.fail == 0
    requires Enumerates(order, refLoci)
    ensures RemFold(index, proc, st, order).success == |ResidualHits(index, proc, refLoci)|
    ensures RemFold(index, proc, st, order).fail == |ResidualMisses(index, proc, refLoci)|
    ensures RemFold(index, proc, st, order).success + RemFold(index, proc, st, order).fail == |refLoci - proc|
  {
    var r := RemFold(index, proc, st, order);
    var hits, misses := ResidualHits(index, proc, refLoci), ResidualMisses(index, proc, refLoci);
    assert forall i :: 0 <= i < |order| ==> order[i] in refLoci;
    RemFoldCounts(index, proc, st, order, refLoci);
    assert r.success == |hits| by {
      CountInDistinct(order, hits);
    }
    assert r.fail == |misses| by {
      CountInDistinct(order, misses);
    }
    ResidualPartition(index, proc, refLoci);
  }

  /** The unprocessed reference loci split into hits and misses. */
  lemma ResidualPartition(index: Index, proc: set<Locus>, refLoci: set<Locus>)
    ensures |ResidualHits(index, proc, refLoci)| + |ResidualMisses(index, proc, refLoci)| == |refLoci - proc|
  {
    var hits, misses := ResidualHits(index, proc, refLoci), ResidualMisses(index, proc, refLoci);
    assert refLoci - proc == hits + misses;
    assert hits * misses == {};
  }

  /** The whole residual pass over an enumeration of the reference set,
      starting from zero counts. */
  lemma RemPassFacts(index: Index, proc: set<Locus>, samples: Samples, order: seq<Locus>, refLoci: set<Locus>)
    requires FiveLists(samples) && Enumerates(order, refLoci)
    ensures var st := RemFold(index, proc, RemState(samples, 0, 0), order);
      && st.success == |ResidualHits(index, proc, refLoci)|
      && st.fail == |ResidualMisses(index, proc, refLoci)|
      && st.success + st.fail == |refLoci - proc|
      && (forall p :: 0 <= p < 5 ==> samples.scores[p] <= st.samples.scores[p] && samples.heterozs[p] <= st.samples.heterozs[p])
      && (forall p, k :: 0 <= p < 5 && |samples.heterozs[p]| <= k < |st.samples.heterozs[p]| ==> st.samples.heterozs[p][k] == 0.0)
      && (WellFormed(samples) ==> WellFormed(st.samples))
      && (PeriodsBelowLimit(index) ==> SampleCount(st.samples) == SampleCount(samples) + st.success)
  {
    RemFoldOverEnumeration(index, proc, RemState(samples, 0, 0), order, refLoci);
    RemFoldKeepsPrefix(index, proc, RemState(samples, 0, 0), order);
    RemFoldShape(index, proc, RemState(samples, 0, 0), order);
  }

  /** The body of the loop of `process_rem_loci` for one reference locus. */
  method VisitReference(index: Index, proc: set<Locus>, st: RemState, locus: Locus) returns (r: RemState)
    requires FiveLists(st.samples)
    ensures r == RemStep(index, proc, st, locus)
  {
    var scores, heterozs, success, fail := st.samples.scores, st.samples.heterozs, st.success, st.fail;
    if locus !in proc {
      var hit := Match(index, locus);
      match hit {
      case None =>
        fail := fail + 1;
      case Some(h) =>
        var e := h.entry;
        if e.period < PeriodLimit {
          var slot := Slot(e.period);
          heterozs := heterozs[slot := heterozs[slot] + [0.0]];
          scores := scores[slot := scores[slot] + [e.score]];
        }
        success := success + 1;
      }
    }
    r := RemState(Samples(scores, heterozs), success, fail);
  }

  /** `process_rem_loci`: the reference loci are a set and are visited in
      an unspecified order, so the result is the fold over some
      enumeration of the set; the counts do not depend on that order. */
  method ProcessRemLoci(refLoci: set<Locus>, index: Index, proc: set<Locus>, samples: Samples) returns (st: RemState)
    requires FiveLists(samples)
    ensures exists order :: Enumerates(order, refLoci) && st == RemFold(index, proc, RemState(samples, 0, 0), order)
    ensures st.success == |ResidualHits(index, proc, refLoci)|
    ensures st.fail == |ResidualMisses(index, proc, refLoci)|
    ensures st.success + st.fail == |refLoci - proc|
    ensures forall p :: 0 <= p < 5 ==> samples.scores[p] <= st.samples.scores[p] && samples.heterozs[p] <= st.samples.heterozs[p]
    ensures forall p, k :: 0 <= p < 5 && |samples.heterozs[p]| <= k < |st.samples.heterozs[p]| ==> st.samples.heterozs[p][k] == 0.0
    ensures WellFormed(samples) ==> WellFormed(st.samples)
    ensures PeriodsBelowLimit(index) ==> SampleCount(st.samples) == SampleCount(samples) + st.success
  {
    st := RemState(samples, 0, 0);
    var rest := refLoci;
    ghost var order: seq<Locus> := [];
    while rest != {}
      invariant rest <= refLoci
      invariant Enumerates(order, refLoci - rest)
      invariant FiveLists(st.samples)
      invariant st == RemFold(index, proc, RemState(samples, 0, 0), order)
      decreases |rest|
    {
      var locus :| locus in rest;
      EnumerationStep(order, refLoci, rest, locus);
      RemFoldSnoc(index, proc, RemState(samples, 0, 0), order, locus);
      st := VisitReference(index, proc, st, locus);
      order := order + [locus];
      rest := rest - {locus};
    }
    assert refLoci - rest == refLoci;
    RemPassFacts(index, proc, samples, order, refLoci);
  }
}
