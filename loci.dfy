/**
 Loci, repeat-finder annotation entries and the annotation index that
 maps each locus to its (score, period) entry.

 A locus is the triple `(chrom, start, stop)`; the source keys its
 dictionaries by the text `chrom:start-stop`, and equality of the triple
 stands for equality of that canonical text.
 */
module Loci {

  datatype Option<+T> = None | Some(value: T)

  datatype Locus = Locus(chrom: string, start: int, stop: int)

  /** An annotation: the repeat-finder quality score and the repeat period
      (the length of the repeated unit). */
  datatype Entry = Entry(score: int, period: nat)

  type Index = map<Locus, Entry>

  /** One already-tokenised repeat-finder line: its start and stop
      columns, its score column and the length of its repeat-unit column. */
  datatype TrfRecord = TrfRecord(start: int, stop: int, score: int, period: nat)

  /** The records of one chromosome's annotation file. */
  datatype ChromFile = ChromFile(chrom: string, records: seq<TrfRecord>)

  /** Periods of six or more are not a period class of the analysis. */
  const PeriodLimit: nat := 6

  function KeyOf(chrom: string, r: TrfRecord): Locus
  {
    Locus(chrom, r.start, r.stop)
  }

  function EntryOf(r: TrfRecord): Entry
  {
    Entry(r.score, r.period)
  }

  predicate Kept(r: TrfRecord)
  {
    r.period < PeriodLimit
  }

  /** Every entry of the index has a period the analysis accepts. */
  predicate PeriodsBelowLimit(index: Index)
  {
    forall k :: k in index ==> index[k].period < PeriodLimit
  }

  /** Some kept record of `records` has key `k`. */
  predicate HasKept(chrom: string, records: seq<TrfRecord>, k: Locus)
  {
    exists i :: 0 <= i < |records| && Kept(records[i]) && KeyOf(chrom, records[i]) == k
  }

  /** `records[i]` is kept and no later kept record has the same key. */
  predicate IsLastKept(chrom: string, records: seq<TrfRecord>, i: int)
  {
    && 0 <= i < |records|
    && Kept(records[i])
    && forall j :: i < j < |records| && Kept(records[j]) ==> KeyOf(chrom, records[j]) != KeyOf(chrom, records[i])
  }

  /** A kept key of the first `n + 1` records is one of the first `n` or
      the key of record `n`, if that record is kept. */
  lemma HasKeptExtend(chrom: string, records: seq<TrfRecord>, n: int)
    requires 0 <= n < |records|
    ensures forall k :: HasKept(chrom, records[..n + 1], k) <==>
      HasKept(chrom, records[..n], k) || (Kept(records[n]) && KeyOf(chrom, records[n]) == k)
  {
    forall k
      ensures HasKept(chrom, records[..n + 1], k) <==>
        HasKept(chrom, records[..n], k) || (Kept(records[n]) && KeyOf(chrom, records[n]) == k)
    {
      if HasKept(chrom, records[..n + 1], k) {
        var i :| 0 <= i < n + 1 && Kept(records[..n + 1][i]) && KeyOf(chrom, records[..n + 1][i]) == k;
        if i < n {
          assert records[..n][i] == records[..n + 1][i];
        }
      }
      if HasKept(chrom, records[..n], k) {
        var i :| 0 <= i < n && Kept(records[..n][i]) && KeyOf(chrom, records[..n][i]) == k;
        assert records[..n + 1][i] == records[..n][i];
      }
      if Kept(records[n]) && KeyOf(chrom, records[n]) == k {
        assert records[..n + 1][n] == records[n];
      }
    }
  }

  /** The last kept record for its key among the first `n + 1`, if it is
      not record `n`, is the last among the first `n` and has another key
      than a kept record `n`. */
  lemma IsLastKeptShrink(chrom: string, records: seq<TrfRecord>, n: int, i: int)
    requires 0 <= n < |records| && i < n
    requires IsLastKept(chrom, records[..n + 1], i)
    ensures IsLastKept(chrom, records[..n], i)
    ensures Kept(records[n]) ==> KeyOf(chrom, records[n]) != KeyOf(chrom, records[i])
  {
    forall j | i < j < n && Kept(records[..n][j])
      ensures KeyOf(chrom, records[..n][j]) != KeyOf(chrom, records[..n][i])
    {
      assert records[..n][j] == records[..n + 1][j];
    }
    assert records[..n + 1][n] == records[n];
  }

  /** Folds the records of one chromosome into `loci`: a record is kept
      only when its period is below six, and a later kept record for the
      same key overwrites an earlier one (and any entry already in `loci`). */
  method ReadTrfFile(loci: Index, chrom: string, records: seq<TrfRecord>) returns (r: Index)
    ensures forall k :: k in r <==> k in loci || HasKept(chrom, records, k)
    ensures forall i :: IsLastKept(chrom, records, i) ==> KeyOf(chrom, records[i]) in r && r[KeyOf(chrom, records[i])] == EntryOf(records[i])
    ensures forall k :: k in loci && !HasKept(chrom, records, k) ==> r[k] == loci[k]
    ensures PeriodsBelowLimit(loci) ==> PeriodsBelowLimit(r)
  {
    r := loci;
    var n := 0;
    while n < |records|
      invariant 0 <= n <= |records|
      invariant forall k :: k in r <==> k in loci || HasKept(chrom, records[..n], k)
      invariant forall i :: IsLastKept(chrom, records[..n], i) ==> KeyOf(chrom, records[i]) in r && r[KeyOf(chrom, records[i])] == EntryOf(records[i])
      invariant forall k :: k in loci && !HasKept(chrom, records[..n], k) ==> r[k] == loci[k]
      invariant PeriodsBelowLimit(loci) ==> PeriodsBelowLimit(r)
    {
      var rec := records[n];
      if rec.period < PeriodLimit {
        r := r[KeyOf(chrom, rec) := EntryOf(rec)];
      }
      HasKeptExtend(chrom, records, n);
      forall i | IsLastKept(chrom, records[..n + 1], i)
        ensures KeyOf(chrom, records[i]) in r && r[KeyOf(chrom, records[i])] == EntryOf(records[i])
      {
        if i < n {
          IsLastKeptShrink(chrom, records, n, i);
        }
      }
      n := n + 1;
    }
    assert records[..n] == records;
  }

  /** No file strictly between `g` and `n` has a kept record with key `k`. */
  predicate NoLaterKept(files: seq<ChromFile>, g: int, n: int, k: Locus)
    requires n <= |files|
  {
    forall h :: g < h < n && 0 <= h ==> !HasKept(files[h].chrom, files[h].records, k)
  }

  /** `read_all_trf_data`: folds every chromosome file, in order, into one
      index that starts out empty. All files share the index, so a key
      holds the entry of the last kept record of the last file naming it. */
  method ReadAllTrfData(files: seq<ChromFile>) returns (index: Index)
    ensures PeriodsBelowLimit(index)
    ensures forall k :: k in index <==> exists f :: 0 <= f < |files| && HasKept(files[f].chrom, files[f].records, k)
    ensures forall g, i :: 0 <= g < |files| && IsLastKept(files[g].chrom, files[g].records, i) &&
                           NoLaterKept(files, g, |files|, KeyOf(files[g].chrom, files[g].records[i])) ==>
              KeyOf(files[g].chrom, files[g].records[i]) in index &&
              index[KeyOf(files[g].chrom, files[g].records[i])] == EntryOf(files[g].records[i])
  {
    index := map[];
    var f := 0;
    while f < |files|
      invariant 0 <= f <= |files|
      invariant PeriodsBelowLimit(index)
      invariant forall k :: k in index <==> exists g :: 0 <= g < f && HasKept(files[g].chrom, files[g].records, k)
      invariant forall g, i :: 0 <= g < f && IsLastKept(files[g].chrom, files[g].records, i) &&
                               NoLaterKept(files, g, f, KeyOf(files[g].chrom, files[g].records[i])) ==>
                  KeyOf(files[g].chrom, files[g].records[i]) in index &&
                  index[KeyOf(files[g].chrom, files[g].records[i])] == EntryOf(files[g].records[i])
    {
      ghost var prev := index;
      index := ReadTrfFile(index, files[f].chrom, files[f].records);
      forall g, i | 0 <= g < f + 1 && IsLastKept(files[g].chrom, files[g].records, i) &&
                    NoLaterKept(files, g, f + 1, KeyOf(files[g].chrom, files[g].records[i]))
        ensures KeyOf(files[g].chrom, files[g].records[i]) in index &&
                index[KeyOf(files[g].chrom, files[g].records[i])] == EntryOf(files[g].records[i])
      {
        if g < f {
          var k := KeyOf(files[g].chrom, files[g].records[i]);
          assert NoLaterKept(files, g, f, k);
          assert !HasKept(files[f].chrom, files[f].records, k);
          assert k in prev && prev[k] == EntryOf(files[g].records[i]);
        }
      }
      f := f + 1;
    }
  }
}
