/**
 The fuzzy locus matcher: a nominal locus may be off by one base on its
 start and on its stop, so the nine loci `(chrom, start+i, stop+j)` with
 `i, j` in `[1, 0, -1]` are tried in a fixed priority order (outer loop
 over `i`, inner loop over `j`) and the first one present in the index
 wins.
 */
module Matcher {
  import opened Loci

  /** A hit: the matched entry and the offsets added to start and stop. */
  datatype Hit = Hit(entry: Entry, di: int, dj: int)

  const Diffs: seq<int> := [1, 0, -1]

  /** The nine candidate offsets, in the order the nested loops visit them:
      the outer loop over `Diffs` gives the start offset, the inner one the
      stop offset. */
  const Offsets: seq<(int, int)> := Grid(Diffs)

  /** The pairs `(d[a], d[b])` with `a` varying slowest. */
  function Grid(d: seq<int>): (g: seq<(int, int)>)
    requires |d| == 3
    ensures |g| == 9 && forall k :: 0 <= k < 9 ==> g[k] == (d[k / 3], d[k % 3])
  {
    seq(9, k requires 0 <= k < 9 => (d[k / 3], d[k % 3]))
  }

  /** The priority order of the offsets, written out. */
  lemma OffsetsListed()
    ensures Offsets == [(1, 1), (1, 0), (1, -1), (0, 1), (0, 0), (0, -1), (-1, 1), (-1, 0), (-1, -1)]
  {
    OffsetsAt(0, 0); OffsetsAt(0, 1); OffsetsAt(0, 2);
    OffsetsAt(1, 0); OffsetsAt(1, 1); OffsetsAt(1, 2);
    OffsetsAt(2, 0); OffsetsAt(2, 1); OffsetsAt(2, 2);
  }

  function Shift(l: Locus, di: int, dj: int): Locus
  {
    Locus(l.chrom, l.start + di, l.stop + dj)
  }

  function Candidate(l: Locus, offs: seq<(int, int)>, k: int): Locus
    requires 0 <= k < |offs|
  {
    Shift(l, offs[k].0, offs[k].1)
  }

  /** `offs[k]` is the first offset of `offs` whose shifted locus is in the index. */
  predicate IsFirstPresent(index: Index, l: Locus, offs: seq<(int, int)>, k: int)
  {
    && 0 <= k < |offs|
    && Candidate(l, offs, k) in index
    && forall m :: 0 <= m < k ==> Candidate(l, offs, m) !in index
  }

  /** The ordered search with early exit over a list of offsets. */
  function FirstHit(index: Index, l: Locus, offs: seq<(int, int)>): Option<Hit>
    decreases |offs|
  {
    if |offs| == 0 then None
    else if Shift(l, offs[0].0, offs[0].1) in index then
      Some(Hit(index[Shift(l, offs[0].0, offs[0].1)], offs[0].0, offs[0].1))
    else FirstHit(index, l, offs[1..])
  }

  /** The matcher's answer for a nominal locus. */
  function Lookup(index: Index, l: Locus): Option<Hit>
  {
    FirstHit(index, l, Offsets)
  }

  lemma {:induction false} FirstHitCharacterised(index: Index, l: Locus, offs: seq<(int, int)>)
    ensures FirstHit(index, l, offs).None? <==> forall k :: 0 <= k < |offs| ==> Candidate(l, offs, k) !in index
    ensures FirstHit(index, l, offs).Some? ==>
      exists k :: IsFirstPresent(index, l, offs, k) &&
        FirstHit(index, l, offs) == Some(Hit(index[Candidate(l, offs, k)], offs[k].0, offs[k].1))
    decreases |offs|
  {
    if |offs| > 0 && Shift(l, offs[0].0, offs[0].1) !in index {
      var rest := offs[1..];
      FirstHitCharacterised(index, l, rest);
      forall k | 1 <= k < |offs|
        ensures Candidate(l, offs, k) == Candidate(l, rest, k - 1)
      {
      }
      if FirstHit(index, l, rest).Some? {
        var k :| IsFirstPresent(index, l, rest, k) &&
          FirstHit(index, l, rest) == Some(Hit(index[Candidate(l, rest, k)], rest[k].0, rest[k].1));
        assert IsFirstPresent(index, l, offs, k + 1);
      } else {
        forall k | 0 <= k < |offs| ensures Candidate(l, offs, k) !in index {
          if k > 0 {
            assert Candidate(l, rest, k - 1) !in index;
          }
        }
      }
    } else if |offs| > 0 {
      assert IsFirstPresent(index, l, offs, 0);
    }
  }

  /** Every offset is within one base on start and on stop. */
  lemma OffsetsInRange()
    ensures forall k :: 0 <= k < |Offsets| ==> -1 <= Offsets[k].0 <= 1 && -1 <= Offsets[k].1 <= 1
  {
    forall k | 0 <= k < |Offsets| ensures -1 <= Offsets[k].0 <= 1 && -1 <= Offsets[k].1 <= 1 {
      assert Offsets[k] == (Diffs[k / 3], Diffs[k % 3]);
    }
  }

  /** None of the nine loci shifted by `Offsets` is in the index. */
  predicate NoneNear(index: Index, l: Locus)
  {
    forall di, dj :: -1 <= di <= 1 && -1 <= dj <= 1 ==> Shift(l, di, dj) !in index
  }

  /** The matcher misses exactly when none of the nine loci within one base
      on start and on stop is in the index. */
  lemma LookupMissCharacterised(index: Index, l: Locus)
    ensures Lookup(index, l).None? <==> NoneNear(index, l)
  {
    FirstHitCharacterised(index, l, Offsets);
    if Lookup(index, l).None? {
      LookupMissSound(index, l);
    } else {
      var k :| 0 <= k < |Offsets| && Candidate(l, Offsets, k) in index;
      OffsetsInRange();
      assert Shift(l, Offsets[k].0, Offsets[k].1) in index;
    }
  }

  lemma LookupMissSound(index: Index, l: Locus)
    requires forall k :: 0 <= k < |Offsets| ==> Candidate(l, Offsets, k) !in index
    ensures NoneNear(index, l)
  {
    forall di, dj | -1 <= di <= 1 && -1 <= dj <= 1 ensures Shift(l, di, dj) !in index {
      OffsetsAt(1 - di, 1 - dj);
      assert Candidate(l, Offsets, 3 * (1 - di) + (1 - dj)) !in index;
    }
  }

  /** A hit is the entry at the first of the nine offsets, in priority
      order, whose locus is in the index. */
  lemma LookupHitCharacterised(index: Index, l: Locus)
    requires Lookup(index, l).Some?
    ensures exists k :: IsFirstPresent(index, l, Offsets, k) &&
                        Lookup(index, l) == Some(Hit(index[Candidate(l, Offsets, k)], Offsets[k].0, Offsets[k].1))
  {
    FirstHitCharacterised(index, l, Offsets);
  }

  /** A hit names a present locus at offsets within one base, and carries
      that locus's entry. */
  lemma LookupHitSound(index: Index, l: Locus)
    requires Lookup(index, l).Some?
    ensures -1 <= Lookup(index, l).value.di <= 1 && -1 <= Lookup(index, l).value.dj <= 1
    ensures Shift(l, Lookup(index, l).value.di, Lookup(index, l).value.dj) in index
    ensures index[Shift(l, Lookup(index, l).value.di, Lookup(index, l).value.dj)] == Lookup(index, l).value.entry
  {
    LookupHitCharacterised(index, l);
    OffsetsInRange();
  }

  /** Tie-break: when the locus one base to the right on start is present,
      the exact locus `(0, 0)` is never chosen; only `(1, 1)` can beat `(1, 0)`. */
  lemma PrefersShiftedStart(index: Index, l: Locus)
    requires Shift(l, 1, 0) in index
    ensures Lookup(index, l).Some?
    ensures Shift(l, 1, 1) !in index ==> Lookup(index, l) == Some(Hit(index[Shift(l, 1, 0)], 1, 0))
    ensures Shift(l, 1, 1) in index ==> Lookup(index, l) == Some(Hit(index[Shift(l, 1, 1)], 1, 1))
  {
    OffsetsAt(0, 0);
    OffsetsAt(0, 1);
    if Shift(l, 1, 1) in index {
      LookupAt(index, l, 0);
    } else {
      assert IsFirstPresent(index, l, Offsets, 1);
      LookupAt(index, l, 1);
    }
  }

  /** An index holding only `chr1:100-110` is reached from `chr1:101-111`
      through the last offset, `(-1, -1)`. */
  lemma ExampleLastOffset()
    ensures Lookup(map[Locus("chr1", 100, 110) := Entry(20, 2)], Locus("chr1", 101, 111))
      == Some(Hit(Entry(20, 2), -1, -1))
  {
    var index := map[Locus("chr1", 100, 110) := Entry(20, 2)];
    var l := Locus("chr1", 101, 111);
    assert forall k :: 0 <= k < 8 ==> Candidate(l, Offsets, k) != Locus("chr1", 100, 110);
    FirstHitCharacterised(index, l, Offsets);
    assert IsFirstPresent(index, l, Offsets, 8);
  }

  /** The inner loop over `Diffs` nested in the outer one visits `Offsets`
      in order. */
  lemma OffsetsAt(a: int, b: int)
    requires 0 <= a < |Diffs| && 0 <= b < |Diffs|
    ensures 3 * a + b < |Offsets| && Offsets[3 * a + b] == (Diffs[a], Diffs[b])
  {
    var k := 3 * a + b;
    assert k / 3 == a && k % 3 == b;
    assert Offsets[k] == (Diffs[k / 3], Diffs[k % 3]);
  }

  /** The first present offset determines the matcher's answer. */
  lemma LookupAt(index: Index, l: Locus, k: int)
    requires IsFirstPresent(index, l, Offsets, k)
    ensures Lookup(index, l) == Some(Hit(index[Candidate(l, Offsets, k)], Offsets[k].0, Offsets[k].1))
  {
    FirstHitCharacterised(index, l, Offsets);
    if Lookup(index, l).Some? {
      var k' :| IsFirstPresent(index, l, Offsets, k') &&
        Lookup(index, l) == Some(Hit(index[Candidate(l, Offsets, k')], Offsets[k'].0, Offsets[k'].1));
      assert k' == k;
    }
  }

  /** The nested loops over `Diffs` with the stop flag and both breaks. */
  method Match(index: Index, l: Locus) returns (r: Option<Hit>)
    ensures r == Lookup(index, l)
  {
    r := None;
    var shouldStop := false;
    var a := 0;
    while a < |Diffs|
      invariant 0 <= a <= 3
      invariant shouldStop <==> r.Some?
      invariant shouldStop ==> r == Lookup(index, l)
      invariant !shouldStop ==> forall m :: 0 <= m < 3 * a ==> Candidate(l, Offsets, m) !in index
    {
      if shouldStop {
        break;
      }
      var i := Diffs[a];
      var b := 0;
      while b < |Diffs|
        invariant 0 <= b <= 3
        invariant !shouldStop ==> r.None? && forall m :: 0 <= m < 3 * a + b ==> Candidate(l, Offsets, m) !in index
        invariant shouldStop ==> r.Some? && r == Lookup(index, l)
      {
        var j := Diffs[b];
        OffsetsAt(a, b);
        if Shift(l, i, j) in index {
          LookupAt(index, l, 3 * a + b);
          r := Some(Hit(index[Shift(l, i, j)], i, j));
          shouldStop := true;
          break;
        }
        b := b + 1;
      }
      a := a + 1;
    }
    if !shouldStop {
      FirstHitCharacterised(index, l, Offsets);
    }
  }
}
