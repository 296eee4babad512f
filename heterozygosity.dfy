/**
 The heterozygosity estimator `H = 1 - sum of f^2` over a locus's allele
 frequencies, and the repeat-unit-multiple test used for period-5 loci:
 the wild type is the first allele of strictly greatest frequency, and a
 locus is flagged when an allele whose frequency differs from the maximum
 lies a multiple of five bases away from the wild-type length.
 */
module Heterozygosity {

  /** One observed allele: its length and its frequency. */
  datatype Allele = Allele(len: int, freq: real)

  /** The repeat unit length of the period class the multiple test is run on. */
  const Unit: int := 5

  function FreqsOf(alleles: seq<Allele>): (f: seq<real>)
    ensures |f| == |alleles| && forall k :: 0 <= k < |f| ==> f[k] == alleles[k].freq
  {
    seq(|alleles|, k requires 0 <= k < |alleles| => alleles[k].freq)
  }

  /** The sum of squares, accumulated in list order. */
  function SumSquares(f: seq<real>): real
  {
    if |f| == 0 then 0.0 else SumSquares(f[..|f| - 1]) + f[|f| - 1] * f[|f| - 1]
  }

  function Sum(f: seq<real>): real
  {
    if |f| == 0 then 0.0 else Sum(f[..|f| - 1]) + f[|f| - 1]
  }

  /** Expected heterozygosity of a list of allele frequencies. */
  function H(f: seq<real>): real
  {
    1.0 - SumSquares(f)
  }

  /** Frequencies that form a distribution: each in [0, 1], summing to 1. */
  predicate IsDistribution(f: seq<real>)
  {
    (forall k :: 0 <= k < |f| ==> 0.0 <= f[k] <= 1.0) && Sum(f) == 1.0
  }

  /** `calc_heterozyg`: start from 1 and subtract each frequency's square. */
  method CalcHeterozyg(freqs: seq<real>) returns (val: real)
    ensures val == H(freqs)
    ensures val <= 1.0
  {
    val := 1.0;
    var k := 0;
    while k < |freqs|
      invariant 0 <= k <= |freqs|
      invariant val == 1.0 - SumSquares(freqs[..k])
    {
      assert freqs[..k + 1][..k] == freqs[..k];
      val := val - freqs[k] * freqs[k];
      k := k + 1;
    }
    assert freqs[..k] == freqs;
    SumSquaresNonNegative(freqs);
  }

  lemma {:induction false} SumSquaresNonNegative(f: seq<real>)
    ensures SumSquares(f) >= 0.0
  {
    if |f| > 0 {
      SumSquaresNonNegative(f[..|f| - 1]);
      assert f[|f| - 1] * f[|f| - 1] >= 0.0;
    }
  }

  /** For frequencies in [0, 1] the sum of squares is at most the plain sum,
      with equality exactly when every frequency is 0 or 1. */
  lemma {:induction false} SumSquaresAtMostSum(f: seq<real>)
    requires forall k :: 0 <= k < |f| ==> 0.0 <= f[k] <= 1.0
    ensures SumSquares(f) <= Sum(f)
    ensures SumSquares(f) == Sum(f) <==> forall k :: 0 <= k < |f| ==> f[k] == 0.0 || f[k] == 1.0
  {
    if |f| > 0 {
      var p := f[..|f| - 1];
      var x := f[|f| - 1];
      forall k | 0 <= k < |p| ensures p[k] == f[k] { }
      SumSquaresAtMostSum(p);
      assert SumSquares(p) <= Sum(p);
      assert 0.0 <= x <= 1.0;
      assert x * x <= x by {
        assert x * x <= x * 1.0;
      }
      assert x * x == x <==> x == 0.0 || x == 1.0 by {
        if x * x == x && x != 0.0 {
          assert x * (x - 1.0) == 0.0;
        }
      }
      assert SumSquares(f) == SumSquares(p) + x * x && Sum(f) == Sum(p) + x;
      assert SumSquares(f) == Sum(f) <==> SumSquares(p) == Sum(p) && x * x == x;
      assert SumSquares(f) <= Sum(f);
      if forall k :: 0 <= k < |f| ==> f[k] == 0.0 || f[k] == 1.0 {
        assert forall k :: 0 <= k < |p| ==> p[k] == 0.0 || p[k] == 1.0;
      }
      if SumSquares(f) == Sum(f) {
        assert forall k :: 0 <= k < |p| ==> p[k] == 0.0 || p[k] == 1.0;
        assert x == 0.0 || x == 1.0;
      }
    }
  }

  /** Heterozygosity of a distribution lies in [0, 1]. */
  lemma HeterozygosityBounds(f: seq<real>)
    requires IsDistribution(f)
    ensures 0.0 <= H(f) <= 1.0
  {
    SumSquaresAtMostSum(f);
    SumSquaresNonNegative(f);
  }

  lemma {:induction false} SumOfZeros(f: seq<real>)
    requires forall k :: 0 <= k < |f| ==> f[k] == 0.0
    ensures Sum(f) == 0.0
  {
    if |f| > 0 {
      SumOfZeros(f[..|f| - 1]);
    }
  }

  lemma {:induction false} SumNonNegative(f: seq<real>)
    requires forall k :: 0 <= k < |f| ==> f[k] >= 0.0
    ensures Sum(f) >= 0.0
  {
    if |f| > 0 {
      var p := f[..|f| - 1];
      assert forall k :: 0 <= k < |p| ==> p[k] == f[k];
      SumNonNegative(p);
    }
  }

  lemma {:induction false} SumAtLeastElement(f: seq<real>, i: int)
    requires forall k :: 0 <= k < |f| ==> f[k] >= 0.0
    requires 0 <= i < |f|
    ensures Sum(f) >= f[i]
  {
    var p := f[..|f| - 1];
    assert forall k :: 0 <= k < |p| ==> p[k] == f[k];
    SumNonNegative(p);
    if i < |f| - 1 {
      SumAtLeastElement(p, i);
    }
  }

  lemma {:induction false} SumOnlyOne(f: seq<real>, i: int)
    requires 0 <= i < |f| && f[i] == 1.0
    requires forall k :: 0 <= k < |f| && k != i ==> f[k] == 0.0
    ensures Sum(f) == 1.0 && SumSquares(f) == 1.0
  {
    var p := f[..|f| - 1];
    assert forall k :: 0 <= k < |p| ==> p[k] == f[k];
    if i < |f| - 1 {
      SumOnlyOne(p, i);
    } else {
      SumOfZeros(p);
      SquaresOfZeros(p);
    }
  }

  lemma {:induction false} SquaresOfZeros(f: seq<real>)
    requires forall k :: 0 <= k < |f| ==> f[k] == 0.0
    ensures SumSquares(f) == 0.0
  {
    if |f| > 0 {
      var p := f[..|f| - 1];
      assert forall k :: 0 <= k < |p| ==> p[k] == f[k];
      SquaresOfZeros(p);
    }
  }

  /** A distribution has heterozygosity zero exactly when one allele has
      frequency one. */
  lemma ZeroHeterozygosityIffFixed(f: seq<real>)
    requires IsDistribution(f)
    ensures H(f) == 0.0 <==> exists i :: 0 <= i < |f| && f[i] == 1.0
  {
    SumSquaresAtMostSum(f);
    if H(f) == 0.0 {
      if forall k :: 0 <= k < |f| ==> f[k] == 0.0 {
        SumOfZeros(f);
        assert false;
      }
    }
    if i :| 0 <= i < |f| && f[i] == 1.0 {
      forall k | 0 <= k < |f| && k != i ensures f[k] == 0.0 {
        if f[k] != 0.0 {
          assert f[k] > 0.0;
          SumPair(f, i, k);
        }
      }
      SumOnlyOne(f, i);
    }
  }

  /** Two positive-or-one entries push a non-negative sum above one. */
  lemma {:induction false} SumPair(f: seq<real>, i: int, k: int)
    requires forall m :: 0 <= m < |f| ==> 0.0 <= f[m] <= 1.0
    requires 0 <= i < |f| && 0 <= k < |f| && i != k
    ensures Sum(f) >= f[i] + f[k]
  {
    var p := f[..|f| - 1];
    assert forall m :: 0 <= m < |p| ==> p[m] == f[m];
    SumNonNegative(p);
    if i < |f| - 1 && k < |f| - 1 {
      SumPair(p, i, k);
    } else if i < |f| - 1 {
      SumAtLeastElement(p, i);
    } else {
      SumAtLeastElement(p, k);
    }
  }

  /** The expansion `sum f^2 - 2c sum f + n c^2` of the squared deviations. */
  function Expanded(f: seq<real>, c: real): real
  {
    SumSquares(f) - 2.0 * c * Sum(f) + (|f| as real) * c * c
  }

  /** Sum of squared deviations from `c`, expanded. */
  lemma {:induction false} SquaredDeviations(f: seq<real>, c: real)
    ensures SumSquares(Deviations(f, c)) == Expanded(f, c)
  {
    if |f| > 0 {
      SquaredDeviations(f[..|f| - 1], c);
      DeviationsSplit(f, c);
      ExpandedStep(f, c);
    }
  }

  lemma DeviationsSplit(f: seq<real>, c: real)
    requires |f| > 0
    ensures SumSquares(Deviations(f, c))
         == SumSquares(Deviations(f[..|f| - 1], c)) + (f[|f| - 1] - c) * (f[|f| - 1] - c)
  {
    assert Deviations(f, c)[..|f| - 1] == Deviations(f[..|f| - 1], c);
  }

  /** One more value `x` adds `(x - c)^2` to the expansion. */
  lemma ExpandedStep(f: seq<real>, c: real)
    requires |f| > 0
    ensures Expanded(f, c) == Expanded(f[..|f| - 1], c) + (f[|f| - 1] - c) * (f[|f| - 1] - c)
  {
    var p, x := f[..|f| - 1], f[|f| - 1];
    ExpandStep(SumSquares(p), Sum(p), |p| as real, x, c);
  }

  /** The algebra of `ExpandedStep`. */
  lemma ExpandStep(a: real, b: real, m: real, x: real, c: real)
    ensures (a + x * x) - 2.0 * c * (b + x) + (m + 1.0) * c * c == (a - 2.0 * c * b + m * c * c) + (x - c) * (x - c)
  {
    assert (x - c) * (x - c) == x * x - 2.0 * c * x + c * c;
    assert 2.0 * c * (b + x) == 2.0 * c * b + 2.0 * c * x;
    assert (m + 1.0) * c * c == m * c * c + c * c;
  }

  function Deviations(f: seq<real>, c: real): (d: seq<real>)
    ensures |d| == |f| && forall k :: 0 <= k < |d| ==> d[k] == f[k] - c
  {
    seq(|f|, k requires 0 <= k < |f| => f[k] - c)
  }

  /** With `n` alleles whose frequencies sum to one, `H <= 1 - 1/n`. */
  lemma HeterozygosityAtMostUniform(f: seq<real>)
    requires |f| > 0 && Sum(f) == 1.0
    ensures H(f) <= 1.0 - 1.0 / (|f| as real)
  {
    var n := |f| as real;
    var c := 1.0 / n;
    SquaredDeviations(f, c);
    SumSquaresNonNegative(Deviations(f, c));
    assert n * c == 1.0;
    assert n * c * c == c;
  }

  /** Heterozygosity examples: three alleles, and a fixed allele. */
  lemma ExampleHeterozygosity()
    ensures H([0.5, 0.3, 0.2]) == 0.62
    ensures H([1.0]) == 0.0
  {
    assert [0.5, 0.3, 0.2][..2] == [0.5, 0.3];
    assert [0.5, 0.3][..1] == [0.5];
    assert [0.5][..0] == [];
    assert SumSquares([0.5]) == 0.25;
    assert SumSquares([0.5, 0.3]) == 0.34;
    assert SumSquares([0.5, 0.3, 0.2]) == 0.38;
    assert [1.0][..0] == [];
  }

  /** The running maximum frequency after the first loop, starting from 0. */
  function MaxFreq(a: seq<Allele>): real
  {
    if |a| == 0 then 0.0
    else if a[|a| - 1].freq > MaxFreq(a[..|a| - 1]) then a[|a| - 1].freq
    else MaxFreq(a[..|a| - 1])
  }

  /** The wild-type length after the first loop, starting from -1. */
  function WildLen(a: seq<Allele>): int
  {
    if |a| == 0 then -1
    else if a[|a| - 1].freq > MaxFreq(a[..|a| - 1]) then a[|a| - 1].len
    else WildLen(a[..|a| - 1])
  }

  /** `a[k]` has a positive frequency that is the greatest in `a`, and every
      earlier allele is strictly less frequent. */
  predicate IsFirstMax(a: seq<Allele>, k: int)
  {
    && 0 <= k < |a|
    && a[k].freq > 0.0
    && (forall j :: 0 <= j < |a| ==> a[j].freq <= a[k].freq)
    && (forall j :: 0 <= j < k ==> a[j].freq < a[k].freq)
  }

  /** The wild type is the length at the first index of the strictly-greatest
      positive frequency; with no positive frequency it stays -1 and the
      maximum stays 0. */
  lemma {:induction false} WildTypeCharacterised(a: seq<Allele>)
    ensures MaxFreq(a) >= 0.0
    ensures forall j :: 0 <= j < |a| ==> a[j].freq <= MaxFreq(a)
    ensures (forall j :: 0 <= j < |a| ==> a[j].freq <= 0.0) ==> MaxFreq(a) == 0.0 && WildLen(a) == -1
    ensures (exists j :: 0 <= j < |a| && a[j].freq > 0.0) ==>
      exists k :: IsFirstMax(a, k) && WildLen(a) == a[k].len && MaxFreq(a) == a[k].freq
  {
    if |a| > 0 {
      var p := a[..|a| - 1];
      var x := a[|a| - 1];
      WildTypeCharacterised(p);
      assert forall j :: 0 <= j < |p| ==> p[j] == a[j];
      if x.freq > MaxFreq(p) {
        assert IsFirstMax(a, |a| - 1);
      } else if exists j :: 0 <= j < |a| && a[j].freq > 0.0 {
        assert exists j :: 0 <= j < |p| && p[j].freq > 0.0;
        var k :| IsFirstMax(p, k) && WildLen(p) == p[k].len && MaxFreq(p) == p[k].freq;
        assert IsFirstMax(a, k);
      }
    }
  }

  /** The multiple test as written: every allele whose frequency equals the
      maximum is skipped, and any other allele a multiple of five bases from
      the wild type flags the locus. */
  predicate HasMultiple(a: seq<Allele>)
  {
    exists k :: 0 <= k < |a| && a[k].freq != MaxFreq(a) && (a[k].len - WildLen(a)) % Unit == 0
  }

  /** The first loop: the wild-type length and the maximum frequency. */
  method WildType(alleles: seq<Allele>) returns (wtLen: int, maxFreq: real)
    ensures wtLen == WildLen(alleles) && maxFreq == MaxFreq(alleles)
    ensures maxFreq >= 0.0 && forall j :: 0 <= j < |alleles| ==> alleles[j].freq <= maxFreq
    ensures wtLen == -1 <== forall j :: 0 <= j < |alleles| ==> alleles[j].freq <= 0.0
    ensures (exists j :: 0 <= j < |alleles| && alleles[j].freq > 0.0) ==>
      exists k :: IsFirstMax(alleles, k) && wtLen == alleles[k].len && maxFreq == alleles[k].freq
  {
    wtLen := -1;
    maxFreq := 0.0;
    var k := 0;
    while k < |alleles|
      invariant 0 <= k <= |alleles|
      invariant wtLen == WildLen(alleles[..k]) && maxFreq == MaxFreq(alleles[..k])
    {
      assert alleles[..k + 1][..k] == alleles[..k];
      if alleles[k].freq > maxFreq {
        wtLen := alleles[k].len;
        maxFreq := alleles[k].freq;
      }
      k := k + 1;
    }
    assert alleles[..k] == alleles;
    WildTypeCharacterised(alleles);
  }

  /** Both loops of the period-5 test: the wild type, then the scan that
      skips every allele as frequent as the maximum and stops at the first
      one a multiple of five bases away.  Python's `%` and Dafny's agree on
      whether a difference is divisible by 5. */
  method RepeatMultiple(alleles: seq<Allele>) returns (hasMultiple: bool)
    ensures hasMultiple == HasMultiple(alleles)
  {
    var wtLen, maxFreq := WildType(alleles);
    hasMultiple := false;
    var k := 0;
    while k < |alleles|
      invariant 0 <= k <= |alleles|
      invariant !hasMultiple ==> forall j :: 0 <= j < k ==> !(alleles[j].freq != maxFreq && (alleles[j].len - wtLen) % Unit == 0)
      invariant hasMultiple ==> HasMultiple(alleles)
    {
      if alleles[k].freq == maxFreq {
        k := k + 1;
        continue;
      }
      if (alleles[k].len - wtLen) % Unit == 0 {
        hasMultiple := true;
        break;
      }
      k := k + 1;
    }
  }

  /** Lengths 15, 20, 25 with frequencies 0.6, 0.3, 0.1: the wild type is 15
      and 20 is one unit away, so the locus is flagged. */
  lemma ExampleMultiple()
    ensures WildLen([Allele(15, 0.6), Allele(20, 0.3), Allele(25, 0.1)]) == 15
    ensures HasMultiple([Allele(15, 0.6), Allele(20, 0.3), Allele(25, 0.1)])
  {
    var a := [Allele(15, 0.6), Allele(20, 0.3), Allele(25, 0.1)];
    assert a[..2] == [Allele(15, 0.6), Allele(20, 0.3)];
    assert a[..2][..1] == [Allele(15, 0.6)];
    assert a[..2][..1][..0] == [];
    assert MaxFreq(a[..2][..1]) == 0.6;
    assert MaxFreq(a[..2]) == 0.6;
    assert MaxFreq(a) == 0.6;
    assert a[1].freq != MaxFreq(a) && (a[1].len - WildLen(a)) % Unit == 0;
  }

  /** Two equally frequent alleles one unit apart: both equal the maximum,
      both are skipped, and the locus is not flagged. */
  lemma ExampleTieSkipped()
    ensures WildLen([Allele(15, 0.5), Allele(20, 0.5)]) == 15
    ensures !HasMultiple([Allele(15, 0.5), Allele(20, 0.5)])
  {
    var a := [Allele(15, 0.5), Allele(20, 0.5)];
    assert a[..1] == [Allele(15, 0.5)];
    assert a[..1][..0] == [];
    assert MaxFreq(a) == 0.5;
  }
}
