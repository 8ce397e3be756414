/** The cycle arithmetic of the request breakdown and of the reported statistics, on 64-bit unsigned words. */
module Timing {
  import opened Division
  import opened Words

  /** A loop bound: `int` in the program, and positive wherever it divides. */
  type Count = n: int | 0 < n < 0x8000_0000 witness 1

  function Sum(s: seq<int>): int {
    if s == [] then 0 else Sum(s[..|s| - 1]) + s[|s| - 1]
  }

  /** A 64-bit register keeps a value modulo 2^64. */
  function Wrap(x: int): Word {
    x % TWO64
  }

  lemma SumOfNothing()
    ensures Wrap(Sum([])) == 0
  {
  }

  /** The sum of one number, and of two lists: there is no other sum. */
  lemma {:induction false} SumOfBoth(s: seq<int>, t: seq<int>, x: int)
    ensures Sum([x]) == x
    ensures Sum(s + t) == Sum(s) + Sum(t)
  {
    assert [x][..0] == [];
    if t == [] {
      assert s + t == s;
    } else {
      var n := |t| - 1;
      SumOfBoth(s, t[..n], x);
      assert (s + t)[..|s + t| - 1] == s + t[..n];
    }
  }

  lemma SumExtends(s: seq<int>, k: nat)
    requires k < |s|
    ensures Sum(s[..k + 1]) == Sum(s[..k]) + s[k]
  {
    assert s[..k + 1][..k] == s[..k];
  }

  lemma WrapAgain(x: int, k: int)
    ensures Wrap(x + TWO64 * k) == Wrap(x)
  {
  }

  lemma WrapWord(x: Word)
    ensures Wrap(x) == x
  {
  }

  /** Wrapping early is as good as wrapping late. */
  lemma WrapSum(a: int, b: int, c: int, d: int)
    requires Wrap(a) == Wrap(b) && Wrap(c) == Wrap(d)
    ensures Wrap(a + c) == Wrap(b + d)
  {
    var i, j := a / TWO64 - b / TWO64, c / TWO64 - d / TWO64;
    assert a + c == b + d + TWO64 * (i + j);
    WrapAgain(b + d, i + j);
  }

  // ----- division -----

  lemma MulMonotone(n: nat, a: int, b: int)
    ensures a <= b ==> n * a <= n * b
  {
    if a <= b {
      assert n * b - n * a == n * (b - a);
    }
  }

  lemma QuotientAtLeast(x: nat, n: Count, q: nat)
    requires n * q <= x
    ensures q <= x / n
  {
    DivMod(x, n);
    assert n * (x / n + 1) == n * (x / n) + n;
    MulMonotone(n, x / n + 1, q);
  }

  lemma QuotientBelow(x: nat, n: Count, q: nat)
    requires x < n * q
    ensures x / n < q
  {
    DivMod(x, n);
    MulMonotone(n, q, x / n);
  }

  // ----- the arrays of stamps -----

  function Elapsed(before: Word, after: Word): int {
    (after as int) - (before as int)
  }

  /** gen_diff_array: cell by cell the second array minus the first, modulo 2^64; the arrays may even be the same. */
  method GenDiffArray(dst: array<Word>, first: array<Word>, second: array<Word>, size: nat)
    requires size <= dst.Length && size <= first.Length && size <= second.Length
    modifies dst
    ensures forall i :: 0 <= i < size ==> dst[i] == Wrap(Elapsed(old(first[i]), old(second[i])))
    ensures forall i :: size <= i < dst.Length ==> dst[i] == old(dst[i])
  {
    for i := 0 to size
      invariant forall k :: 0 <= k < i ==> dst[k] == Wrap(Elapsed(old(first[k]), old(second[k])))
      invariant forall k :: i <= k < dst.Length ==> dst[k] == old(dst[k])
      invariant forall k :: i <= k < first.Length ==> first[k] == old(first[k])
      invariant forall k :: i <= k < second.Length ==> second[k] == old(second[k])
    {
      dst[i] := Wrap(Elapsed(first[i], second[i]));
    }
  }

  /** What the summing loop holds when it ends: sample 0 is skipped, and the accumulator wraps. */
  function Accumulated(s: seq<int>): Word {
    if s == [] then 0 else Wrap(Sum(s[1..]))
  }

  /** do_sum_array: samples 1 to iter - 1 added up modulo 2^64, and then divided by iter, not iter - 1. */
  method DoSumArray(values: array<Word>, iter: Count) returns (accum: Word)
    requires iter <= values.Length
    ensures accum == Wrap(Sum(values[1..iter])) / iter == Accumulated(values[..iter]) / iter
  {
    hide Wrap, Sum;
    ghost var samples: seq<int> := values[..iter][1..];
    accum := 0;
    SumOfNothing();
    for i := 1 to iter
      invariant accum == Wrap(Sum(samples[..i - 1]))
    {
      SumExtends(samples, i - 1);
      WrapWord(accum);
      WrapSum(accum, Sum(samples[..i - 1]), values[i], values[i]);
      accum := Wrap(accum + values[i]);
    }
    assert samples[..iter - 1] == samples == values[1..iter];
    accum := accum / iter;
  }

  /** The true time between two stamps of each sample. */
  function Spans(before: seq<Word>, after: seq<Word>): (spans: seq<int>)
    requires |before| == |after|
    ensures |spans| == |before| && forall i :: 0 <= i < |spans| ==> spans[i] == (after[i] as int) - before[i]
  {
    seq(|before|, i requires 0 <= i < |before| => Elapsed(before[i], after[i]))
  }

  /** The average that avg_samples_from_arrays reports for two arrays of stamps. */
  function Average(before: seq<Word>, after: seq<Word>): Word
    requires 0 < |before| == |after|
  {
    Accumulated(Spans(before, after)) / |before|
  }

  /** Subtracting modulo 2^64 before summing modulo 2^64 loses nothing. */
  lemma {:induction false} WrappedSpans(spans: seq<int>, wrapped: seq<int>)
    requires |wrapped| == |spans| && forall i :: 0 <= i < |spans| ==> wrapped[i] == Wrap(spans[i])
    ensures Wrap(Sum(wrapped)) == Wrap(Sum(spans))
  {
    if spans == [] {
    } else {
      var n := |spans| - 1;
      WrappedSpans(spans[..n], wrapped[..n]);
      WrapWord(wrapped[n]);
      WrapSum(Sum(wrapped[..n]), Sum(spans[..n]), wrapped[n], spans[n]);
    }
  }

  /** avg_samples_from_arrays: its last step divides once more but drops the quotient. */
  method AvgSamplesFromArrays(diff: array<Word>, after: array<Word>, before: array<Word>, samples: Count)
    returns (avg: Word)
    requires samples <= diff.Length && samples <= after.Length && samples <= before.Length
    requires diff != after && diff != before
    modifies diff
    ensures avg == Average(before[..samples], after[..samples])
    ensures forall i :: samples <= i < diff.Length ==> diff[i] == old(diff[i])
  {
    GenDiffArray(diff, before, after, samples);
    avg := DoSumArray(diff, samples);
    ghost var spans := Spans(before[..samples], after[..samples]);
    WrappedSpans(spans[1..], diff[..samples][1..]);
    var _ := avg / samples;
  }

  // ----- the four phases of a request -----

  ghost predicate Ordered(before: seq<Word>, after: seq<Word>) {
    |before| == |after| && forall i :: 1 <= i < |before| ==> before[i] <= after[i]
  }

  /** The stamps of a run: five arrays, in the order in which a request takes them. */
  datatype Stamps = Stamps(ts0: seq<Word>, ts1: seq<Word>, ts2: seq<Word>, ts3: seq<Word>, ts4: seq<Word>)
  {
    ghost predicate Valid() {
      0 < |ts0| < 0x8000_0000 && |ts0| == |ts1| == |ts2| == |ts3| == |ts4|
    }
  }

  function PhaseSum(s: Stamps): int
    requires s.Valid()
  {
    Accumulated(Spans(s.ts0, s.ts1)) + Accumulated(Spans(s.ts1, s.ts2))
    + Accumulated(Spans(s.ts2, s.ts3)) + Accumulated(Spans(s.ts3, s.ts4))
  }

  function PhaseAverages(s: Stamps): int
    requires s.Valid()
  {
    Average(s.ts0, s.ts1) + Average(s.ts1, s.ts2) + Average(s.ts2, s.ts3) + Average(s.ts3, s.ts4)
  }

  lemma {:induction false} SpansAddUp(s: seq<int>, a: seq<int>, b: seq<int>)
    requires |s| == |a| == |b| && forall i :: 0 <= i < |s| ==> s[i] == a[i] + b[i]
    ensures Sum(s) == Sum(a) + Sum(b)
  {
    if s == [] {
    } else {
      var n := |s| - 1;
      SpansAddUp(s[..n], a[..n], b[..n]);
    }
  }

  lemma ConsecutiveSpans(x: seq<Word>, y: seq<Word>, z: seq<Word>)
    requires 0 < |x| == |y| == |z|
    ensures Sum(Spans(x, z)[1..]) == Sum(Spans(x, y)[1..]) + Sum(Spans(y, z)[1..])
  {
    SpansAddUp(Spans(x, z)[1..], Spans(x, y)[1..], Spans(y, z)[1..]);
  }

  /** The four accumulators agree with the end-to-end one modulo 2^64, so they exceed it by whole multiples of 2^64. */
  lemma PhaseSumModulo(s: Stamps) returns (k: int)
    requires s.Valid()
    ensures 0 <= k && PhaseSum(s) == Accumulated(Spans(s.ts0, s.ts4)) + TWO64 * k
  {
    var a, b := Sum(Spans(s.ts0, s.ts1)[1..]), Sum(Spans(s.ts1, s.ts2)[1..]);
    var c, d := Sum(Spans(s.ts2, s.ts3)[1..]), Sum(Spans(s.ts3, s.ts4)[1..]);
    var total := Sum(Spans(s.ts0, s.ts4)[1..]);
    ConsecutiveSpans(s.ts0, s.ts1, s.ts4);
    ConsecutiveSpans(s.ts1, s.ts2, s.ts4);
    ConsecutiveSpans(s.ts2, s.ts3, s.ts4);
    assert total == a + b + c + d;
    k := total / TWO64 - a / TWO64 - b / TWO64 - c / TWO64 - d / TWO64;
    assert PhaseSum(s) == total % TWO64 + TWO64 * k;
    assert 0 <= PhaseSum(s);
  }

  lemma FourMultiples(n: nat, p: nat, q: nat, r: nat, s: nat)
    ensures n * (p + q + r + s) == n * p + n * q + n * r + n * s
  {
  }

  /** Rounding down four quotients loses less than four. */
  lemma QuotientsBySum(a: nat, b: nat, c: nat, d: nat, n: Count)
    ensures a / n + b / n + c / n + d / n <= (a + b + c + d) / n <= a / n + b / n + c / n + d / n + 3
  {
    DivMod(a, n);
    DivMod(b, n);
    DivMod(c, n);
    DivMod(d, n);
    FourMultiples(n, a / n, b / n, c / n, d / n);
    var q := a / n + b / n + c / n + d / n;
    assert n * (q + 4) == n * q + 4 * n;
    QuotientAtLeast(a + b + c + d, n, q);
    QuotientBelow(a + b + c + d, n, q + 4);
  }

  /** Dividing by a loop bound keeps what lies 2^64 apart at least 2^33 apart. */
  lemma FarApart(x: nat, y: nat, n: Count)
    requires x + TWO64 <= y
    ensures x / n + 4 < y / n
  {
    DivMod(x, n);
    assert n * (x / n + 5) == n * (x / n) + 5 * n;
    QuotientAtLeast(y, n, x / n + 5);
  }

  /**
   The averages of the four phases account for the end-to-end average, up to 3 cycles of rounding, exactly when the
   four accumulators together stay below 2^64.
   */
  lemma PhasesAccountForTheWhole(s: Stamps)
    requires s.Valid()
    ensures PhaseAverages(s) <= Average(s.ts0, s.ts4) <= PhaseAverages(s) + 3 <==> PhaseSum(s) < TWO64
  {
    var n: Count := |s.ts0|;
    var a, b := Accumulated(Spans(s.ts0, s.ts1)), Accumulated(Spans(s.ts1, s.ts2));
    var c, d := Accumulated(Spans(s.ts2, s.ts3)), Accumulated(Spans(s.ts3, s.ts4));
    var whole := Accumulated(Spans(s.ts0, s.ts4));
    var k := PhaseSumModulo(s);
    QuotientsBySum(a, b, c, d, n);
    if PhaseSum(s) < TWO64 {
      assert k == 0;
    } else {
      assert k >= 1;
      FarApart(whole, PhaseSum(s), n);
    }
  }

  lemma {:induction false} SumBetween(s: seq<int>, low: int, high: int)
    requires forall i :: 0 <= i < |s| ==> low <= s[i] <= high
    ensures low * |s| <= Sum(s) <= high * |s|
  {
    if s == [] {
    } else {
      var n := |s| - 1;
      SumBetween(s[..n], low, high);
      assert low * |s| == low * n + low && high * |s| == high * n + high;
    }
  }

  lemma NeverNegative(before: seq<Word>, after: seq<Word>)
    requires Ordered(before, after) && before != []
    ensures Sum(Spans(before, after)[1..]) >= 0
  {
    SumBetween(Spans(before, after)[1..], 0, TWO64);
  }

  lemma SmallSumIsExact(before: seq<Word>, after: seq<Word>)
    requires 0 < |before| == |after| && 0 <= Sum(Spans(before, after)[1..]) < TWO64
    ensures Accumulated(Spans(before, after)) == Sum(Spans(before, after)[1..])
  {
    WrapWord(Sum(Spans(before, after)[1..]));
  }

  /** Clocks that never step back within a sample, and a true total that fits a word, are all it takes. */
  lemma OrderedStampsSuffice(s: Stamps)
    requires s.Valid()
    requires Ordered(s.ts0, s.ts1) && Ordered(s.ts1, s.ts2) && Ordered(s.ts2, s.ts3) && Ordered(s.ts3, s.ts4)
    requires Sum(Spans(s.ts0, s.ts4)[1..]) < TWO64
    ensures PhaseSum(s) == Sum(Spans(s.ts0, s.ts4)[1..]) == Accumulated(Spans(s.ts0, s.ts4))
  {
    hide Spans, Accumulated, Sum, Ordered, Elapsed;
    ConsecutiveSpans(s.ts0, s.ts1, s.ts4);
    ConsecutiveSpans(s.ts1, s.ts2, s.ts4);
    ConsecutiveSpans(s.ts2, s.ts3, s.ts4);
    NeverNegative(s.ts0, s.ts1);
    NeverNegative(s.ts1, s.ts2);
    NeverNegative(s.ts2, s.ts3);
    NeverNegative(s.ts3, s.ts4);
    SmallSumIsExact(s.ts0, s.ts1);
    SmallSumIsExact(s.ts1, s.ts2);
    SmallSumIsExact(s.ts2, s.ts3);
    SmallSumIsExact(s.ts3, s.ts4);
    SmallSumIsExact(s.ts0, s.ts4);
  }

  lemma {:induction false} SumAtMost(s: seq<int>, high: int)
    requires forall i :: 0 <= i < |s| ==> s[i] <= high
    ensures Sum(s) <= high * |s|
  {
    if s == [] {
    } else {
      var n := |s| - 1;
      SumAtMost(s[..n], high);
      assert high * |s| == high * n + high;
    }
  }

  lemma ShortSpans(before: seq<Word>, after: seq<Word>)
    requires 0 < |before| == |after| < 0x8000_0000
    requires forall i :: 1 <= i < |before| ==> Elapsed(before[i], after[i]) < 0x2_0000_0000
    ensures Sum(Spans(before, after)[1..]) < TWO64
  {
    var spans := Spans(before, after)[1..];
    SumAtMost(spans, 0x2_0000_0000);
    assert 0x2_0000_0000 * |spans| <= 0x2_0000_0000 * 0x8000_0000;
  }

  /**
   Stamps that are ordered within each sample, and samples of less than 2^33 cycles, about four seconds, always satisfy
   the condition: the phases then account for the whole.
   */
  lemma ShortSamplesSuffice(s: Stamps)
    requires s.Valid()
    requires Ordered(s.ts0, s.ts1) && Ordered(s.ts1, s.ts2) && Ordered(s.ts2, s.ts3) && Ordered(s.ts3, s.ts4)
    requires forall i :: 1 <= i < |s.ts0| ==> Elapsed(s.ts0[i], s.ts4[i]) < 0x2_0000_0000
    ensures PhaseSum(s) < TWO64
    ensures PhaseAverages(s) <= Average(s.ts0, s.ts4) <= PhaseAverages(s) + 3
  {
    hide Accumulated, Sum, Average, PhaseSum, PhaseAverages;
    ShortSpans(s.ts0, s.ts4);
    OrderedStampsSuffice(s);
    PhasesAccountForTheWhole(s);
  }

  lemma ThreeSamples(s: seq<int>)
    requires |s| == 3
    ensures Accumulated(s) == Wrap(s[1] + s[2])
  {
    var t := s[1..];
    assert Sum(t[..1][..0]) == 0 && Sum(t[..1]) == s[1];
  }

  /** The condition is needed even for ordered stamps: two samples of 2^63 cycles in different phases cancel out. */
  lemma LongSamplesBreakTheBreakdown() returns (s: Stamps)
    ensures s.Valid()
    ensures Ordered(s.ts0, s.ts1) && Ordered(s.ts1, s.ts2) && Ordered(s.ts2, s.ts3) && Ordered(s.ts3, s.ts4)
    ensures Average(s.ts0, s.ts4) == 0 && PhaseAverages(s) == 2 * (TWO64 / 6)
  {
    var half: Word := TWO64 / 2;
    s := Stamps([0, 0, 0], [0, half, 0], [0, half, half], [0, half, half], [0, half, half]);
    ThreeSamples(Spans(s.ts0, s.ts1));
    ThreeSamples(Spans(s.ts1, s.ts2));
    ThreeSamples(Spans(s.ts2, s.ts3));
    ThreeSamples(Spans(s.ts3, s.ts4));
    ThreeSamples(Spans(s.ts0, s.ts4));
  }

  /** The end of the breakdown executors: the four averages, from one scratch array of differences. */
  method RequestBreakdown(ts0: array<Word>, ts1: array<Word>, ts2: array<Word>, ts3: array<Word>, ts4: array<Word>,
                          totalRequests: Count)
    returns (preProc: Word, offloadTax: Word, axFunc: Word, postProc: Word)
    requires totalRequests == ts0.Length == ts1.Length == ts2.Length == ts3.Length == ts4.Length
    ensures var stamps := Stamps(ts0[..], ts1[..], ts2[..], ts3[..], ts4[..]);
            var whole := Average(stamps.ts0, stamps.ts4);
            var parts := preProc + offloadTax + axFunc + postProc;
            parts <= whole <= parts + 3 <==> PhaseSum(stamps) < TWO64
    ensures preProc == Average(ts0[..], ts1[..]) && offloadTax == Average(ts1[..], ts2[..])
    ensures axFunc == Average(ts2[..], ts3[..]) && postProc == Average(ts3[..], ts4[..])
  {
    hide Average, PhaseSum;
    var diff := new Word[totalRequests];
    preProc := AvgSamplesFromArrays(diff, ts1, ts0, totalRequests);
    offloadTax := AvgSamplesFromArrays(diff, ts2, ts1, totalRequests);
    axFunc := AvgSamplesFromArrays(diff, ts3, ts2, totalRequests);
    postProc := AvgSamplesFromArrays(diff, ts4, ts3, totalRequests);
    assert ts0[..totalRequests] == ts0[..] && ts1[..totalRequests] == ts1[..] && ts2[..totalRequests] == ts2[..];
    assert ts3[..totalRequests] == ts3[..] && ts4[..totalRequests] == ts4[..];
    PhasesAccountForTheWhole(Stamps(ts0[..], ts1[..], ts2[..], ts3[..], ts4[..]));
  }

  // ----- mean and deviation -----

  /** avg_from_array */
  method AvgFromArray(values: array<Word>, size: Count) returns (average: Word)
    requires size <= values.Length
    ensures average == Wrap(Sum(values[..size])) / size
  {
    hide Wrap, Sum;
    ghost var samples: seq<int> := values[..size];
    var sum: Word := 0;
    SumOfNothing();
    for i := 0 to size
      invariant sum == Wrap(Sum(samples[..i]))
    {
      SumExtends(samples, i);
      WrapWord(sum);
      WrapSum(sum, Sum(samples[..i]), values[i], values[i]);
      sum := Wrap(sum + values[i]);
    }
    assert samples[..size] == samples;
    average := sum / size;
  }

  /** It is the mean of the samples, rounded down, exactly when their true sum fits a word. */
  lemma AverageIsTheMean(samples: seq<Word>, size: Count)
    requires size == |samples|
    ensures Wrap(Sum(samples)) / size == Sum(samples) / size <==> Sum(samples) < TWO64
  {
    SumBetween(samples, 0, TWO64);
    var sum: nat := Sum(samples);
    if sum >= TWO64 {
      assert Wrap(sum) + TWO64 <= sum;
      FarApart(Wrap(sum), sum, size);
    }
  }

  function Squares(samples: seq<int>, centre: int): (squares: seq<int>)
    ensures |squares| == |samples|
    ensures forall i :: 0 <= i < |squares| ==> squares[i] == (samples[i] - centre) * (samples[i] - centre)
  {
    seq(|samples|, i requires 0 <= i < |samples| => (samples[i] - centre) * (samples[i] - centre))
  }

  lemma SquareOfDifference(x: int, centre: int)
    ensures (x - centre) * (x - centre) == x * x - 2 * centre * x + centre * centre
  {
  }

  lemma OneMoreSample(sum: int, x: int, n: int, centre: int)
    ensures 2 * centre * (sum + x) == 2 * centre * sum + 2 * centre * x
    ensures (n + 1) * (centre * centre) == n * (centre * centre) + centre * centre
  {
  }

  /** The squared deviations from any centre, by the sums of the samples and of their squares. */
  lemma {:induction false} SquaresAddUp(samples: seq<int>, squared: seq<int>, centre: int)
    requires |squared| == |samples| && forall i :: 0 <= i < |samples| ==> squared[i] == samples[i] * samples[i]
    ensures Sum(Squares(samples, centre)) ==
              Sum(squared) - 2 * centre * Sum(samples) + |samples| * (centre * centre)
  {
    if samples == [] {
    } else {
      var n := |samples| - 1;
      SquaresAddUp(samples[..n], squared[..n], centre);
      assert Squares(samples, centre)[..n] == Squares(samples[..n], centre);
      SquareOfDifference(samples[n], centre);
      OneMoreSample(Sum(samples[..n]), samples[n], n, centre);
    }
  }

  /** Equal samples do not deviate from their mean. */
  lemma {:induction false} EqualSamples(samples: seq<int>, x: int)
    requires forall i :: 0 <= i < |samples| ==> samples[i] == x
    ensures Sum(samples) == |samples| * x && Sum(Squares(samples, x)) == 0
  {
    if samples == [] {
    } else {
      var n := |samples| - 1;
      EqualSamples(samples[..n], x);
      assert Squares(samples, x)[..n] == Squares(samples[..n], x);
      assert (n + 1) * x == n * x + x;
    }
  }

  /** Samples that are all equal have no variance, if their sum fits a word. */
  lemma NoVariance(samples: seq<Word>, size: Count)
    requires size == |samples| && forall i :: 0 <= i < size ==> samples[i] == samples[0]
    requires Sum(samples) < TWO64
    ensures Sum(Squares(samples, Wrap(Sum(samples)) / size)) == 0
  {
    hide Sum, Wrap, Squares;
    var x := samples[0];
    EqualSamples(samples, x);
    WrapWord(size * x);
    DivisionIsUnique(size * x, size, x, 0);
  }

  /** The square of a wrapped difference is the square of the true difference modulo 2^64. */
  lemma WrappedSquare(x: int)
    ensures Wrap(Wrap(x) * Wrap(x)) == Wrap(x * x)
  {
    var q, r := x / TWO64, x % TWO64;
    assert x == TWO64 * q + r;
    assert x * x == r * r + TWO64 * (q * (x + r)) by {
      assert x * x - r * r == (x - r) * (x + r);
      assert (x - r) * (x + r) == TWO64 * q * (x + r) == TWO64 * (q * (x + r));
    }
    WrapAgain(r * r, q * (x + r));
  }

  /** stddev_from_array up to its square root: the true sum of the squared deviations, modulo 2^64, over the size. */
  method VarianceFromArray(values: array<Word>, size: Count) returns (variance: Word)
    requires size <= values.Length
    ensures var mean := Wrap(Sum(values[..size])) / size;
            variance == Wrap(Sum(Squares(values[..size], mean))) / size
    ensures (forall i :: 0 <= i < size ==> values[i] == values[0]) && Sum(values[..size]) < TWO64 ==> variance == 0
  {
    hide Wrap, Sum;
    var avg := AvgFromArray(values, size);
    ghost var squares := Squares(values[..size], avg);
    var sum: Word := 0;
    SumOfNothing();
    for i := 0 to size
      invariant sum == Wrap(Sum(squares[..i]))
    {
      SumExtends(squares, i);
      WrappedSquare(Elapsed(avg, values[i]));
      var deviation: Word := Wrap(Elapsed(avg, values[i]));
      WrapWord(sum);
      WrapSum(sum, Sum(squares[..i]), deviation * deviation, squares[i]);
      sum := Wrap(sum + deviation * deviation);
    }
    assert squares[..size] == squares;
    variance := sum / size;
    if (forall i :: 0 <= i < size ==> values[i] == values[0]) && Sum(values[..size]) < TWO64 {
      NoVariance(values[..size], size);
      WrapWord(0);
    }
  }
}
