/**
 Sampled runs: the executor stamps the clock after every so many completed requests, and turns neighbouring stamps into
 execution times.
 */
module Sampling {
  import opened Division
  import opened Words
  import opened Timing

  /** What one turn of the executor's loop sees: the oldest request's record, and the clock after its resumption. */
  datatype Poll = Poll(completed: bool, clock: Word)

  /** The clock at every completion, in order. */
  function Completions(polls: seq<Poll>): seq<Word> {
    if polls == [] then []
    else
      var earlier, last := Completions(polls[..|polls| - 1]), polls[|polls| - 1];
      if last.completed then earlier + [last.clock] else earlier
  }

  /** One poll, and polls one after the other: there is no other list of completions. */
  lemma {:induction false} CompletionsOfBoth(earlier: seq<Poll>, later: seq<Poll>, p: Poll)
    ensures Completions([p]) == if p.completed then [p.clock] else []
    ensures Completions(earlier + later) == Completions(earlier) + Completions(later)
  {
    assert [p][..0] == [];
    if later == [] {
      assert earlier + later == earlier;
    } else {
      var n := |later| - 1;
      CompletionsOfBoth(earlier, later[..n], p);
      assert (earlier + later)[..|earlier + later| - 1] == earlier + later[..n];
    }
  }

  lemma {:induction false} CompletionsOfPrefix(polls: seq<Poll>, k: nat)
    requires k <= |polls|
    ensures Completions(polls[..k]) <= Completions(polls)
  {
    if k < |polls| {
      CompletionsOfPrefix(polls[..|polls| - 1], k);
      assert polls[..|polls| - 1][..k] == polls[..k];
    } else {
      assert polls[..k] == polls;
    }
  }

  /** The number of windows a run reports. */
  function Windows(total: nat, interval: nat): nat
    requires interval > 0
  {
    total / interval
  }

  /** Stamp 0 is the start; stamp k is the clock at completion number k * interval. */
  function Stamp(start: Word, clocks: seq<Word>, interval: nat, k: nat): Word
    requires k > 0 ==> 0 < k * interval <= |clocks|
  {
    if k == 0 then start else clocks[k * interval - 1]
  }

  ghost predicate Stamped(times: seq<Word>, slots: nat, interval: nat, start: Word, clocks: seq<Word>) {
    && slots <= |times|
    && forall k :: 0 <= k < slots ==>
         (k > 0 ==> 0 < k * interval <= |clocks|) && times[k] == Stamp(start, clocks, interval, k)
  }

  /** The difference of neighbouring stamps. */
  function WindowTime(times: seq<Word>, k: nat): Word
    requires k + 1 < |times|
  {
    Wrap(Elapsed(times[k], times[k + 1]))
  }

  lemma SlotBound(completed: nat, total: nat, interval: nat)
    requires interval > 0 && completed <= total
    ensures completed / interval <= Windows(total, interval)
  {
    var q := completed / interval;
    DivMod(total, interval);
    DivMod(completed, interval);
    if q > total / interval {
      MulMonotone(interval, total / interval + 1, q);
    }
  }

  /** One more completion enters a new window exactly when it completes a whole one. */
  lemma NextQuotient(c: nat, n: nat)
    requires n > 0
    ensures (c + 1) / n == if (c + 1) % n == 0 then c / n + 1 else c / n
    ensures (c + 1) % n == 0 ==> (c / n + 1) * n == c + 1
  {
    DivMod(c, n);
    DivMod(c + 1, n);
    var q, p := c / n, (c + 1) / n;
    assert n * (q + 1) == n * q + n && n * (q + 2) == n * q + 2 * n;
    MulMonotone(n, p + 1, q);
    MulMonotone(n, q + 2, p);
    MulMonotone(n, q + 1, p);
  }

  /** Execution time k of a run, from the completions alone. */
  function ReportedTime(start: Word, clocks: seq<Word>, interval: nat, k: nat): Word
    requires interval > 0 && (k + 1) * interval <= |clocks|
  {
    MulMonotone(interval, k, k + 1);
    MulMonotone(interval, 1, k + 1);
    assert k > 0 ==> k * interval > 0 by { MulMonotone(interval, 1, k); }
    Wrap(Elapsed(Stamp(start, clocks, interval, k), Stamp(start, clocks, interval, k + 1)))
  }

  lemma StampedMore(times: seq<Word>, slots: nat, interval: nat, start: Word, clocks: seq<Word>, more: seq<Word>)
    requires Stamped(times, slots, interval, start, clocks) && clocks <= more
    ensures Stamped(times, slots, interval, start, more)
  {
  }

  lemma StampOne(times: seq<Word>, slots: nat, interval: nat, start: Word, clocks: seq<Word>, clock: Word)
    requires Stamped(times, slots, interval, start, clocks + [clock])
    requires 0 < slots < |times| && slots * interval == |clocks| + 1
    ensures Stamped(times[slots := clock], slots + 1, interval, start, clocks + [clock])
  {
  }

  lemma WindowTimeIs(times: seq<Word>, k: nat)
    requires k + 1 < |times|
    ensures WindowTime(times, k) == Wrap(Elapsed(times[k], times[k + 1]))
  {
  }

  /** Every slot in use holds its own stamp. */
  lemma StampsAre(times: seq<Word>, interval: nat, start: Word, clocks: seq<Word>)
    requires Stamped(times, |times|, interval, start, clocks)
    ensures forall k :: 0 <= k < |times| ==>
              (k > 0 ==> 0 < k * interval <= |clocks|)
              && times[k] == if k == 0 then start else clocks[k * interval - 1]
  {
  }

  lemma FirstStamp(times: seq<Word>, interval: nat, start: Word)
    requires times != [] && times[0] == start
    ensures Completions([]) == [] && Stamped(times, 1, interval, start, [])
  {
  }

  lemma OnePoll(polls: seq<Poll>, next: nat)
    requires next < |polls|
    ensures Completions(polls[..next + 1]) ==
              if polls[next].completed then Completions(polls[..next]) + [polls[next].clock]
              else Completions(polls[..next])
  {
    assert polls[..next + 1][..next] == polls[..next];
  }

  /**
   execute_yielding_requests_closed_system_with_sampling, driven by what its polls see. The stamp index stays inside the
   array its caller sized; once every request has completed, all slots are filled, each with the clock at its own
   completion, and exactly the reported windows are written.
   */
  method ExecuteWithSampling(interval: nat, total: nat, times: array<Word>, start: Word, polls: seq<Poll>,
                             exetime: array<Word>, idx: nat)
    returns (finished: bool)
    requires interval > 0 && times.Length == Windows(total, interval) + 1
    requires idx + Windows(total, interval) <= exetime.Length && times != exetime
    modifies times, exetime
    ensures finished <==> |Completions(polls)| >= total
    ensures finished ==> Stamped(times[..], times.Length, interval, start, Completions(polls))
    ensures finished ==>
              forall k :: 0 <= k < times.Length ==>
                (k > 0 ==> 0 < k * interval <= |Completions(polls)|)
                && times[k] == if k == 0 then start else Completions(polls)[k * interval - 1]
    ensures finished ==>
              forall k :: 0 <= k < total / interval ==>
                exetime[idx + k] == WindowTime(times[..], k) == ((times[k + 1] as int) - times[k]) % TWO64
    ensures forall c :: 0 <= c < exetime.Length && !(finished && idx <= c < idx + Windows(total, interval)) ==>
                          exetime[c] == old(exetime[c])
  {
    hide WindowTime, Stamped, Completions;
    var requestsCompleted, nextUnstarted := 0, 0;
    var slot := 0;
    times[slot] := start;
    slot := slot + 1;
    var next := 0;
    FirstStamp(times[..], interval, start);
    while requestsCompleted < total && next < |polls|
      invariant 0 <= next <= |polls| && requestsCompleted == |Completions(polls[..next])| <= total
      invariant slot == requestsCompleted / interval + 1
      invariant Stamped(times[..], slot, interval, start, Completions(polls[..next]))
      invariant exetime[..] == old(exetime[..])
      decreases |polls| - next
    {
      ghost var clocks := Completions(polls[..next]);
      OnePoll(polls, next);
      if polls[next].completed {
        NextQuotient(requestsCompleted, interval);
        SlotBound(requestsCompleted + 1, total, interval);
        StampedMore(times[..], slot, interval, start, clocks, clocks + [polls[next].clock]);
        requestsCompleted := requestsCompleted + 1;
        if requestsCompleted % interval == 0 && requestsCompleted > 0 {
          ghost var stamps := times[..];
          StampOne(stamps, slot, interval, start, clocks, polls[next].clock);
          times[slot] := polls[next].clock;
          assert times[..] == stamps[slot := polls[next].clock];
          slot := slot + 1;
        }
      } else if nextUnstarted < total {
        nextUnstarted := nextUnstarted + 1;
      }
      next := next + 1;
    }
    CompletionsOfPrefix(polls, next);
    finished := requestsCompleted == total;
    if !finished {
      assert polls[..next] == polls;
      return;
    }
    StampedMore(times[..], slot, interval, start, Completions(polls[..next]), Completions(polls));
    ghost var stamps := times[..];
    for i := 0 to total / interval
      invariant times[..] == stamps
      invariant forall k :: 0 <= k < i ==> exetime[idx + k] == WindowTime(stamps, k)
      invariant forall c :: 0 <= c < exetime.Length && !(idx <= c < idx + i) ==> exetime[c] == old(exetime[c])
    {
      WindowTimeIs(stamps, i);
      exetime[idx + i] := Wrap(Elapsed(times[i], times[i + 1]));
    }
    StampsAre(times[..], interval, start, Completions(polls));
    forall k | 0 <= k < total / interval
      ensures WindowTime(times[..], k) == ((times[k + 1] as int) - times[k]) % TWO64
    {
      WindowTimeIs(stamps, k);
    }
  }

  // ----- the windows of one run -----

  function WindowTimes(times: seq<Word>): (windows: seq<int>)
    requires times != []
    ensures |windows| == |times| - 1
  {
    seq(|times| - 1, k requires 0 <= k < |times| - 1 => WindowTime(times, k) as int)
  }

  /** The execution times telescope: together they are the last stamp minus the first, modulo 2^64. */
  lemma {:induction false} WindowsTelescope(times: seq<Word>)
    requires times != []
    ensures Wrap(Sum(WindowTimes(times))) == Wrap(Elapsed(times[0], times[|times| - 1]))
  {
    var n := |times| - 1;
    if n == 0 {
    } else {
      WindowsTelescope(times[..n]);
      var windows := WindowTimes(times);
      assert windows[..n - 1] == WindowTimes(times[..n]);
      assert Sum(windows) == Sum(windows[..n - 1]) + windows[n - 1];
      var step := Elapsed(times[n - 1], times[n]);
      WrapWord(WindowTime(times, n - 1));
      WrapSum(Sum(windows[..n - 1]), Elapsed(times[0], times[n - 1]), windows[n - 1], step);
    }
  }

  /** With a clock that never steps back nothing wraps, and the windows add up to the run exactly. */
  lemma {:induction false} OrderedWindowsAddUp(times: seq<Word>)
    requires times != [] && forall i :: 0 <= i < |times| - 1 ==> times[i] <= times[i + 1]
    ensures Sum(WindowTimes(times)) == Elapsed(times[0], times[|times| - 1]) >= 0
  {
    var n := |times| - 1;
    if n == 0 {
    } else {
      OrderedWindowsAddUp(times[..n]);
      var windows := WindowTimes(times);
      assert windows[..n - 1] == WindowTimes(times[..n]);
      assert times[n - 1] <= times[n - 1 + 1];
      WrapWord(times[n] - times[n - 1]);
    }
  }

  // ----- the windows of all runs -----

  /** Run `run` writes cell `c` of the result array. */
  predicate Writes(run: nat, c: nat, samples: nat, windows: nat) {
    run * samples <= c < run * samples + windows
  }

  ghost predicate Written(c: nat, iterations: nat, samples: nat, windows: nat) {
    exists run: nat :: run < iterations && Writes(run, c, samples, windows)
  }

  /** Every cell is written, by one run only, and nothing outside the array is. */
  ghost predicate Tiles(iterations: nat, samples: nat, windows: nat) {
    && (forall c: nat :: c < iterations * samples ==> Written(c, iterations, samples, windows))
    && (forall run: nat, c: nat :: run < iterations && Writes(run, c, samples, windows) ==> c < iterations * samples)
    && (forall r: nat, run: nat, c: nat ::
          r < run < iterations && Writes(r, c, samples, windows) ==> !Writes(run, c, samples, windows))
  }

  /** Rounding the stamping interval down can only add windows, and adds none exactly when the remainder is small. */
  lemma WindowsOfARun(total: nat, samples: nat)
    requires 0 < samples <= total
    ensures total / samples > 0 && Windows(total, total / samples) >= samples
    ensures Windows(total, total / samples) == samples <==> total % samples < total / samples
  {
    var interval, rest := total / samples, total % samples;
    DivMod(total, samples);
    if interval == 0 {
      assert false;
    }
    var windows := total / interval;
    DivMod(total, interval);
    assert interval * (windows + 1) == interval * windows + interval;
    assert interval * (samples + 1) == interval * samples + interval;
    assert samples * interval == interval * samples;
    MulMonotone(interval, windows + 1, samples);
    MulMonotone(interval, samples + 1, windows);
  }

  lemma CellIsWritten(iterations: nat, samples: nat, c: nat)
    requires samples > 0 && c < iterations * samples
    ensures Written(c, iterations, samples, samples)
  {
    var run := c / samples;
    DivMod(c, samples);
    MulMonotone(samples, iterations, run);
    assert Writes(run, c, samples, samples);
  }

  lemma CellIsInside(iterations: nat, samples: nat, run: nat, c: nat)
    requires run < iterations && Writes(run, c, samples, samples)
    ensures c < iterations * samples
  {
    MulMonotone(samples, run + 1, iterations);
  }

  lemma CellIsWrittenOnce(samples: nat, r: nat, run: nat, c: nat)
    requires r < run && Writes(r, c, samples, samples)
    ensures !Writes(run, c, samples, samples)
  {
    MulMonotone(samples, r + 1, run);
  }

  lemma TiledByEqualSlices(iterations: nat, samples: nat)
    requires samples > 0
    ensures Tiles(iterations, samples, samples)
  {
    hide Writes, Written;
    forall c: nat | c < iterations * samples
      ensures Written(c, iterations, samples, samples)
    {
      CellIsWritten(iterations, samples, c);
    }
    forall run: nat, c: nat | run < iterations && Writes(run, c, samples, samples)
      ensures c < iterations * samples
    {
      CellIsInside(iterations, samples, run, c);
    }
    forall r: nat, run: nat, c: nat | r < run < iterations && Writes(r, c, samples, samples)
      ensures !Writes(run, c, samples, samples)
    {
      CellIsWrittenOnce(samples, r, run, c);
    }
  }

  /**
   The program neither divides by zero, in computing the stamping interval or in using it, nor leaves a cell of the
   result array unwritten, nor writes one twice or outside.
   */
  ghost predicate RunsTile(total: nat, samples: nat, iterations: nat) {
    && samples > 0 && total / samples > 0
    && Tiles(iterations, samples, Windows(total, total / samples))
  }

  lemma IntervalIsPositive(total: nat, samples: nat)
    requires samples > 0
    ensures total / samples > 0 <==> samples <= total
    ensures total % samples >= 0
  {
    DivMod(total, samples);
    MulMonotone(samples, 1, total / samples);
  }

  lemma RunsTileWithInterval(total: nat, samples: nat, iterations: nat)
    requires 0 < samples <= total && iterations > 0
    ensures total / samples > 0
    ensures Tiles(iterations, samples, Windows(total, total / samples)) <==> total % samples < total / samples
    ensures total % samples >= total / samples ==>
              Writes(iterations - 1, iterations * samples, samples, Windows(total, total / samples))
  {
    WindowsOfARun(total, samples);
    var windows := Windows(total, total / samples);
    if windows == samples {
      TiledByEqualSlices(iterations, samples);
    } else {
      assert iterations * samples == (iterations - 1) * samples + samples;
      assert Writes(iterations - 1, iterations * samples, samples, windows);
    }
  }

  /**
   run_yielding_offered_load: the runs tile the result array exactly when what the division by the sample count leaves
   over is less than its quotient, as it is whenever the sample count divides a positive total. Otherwise the interval
   is zero, or every run reports too many windows and the last one writes past the end.
   */
  lemma RunsTileExactly(total: nat, samples: nat, iterations: nat)
    requires iterations > 0
    ensures RunsTile(total, samples, iterations) <==> samples > 0 && total % samples < total / samples
    ensures 0 < samples <= total && total % samples >= total / samples ==>
              Writes(iterations - 1, iterations * samples, samples, Windows(total, total / samples))
  {
    if samples > 0 {
      IntervalIsPositive(total, samples);
      if samples <= total {
        RunsTileWithInterval(total, samples, iterations);
      }
    }
  }

  /** Seven requests in four samples are stamped after every single one: seven windows where there is room for four. */
  lemma SevenRequestsInFourSamples()
    ensures !RunsTile(7, 4, 1) && Writes(0, 4, 4, Windows(7, 7 / 4))
  {
    RunsTileExactly(7, 4, 1);
  }

  /** The clocks one run of the executor gets to see. */
  datatype Clocks = Clocks(start: Word, polls: seq<Poll>)

  ghost predicate Reported(times: seq<Word>, run: Clocks, interval: nat) {
    && interval > 0 && |times| * interval <= |Completions(run.polls)|
    && forall k :: 0 <= k < |times| ==>
         (k + 1) * interval <= |Completions(run.polls)|
         && times[k] == ReportedTime(run.start, Completions(run.polls), interval, k)
  }

  lemma ReportedByStamps(times: seq<Word>, stamps: seq<Word>, run: Clocks, interval: nat)
    requires interval > 0 && |stamps| == |times| + 1
    requires Stamped(stamps, |stamps|, interval, run.start, Completions(run.polls))
    requires forall k :: 0 <= k < |times| ==> times[k] == WindowTime(stamps, k)
    ensures Reported(times, run, interval)
  {
    hide Completions, Elapsed, Wrap;
    var clocks := Completions(run.polls);
    assert stamps[|times|] == stamps[|stamps| - 1];
    forall k | 0 <= k < |times|
      ensures (k + 1) * interval <= |clocks| && times[k] == ReportedTime(run.start, clocks, interval, k)
    {
      assert stamps[k] == Stamp(run.start, clocks, interval, k);
      assert stamps[k + 1] == Stamp(run.start, clocks, interval, k + 1);
    }
  }

  lemma SliceBounds(i: nat, n: nat, samples: nat)
    requires i < n
    ensures 0 <= i * samples <= i * samples + samples <= n * samples
    ensures (i + 1) * samples == i * samples + samples
  {
    MulMonotone(samples, i + 1, n);
  }

  /** The first `n` slices of the result array hold the execution times of the first `n` runs. */
  ghost predicate SlicesReported(exetime: seq<Word>, runs: seq<Clocks>, samples: nat, interval: nat, n: nat) {
    && n <= |runs|
    && forall i: nat :: i < n ==>
         i * samples + samples <= |exetime|
         && Reported(exetime[i * samples..i * samples + samples], runs[i], interval)
  }

  lemma CellInSlice(exetime: seq<Word>, a: nat, samples: nat, k: nat)
    requires a + samples <= |exetime| && k < samples
    ensures exetime[a..a + samples][k] == exetime[a + k]
  {
  }

  lemma ReportedTimeIs(start: Word, clocks: seq<Word>, interval: nat, k: nat)
    requires interval > 0 && (k + 1) * interval <= |clocks|
    ensures 0 < (k + 1) * interval && (k > 0 ==> 0 < k * interval <= |clocks|)
    ensures ReportedTime(start, clocks, interval, k) ==
              ((clocks[(k + 1) * interval - 1] as int) - (if k == 0 then start else clocks[k * interval - 1])) % TWO64
  {
    MulMonotone(interval, k, k + 1);
    MulMonotone(interval, 1, k + 1);
    assert k > 0 ==> k * interval > 0 by { MulMonotone(interval, 1, k); }
  }

  /** Cell k of slice i is the time from completion k * interval, or the start, of run i to the next such completion. */
  lemma CellOfSlice(exetime: seq<Word>, runs: seq<Clocks>, samples: nat, interval: nat, n: nat, i: nat, k: nat)
    requires SlicesReported(exetime, runs, samples, interval, n) && i < n && k < samples
    ensures 0 <= i * samples + k < |exetime|
    ensures var clocks := Completions(runs[i].polls);
            0 < (k + 1) * interval <= |clocks| && (k > 0 ==> 0 < k * interval <= |clocks|)
            && exetime[i * samples + k] ==
               ((clocks[(k + 1) * interval - 1] as int)
                - (if k == 0 then runs[i].start else clocks[k * interval - 1])) % TWO64
  {
    hide Completions, ReportedTime;
    assert i * samples + samples <= |exetime|;
    CellInSlice(exetime, i * samples, samples, k);
    assert Reported(exetime[i * samples..i * samples + samples], runs[i], interval);
    ReportedTimeIs(runs[i].start, Completions(runs[i].polls), interval, k);
  }

  lemma NextSlice(before: seq<Word>, exetime: seq<Word>, runs: seq<Clocks>, samples: nat, interval: nat, i: nat,
                  stamps: seq<Word>)
    requires SlicesReported(before, runs, samples, interval, i) && i < |runs|
    requires |exetime| == |before| && i * samples + samples <= |exetime|
    requires interval > 0 && |stamps| == samples + 1
    requires Stamped(stamps, |stamps|, interval, runs[i].start, Completions(runs[i].polls))
    requires forall k :: 0 <= k < samples ==> exetime[i * samples + k] == WindowTime(stamps, k)
    requires forall c :: 0 <= c < |exetime| && !(i * samples <= c < i * samples + samples) ==> exetime[c] == before[c]
    ensures SlicesReported(exetime, runs, samples, interval, i + 1)
  {
    hide Reported, Completions, Stamped, WindowTime;
    var written := exetime[i * samples..i * samples + samples];
    assert forall k :: 0 <= k < samples ==> written[k] == exetime[i * samples + k];
    ReportedByStamps(written, stamps, runs[i], interval);
    forall r: nat | r < i + 1
      ensures r * samples + samples <= |exetime|
      ensures Reported(exetime[r * samples..r * samples + samples], runs[r], interval)
    {
      if r < i {
        SliceBounds(r, i, samples);
        assert exetime[r * samples..r * samples + samples] == before[r * samples..r * samples + samples];
      }
    }
  }

  lemma NoSlices(exetime: seq<Word>, runs: seq<Clocks>, samples: nat, interval: nat)
    ensures SlicesReported(exetime, runs, samples, interval, 0)
  {
  }

  /** When the sample count fits the total, slice i of the result array holds the execution times of run i. */
  method RunYieldingOfferedLoad(samples: nat, total: nat, iter: nat, runs: seq<Clocks>) returns (exetime: array<Word>)
    requires 0 < samples && total % samples < total / samples
    requires |runs| == iter && forall i :: 0 <= i < iter ==> |Completions(runs[i].polls)| >= total
    ensures exetime.Length == iter * samples
    ensures SlicesReported(exetime[..], runs, samples, total / samples, iter)
  {
    hide SlicesReported, Completions, Stamped, WindowTime;
    var interval := total / samples;
    IntervalIsPositive(total, samples);
    WindowsOfARun(total, samples);
    exetime := new Word[iter * samples];
    NoSlices(exetime[..], runs, samples, interval);
    for i := 0 to iter
      invariant SlicesReported(exetime[..], runs, samples, interval, i)
    {
      SliceBounds(i, iter, samples);
      var times := new Word[total / interval + 1];
      ghost var before := exetime[..];
      var finished := ExecuteWithSampling(interval, total, times, runs[i].start, runs[i].polls, exetime, i * samples);
      NextSlice(before, exetime[..], runs, samples, interval, i, times[..]);
    }
  }
}
