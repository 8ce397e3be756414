/**
 The timed three-phase templates and their executors: where each request takes its stamps, and what the breakdown makes
 of them. What the requests compute is left to the untimed templates.
 */
module TimedTemplates {
  import opened Words
  import opened Timing

  /** What the time stamp counter shows at each of its readings. */
  type Counter = nat -> Word

  ghost predicate NeverStepsBack(counter: Counter) {
    forall i: nat, j: nat :: i <= j ==> counter(i) <= counter(j)
  }

  /** The four averages that are reported. */
  datatype Breakdown = Breakdown(preProc: Word, offloadTax: Word, axFunc: Word, postProc: Word)
  {
    function Total(): int {
      preProc + offloadTax + axFunc + postProc
    }
  }

  function BreakdownOf(s: Stamps): Breakdown
    requires s.Valid()
  {
    Breakdown(Average(s.ts0, s.ts1), Average(s.ts1, s.ts2), Average(s.ts2, s.ts3), Average(s.ts3, s.ts4))
  }

  /** The first three stamps of the requests below `started` and the last two of those below `resumed` are in order. */
  ghost predicate InOrder(s: Stamps, started: nat, resumed: nat, latest: Word) {
    && s.Valid() && resumed <= started <= |s.ts0|
    && (forall i :: 0 <= i < started ==> s.ts0[i] <= s.ts1[i] <= s.ts2[i] <= latest)
    && (forall i :: 0 <= i < resumed ==> s.ts2[i] <= s.ts3[i] <= s.ts4[i])
  }

  lemma LaterStillInOrder(s: Stamps, started: nat, resumed: nat, latest: Word, later: Word)
    requires InOrder(s, started, resumed, latest) && latest <= later
    ensures InOrder(s, started, resumed, later)
  {
  }

  lemma OneMoreStarted(s: Stamps, started: nat, resumed: nat, latest: Word, a: Word, b: Word, c: Word)
    requires InOrder(s, started, resumed, latest) && started < |s.ts0| && latest <= a <= b <= c
    ensures InOrder(s.(ts0 := s.ts0[started := a], ts1 := s.ts1[started := b], ts2 := s.ts2[started := c]),
                    started + 1, resumed, c)
  {
  }

  lemma OneMoreResumed(s: Stamps, started: nat, resumed: nat, latest: Word, a: Word, b: Word)
    requires InOrder(s, started, resumed, latest) && resumed < started && latest <= a <= b
    ensures InOrder(s.(ts3 := s.ts3[resumed := a], ts4 := s.ts4[resumed := b]), started, resumed + 1, b)
  {
  }

  /** Once all requests have been resumed, their stamps are ordered; if they are short the breakdown is right. */
  lemma InOrderIsAccountedFor(s: Stamps, latest: Word)
    requires InOrder(s, |s.ts0|, |s.ts0|, latest)
    requires forall i :: 1 <= i < |s.ts0| ==> Elapsed(s.ts0[i], s.ts4[i]) < 0x2_0000_0000
    ensures BreakdownOf(s).Total() <= Average(s.ts0, s.ts4) <= BreakdownOf(s).Total() + 3
  {
    hide Average, PhaseSum;
    ShortSamplesSuffice(s);
  }

  lemma TwoSpans(before: seq<Word>, after: seq<Word>)
    requires |before| == |after| == 2 && before[1] <= after[1]
    ensures Average(before, after) == (after[1] - before[1]) / 2
  {
    var spans := Spans(before, after);
    assert spans[1..] == [spans[1]];
    SumOfBoth([], [], spans[1]);
  }

  /** Each average has its own name: 10 cycles of pre-processing and 100 of offload tax in the second of two samples. */
  lemma TwoRequests()
    ensures BreakdownOf(Stamps([0, 0], [0, 10], [0, 110], [0, 110], [0, 110])) == Breakdown(5, 50, 0, 0)
  {
    hide Average;
    TwoSpans([0, 0], [0, 10]);
    TwoSpans([0, 10], [0, 110]);
    TwoSpans([0, 110], [0, 110]);
  }

  /** How many of the polls find a completed record. */
  function Found(polls: seq<bool>): nat {
    if polls == [] then 0 else Found(polls[..|polls| - 1]) + if polls[|polls| - 1] then 1 else 0
  }

  lemma OneMorePoll(polls: seq<bool>, next: nat)
    requires next < |polls|
    ensures Found(polls[..next + 1]) == Found(polls[..next]) + if polls[next] then 1 else 0
  {
    assert polls[..next + 1][..next] == polls[..next];
  }

  datatype Action = Start | Resume | Spin

  /** What one turn of the yielding executor's loop does, and how many requests it had started and resumed before. */
  datatype Look = Look(action: Action, started: nat, resumed: nat)
  {
    function StartedAfter(): nat {
      if action.Start? then started + 1 else started
    }

    function ResumedAfter(): nat {
      if action.Resume? then resumed + 1 else resumed
    }

    /** Readings of the counter before this turn: three for every request started, two for every one resumed. */
    function Readings(): nat {
      3 * started + 2 * resumed
    }
  }

  /** The oldest request is resumed if it is found completed; else the next one is started, while there is one. */
  ghost predicate FollowsPoll(log: seq<Look>, polls: seq<bool>, total: nat, n: nat)
    requires n < |log| <= |polls|
  {
    && log[n].started == (if n == 0 then 0 else log[n - 1].StartedAfter())
    && log[n].resumed == (if n == 0 then 0 else log[n - 1].ResumedAfter())
    && log[n].action == if log[n].resumed < log[n].started && polls[n] then Resume
                        else if log[n].started < total then Start else Spin
  }

  ghost predicate FollowsPolls(log: seq<Look>, polls: seq<bool>, total: nat) {
    |log| <= |polls| && forall n :: 0 <= n < |log| ==> FollowsPoll(log, polls, total, n)
  }

  ghost predicate StartsStamped(ts0: seq<Word>, ts1: seq<Word>, ts2: seq<Word>,
                                counter: Counter, log: seq<Look>, first: nat)
  {
    forall n :: 0 <= n < |log| && log[n].action.Start? ==>
      var i, k := log[n].started, first + log[n].Readings();
      && i < |ts0| && i < |ts1| && i < |ts2|
      && ts0[i] == counter(k) && ts1[i] == counter(k + 1) && ts2[i] == counter(k + 2)
  }

  ghost predicate ResumesStamped(ts3: seq<Word>, ts4: seq<Word>, counter: Counter, log: seq<Look>, first: nat) {
    forall n :: 0 <= n < |log| && log[n].action.Resume? ==>
      var i, k := log[n].resumed, first + log[n].Readings();
      && i < |ts3| && i < |ts4|
      && ts3[i] == counter(k) && ts4[i] == counter(k + 1)
  }

  /** The stamps hold the readings of the turns in which they were taken; `first` was the number of the first one. */
  ghost predicate StampedBy(s: Stamps, counter: Counter, log: seq<Look>, first: nat) {
    && s.Valid()
    && StartsStamped(s.ts0, s.ts1, s.ts2, counter, log, first)
    && ResumesStamped(s.ts3, s.ts4, counter, log, first)
  }

  /** The counts after a log: nothing logged was about a request beyond them. */
  ghost predicate CountsAre(log: seq<Look>, started: nat, resumed: nat) {
    && started == (if log == [] then 0 else log[|log| - 1].StartedAfter())
    && resumed == (if log == [] then 0 else log[|log| - 1].ResumedAfter())
    && forall n :: 0 <= n < |log| ==> log[n].StartedAfter() <= started && log[n].ResumedAfter() <= resumed
  }

  function NextLook(polls: seq<bool>, total: nat, next: nat, started: nat, resumed: nat): Look
    requires next < |polls|
  {
    Look(if resumed < started && polls[next] then Resume else if started < total then Start else Spin,
         started, resumed)
  }

  lemma OneMoreLook(log: seq<Look>, polls: seq<bool>, total: nat, started: nat, resumed: nat)
    requires FollowsPolls(log, polls, total) && CountsAre(log, started, resumed) && |log| < |polls|
    ensures var look := NextLook(polls, total, |log|, started, resumed);
            FollowsPolls(log + [look], polls, total)
            && CountsAre(log + [look], look.StartedAfter(), look.ResumedAfter())
  {
    var longer := log + [NextLook(polls, total, |log|, started, resumed)];
    forall n | 0 <= n < |longer| ensures FollowsPoll(longer, polls, total, n) {
      if n < |log| {
        assert FollowsPoll(log, polls, total, n);
      }
    }
  }

  lemma MoreStarts(ts0: seq<Word>, ts1: seq<Word>, ts2: seq<Word>, counter: Counter, log: seq<Look>, first: nat,
                   look: Look)
    requires StartsStamped(ts0, ts1, ts2, counter, log, first) && CountsAre(log, look.started, look.resumed)
    requires look.action.Start? && look.started < |ts0| == |ts1| == |ts2|
    ensures var i, k := look.started, first + look.Readings();
            StartsStamped(ts0[i := counter(k)], ts1[i := counter(k + 1)], ts2[i := counter(k + 2)],
                          counter, log + [look], first)
  {
  }

  lemma NoMoreStarts(ts0: seq<Word>, ts1: seq<Word>, ts2: seq<Word>, counter: Counter, log: seq<Look>, first: nat,
                     look: Look)
    requires StartsStamped(ts0, ts1, ts2, counter, log, first) && !look.action.Start?
    ensures StartsStamped(ts0, ts1, ts2, counter, log + [look], first)
  {
  }

  lemma MoreResumes(ts3: seq<Word>, ts4: seq<Word>, counter: Counter, log: seq<Look>, first: nat, look: Look)
    requires ResumesStamped(ts3, ts4, counter, log, first) && CountsAre(log, look.started, look.resumed)
    requires look.action.Resume? && look.resumed < |ts3| == |ts4|
    ensures var i, k := look.resumed, first + look.Readings();
            ResumesStamped(ts3[i := counter(k)], ts4[i := counter(k + 1)], counter, log + [look], first)
  {
  }

  lemma NoMoreResumes(ts3: seq<Word>, ts4: seq<Word>, counter: Counter, log: seq<Look>, first: nat, look: Look)
    requires ResumesStamped(ts3, ts4, counter, log, first) && !look.action.Resume?
    ensures ResumesStamped(ts3, ts4, counter, log + [look], first)
  {
  }

  /** The stamps after one more turn. */
  function AfterLook(s: Stamps, counter: Counter, first: nat, look: Look): Stamps
    requires s.Valid() && look.started <= |s.ts0| && look.resumed <= |s.ts0|
    requires look.action.Start? ==> look.started < |s.ts0|
    requires look.action.Resume? ==> look.resumed < |s.ts0|
  {
    var i, j, k := look.started, look.resumed, first + look.Readings();
    match look.action
    case Start =>
      s.(ts0 := s.ts0[i := counter(k)], ts1 := s.ts1[i := counter(k + 1)], ts2 := s.ts2[i := counter(k + 2)])
    case Resume => s.(ts3 := s.ts3[j := counter(k)], ts4 := s.ts4[j := counter(k + 1)])
    case Spin => s
  }

  lemma StampedOneMore(s: Stamps, counter: Counter, log: seq<Look>, first: nat, look: Look)
    requires StampedBy(s, counter, log, first) && CountsAre(log, look.started, look.resumed)
    requires look.started <= |s.ts0| && look.resumed <= |s.ts0|
    requires look.action.Start? ==> look.started < |s.ts0|
    requires look.action.Resume? ==> look.resumed < |s.ts0|
    ensures StampedBy(AfterLook(s, counter, first, look), counter, log + [look], first)
  {
    hide StartsStamped, ResumesStamped, CountsAre;
    match look.action {
      case Start =>
        MoreStarts(s.ts0, s.ts1, s.ts2, counter, log, first, look);
        NoMoreResumes(s.ts3, s.ts4, counter, log, first, look);
      case Resume =>
        NoMoreStarts(s.ts0, s.ts1, s.ts2, counter, log, first, look);
        MoreResumes(s.ts3, s.ts4, counter, log, first, look);
      case Spin =>
        NoMoreStarts(s.ts0, s.ts1, s.ts2, counter, log, first, look);
        NoMoreResumes(s.ts3, s.ts4, counter, log, first, look);
    }
  }

  lemma CountedLast(log: seq<Look>, started: nat, resumed: nat)
    requires CountsAre(log, started, resumed)
    ensures resumed == if log == [] then 0 else log[|log| - 1].ResumedAfter()
  {
  }

  lemma NothingLogged(s: Stamps, counter: Counter, polls: seq<bool>, total: nat, first: nat)
    requires s.Valid()
    ensures FollowsPolls([], polls, total) && CountsAre([], 0, 0) && StampedBy(s, counter, [], first)
  {
  }

  /** The log, turn by turn. */
  lemma LogIs(log: seq<Look>, polls: seq<bool>, total: nat, n: nat)
    requires FollowsPolls(log, polls, total) && n < |log|
    ensures n < |polls|
    ensures log[n].action == Resume <==> log[n].resumed < log[n].started && polls[n]
    ensures log[n].action == Start <==> !(log[n].resumed < log[n].started && polls[n]) && log[n].started < total
    ensures n > 0 ==>
              && log[n].started == log[n - 1].started + (if log[n - 1].action == Start then 1 else 0)
              && log[n].resumed == log[n - 1].resumed + (if log[n - 1].action == Resume then 1 else 0)
    ensures log[0].started == log[0].resumed == 0
  {
    assert FollowsPoll(log, polls, total, n) && FollowsPoll(log, polls, total, 0);
  }

  /** The stamps of a turn: three consecutive readings for a request that is started, two for one that is resumed. */
  lemma StampsOfTurn(s: Stamps, counter: Counter, log: seq<Look>, first: nat, n: nat)
    requires StampedBy(s, counter, log, first) && n < |log|
    ensures s.Valid()
    ensures var i, k := log[n].started, first + 3 * log[n].started + 2 * log[n].resumed;
            log[n].action == Start ==>
              i < |s.ts0| && s.ts0[i] == counter(k) && s.ts1[i] == counter(k + 1) && s.ts2[i] == counter(k + 2)
    ensures var i, k := log[n].resumed, first + 3 * log[n].started + 2 * log[n].resumed;
            log[n].action == Resume ==> i < |s.ts0| && s.ts3[i] == counter(k) && s.ts4[i] == counter(k + 1)
  {
  }

  /** The five stamps of each of the first `n` requests are consecutive readings, request by request. */
  ghost predicate StampedInTurn(s: Stamps, counter: Counter, n: nat, first: nat) {
    && s.Valid() && n <= |s.ts0|
    && forall i :: 0 <= i < n ==>
         var k := first + 5 * i;
         && s.ts0[i] == counter(k) && s.ts1[i] == counter(k + 1) && s.ts2[i] == counter(k + 2)
         && s.ts3[i] == counter(k + 3) && s.ts4[i] == counter(k + 4)
  }

  lemma InTurnIs(s: Stamps, counter: Counter, n: nat, first: nat)
    requires StampedInTurn(s, counter, n, first)
    ensures s.Valid() && n <= |s.ts0|
    ensures forall i :: 0 <= i < n ==>
              var k := first + 5 * i;
              && s.ts0[i] == counter(k) && s.ts1[i] == counter(k + 1) && s.ts2[i] == counter(k + 2)
              && s.ts3[i] == counter(k + 3) && s.ts4[i] == counter(k + 4)
  {
  }

  lemma OneMoreInTurn(s: Stamps, counter: Counter, n: nat, first: nat)
    requires StampedInTurn(s, counter, n, first) && n < |s.ts0|
    ensures var k := first + 5 * n;
            StampedInTurn(Stamps(s.ts0[n := counter(k)], s.ts1[n := counter(k + 1)], s.ts2[n := counter(k + 2)],
                                 s.ts3[n := counter(k + 2 + 1)], s.ts4[n := counter(k + 3 + 1)]),
                          counter, n + 1, first)
  {
  }

  class TimedRun {
    const counter: Counter
    const ts0: array<Word>
    const ts1: array<Word>
    const ts2: array<Word>
    const ts3: array<Word>
    const ts4: array<Word>

    var readings: nat

    constructor (counter: Counter, total: Count)
      ensures Valid(total) && readings == 0 && this.counter == counter
      ensures fresh(ts0) && fresh(ts1) && fresh(ts2) && fresh(ts3) && fresh(ts4)
    {
      this.counter, readings := counter, 0;
      ts0, ts1, ts2, ts3, ts4 := new Word[total], new Word[total], new Word[total], new Word[total], new Word[total];
    }

    ghost predicate Valid(total: Count) {
      && ts0.Length == ts1.Length == ts2.Length == ts3.Length == ts4.Length == total
      && ts0 != ts1 && ts0 != ts2 && ts0 != ts3 && ts0 != ts4 && ts1 != ts2
      && ts1 != ts3 && ts1 != ts4 && ts2 != ts3 && ts2 != ts4 && ts3 != ts4
    }

    ghost function View(): Stamps
      reads ts0, ts1, ts2, ts3, ts4
    {
      Stamps(ts0[..], ts1[..], ts2[..], ts3[..], ts4[..])
    }

    /** With a counter that never steps back, the stamps taken so far are in order. */
    ghost predicate StampsInOrder(started: nat, resumed: nat)
      reads this, ts0, ts1, ts2, ts3, ts4
    {
      NeverStepsBack(counter) ==> InOrder(View(), started, resumed, counter(readings))
    }

    method ReadCounter() returns (stamp: Word)
      modifies this`readings
      ensures stamp == counter(old(readings)) && readings == old(readings) + 1
    {
      stamp := counter(readings);
      readings := readings + 1;
    }

    /** generic_yielding_three_phase_timed up to its swap back. */
    method TimedUntilSwap(total: Count, idx: nat)
      requires Valid(total) && idx < total
      modifies this`readings, ts0, ts1, ts2
      ensures View() == old(View()).(ts0 := old(ts0[..])[idx := counter(old(readings))],
                                     ts1 := old(ts1[..])[idx := counter(old(readings) + 1)],
                                     ts2 := old(ts2[..])[idx := counter(old(readings) + 2)])
      ensures readings == old(readings) + 3
    {
      ts0[idx] := ReadCounter();
      ts1[idx] := ReadCounter();
      ts2[idx] := ReadCounter();
    }

    /** Both timed templates from the completion of the offload on. */
    method TimedAfterOffload(total: Count, idx: nat)
      requires Valid(total) && idx < total
      modifies this`readings, ts3, ts4
      ensures View() == old(View()).(ts3 := old(ts3[..])[idx := counter(old(readings))],
                                     ts4 := old(ts4[..])[idx := counter(old(readings) + 1)])
      ensures readings == old(readings) + 2
    {
      ts3[idx] := ReadCounter();
      ts4[idx] := ReadCounter();
    }

    method StartRequest(total: Count, started: nat, resumed: nat)
      requires Valid(total) && started < total && StampsInOrder(started, resumed)
      modifies this`readings, ts0, ts1, ts2
      ensures StampsInOrder(started + 1, resumed) && readings == old(readings) + 3
      ensures View() == old(View()).(ts0 := old(ts0[..])[started := counter(old(readings))],
                                     ts1 := old(ts1[..])[started := counter(old(readings) + 1)],
                                     ts2 := old(ts2[..])[started := counter(old(readings) + 2)])
    {
      hide InOrder;
      ghost var stamps, n := View(), readings;
      TimedUntilSwap(total, started);
      if NeverStepsBack(counter) {
        OneMoreStarted(stamps, started, resumed, counter(n), counter(n), counter(n + 1), counter(n + 2));
        LaterStillInOrder(View(), started + 1, resumed, counter(n + 2), counter(readings));
      }
    }

    method ResumeRequest(total: Count, started: nat, resumed: nat)
      requires Valid(total) && resumed < started <= total && StampsInOrder(started, resumed)
      modifies this`readings, ts3, ts4
      ensures StampsInOrder(started, resumed + 1) && readings == old(readings) + 2
      ensures View() == old(View()).(ts3 := old(ts3[..])[resumed := counter(old(readings))],
                                     ts4 := old(ts4[..])[resumed := counter(old(readings) + 1)])
    {
      hide InOrder;
      ghost var stamps, n := View(), readings;
      TimedAfterOffload(total, resumed);
      if NeverStepsBack(counter) {
        OneMoreResumed(stamps, started, resumed, counter(n), counter(n), counter(n + 1));
        LaterStillInOrder(View(), started, resumed + 1, counter(n + 1), counter(readings));
      }
    }

    /** The end of both executors: the four averages, which account for the whole if the samples are short. */
    method ReportBreakdown(total: Count) returns (breakdown: Breakdown)
      requires Valid(total) && StampsInOrder(total, total)
      ensures AccountsForTheWhole(breakdown)
      ensures breakdown.preProc == Average(ts0[..], ts1[..]) && breakdown.offloadTax == Average(ts1[..], ts2[..])
      ensures breakdown.axFunc == Average(ts2[..], ts3[..]) && breakdown.postProc == Average(ts3[..], ts4[..])
    {
      hide InOrder, Average, PhaseSum;
      var preProc, offloadTax, axFunc, postProc := RequestBreakdown(ts0, ts1, ts2, ts3, ts4, total);
      breakdown := Breakdown(preProc, offloadTax, axFunc, postProc);
      if NeverStepsBack(counter) && ShortSamples() {
        InOrderIsAccountedFor(View(), counter(readings));
      }
    }

    /** No sample but perhaps the first, which is not counted, takes 2^33 cycles. */
    ghost predicate ShortSamples()
      reads ts0, ts4
    {
      forall i :: 1 <= i < ts0.Length && i < ts4.Length ==> Elapsed(ts0[i], ts4[i]) < 0x2_0000_0000
    }

    ghost predicate AccountsForTheWhole(breakdown: Breakdown)
      reads ts0, ts4
    {
      NeverStepsBack(counter) && ShortSamples() && 0 < ts0.Length == ts4.Length ==>
        breakdown.Total() <= Average(ts0[..], ts4[..]) <= breakdown.Total() + 3
    }

    /** A blocking request: it comes back from its one entry with all five stamps taken. */
    method RunBlocking(total: Count, idx: nat, ghost first: nat)
      requires Valid(total) && idx < total && StampsInOrder(idx, idx)
      requires readings == first + 5 * idx && StampedInTurn(View(), counter, idx, first)
      modifies this`readings, ts0, ts1, ts2, ts3, ts4
      ensures StampsInOrder(idx + 1, idx + 1)
      ensures readings == first + 5 * (idx + 1) && StampedInTurn(View(), counter, idx + 1, first)
    {
      hide InOrder, StampedInTurn;
      OneMoreInTurn(View(), counter, idx, first);
      StartRequest(total, idx, idx);
      ResumeRequest(total, idx + 1, idx);
    }

    /** execute_three_phase_blocking_requests_closed_system_request_breakdown */
    method ExecuteBlocking(total: Count) returns (breakdown: Breakdown)
      requires Valid(total)
      modifies this`readings, ts0, ts1, ts2, ts3, ts4
      ensures Valid(total) && AccountsForTheWhole(breakdown)
      ensures breakdown.preProc == Average(ts0[..], ts1[..]) && breakdown.offloadTax == Average(ts1[..], ts2[..])
      ensures breakdown.axFunc == Average(ts2[..], ts3[..]) && breakdown.postProc == Average(ts3[..], ts4[..])
      ensures StampedInTurn(View(), counter, total, old(readings))
      ensures forall i :: 0 <= i < total ==>
                var k := old(readings) + 5 * i;
                && ts0[i] == counter(k) && ts1[i] == counter(k + 1) && ts2[i] == counter(k + 2)
                && ts3[i] == counter(k + 3) && ts4[i] == counter(k + 4)
    {
      assert StampsInOrder(0, 0) && StampedInTurn(View(), counter, 0, readings);
      hide BreakdownOf, AccountsForTheWhole, Average, InOrder, StampedInTurn;
      for nextUnstarted := 0 to total
        invariant StampsInOrder(nextUnstarted, nextUnstarted) && readings == old(readings) + 5 * nextUnstarted
        invariant StampedInTurn(View(), counter, nextUnstarted, old(readings))
      {
        RunBlocking(total, nextUnstarted, old(readings));
      }
      InTurnIs(View(), counter, total, old(readings));
      breakdown := ReportBreakdown(total);
    }

    /** The state of the yielding executor's loop after the turns in `log`. */
    ghost predicate Running(total: Count, polls: seq<bool>, log: seq<Look>, first: nat, started: nat, resumed: nat)
      reads this, ts0, ts1, ts2, ts3, ts4
    {
      && Valid(total) && resumed <= started <= total
      && StampsInOrder(started, resumed) && readings == first + 3 * started + 2 * resumed
      && FollowsPolls(log, polls, total) && CountsAre(log, started, resumed)
      && StampedBy(View(), counter, log, first)
    }

    /** One turn of the loop. */
    method LookAtOldest(total: Count, polls: seq<bool>, ghost log: seq<Look>, ghost first: nat, next: nat,
                        nextUnstarted: nat, nextToComplete: nat)
      returns (started: nat, resumed: nat, ghost longer: seq<Look>)
      requires Running(total, polls, log, first, nextUnstarted, nextToComplete) && nextToComplete < total
      requires |log| == next < |polls|
      modifies this`readings, ts0, ts1, ts2, ts3, ts4
      ensures Running(total, polls, longer, first, started, resumed)
      ensures |longer| == next + 1
      ensures polls[next] ==> started + resumed == nextUnstarted + nextToComplete + 1
      ensures started + resumed >= nextUnstarted + nextToComplete
    {
      hide InOrder, FollowsPolls, StampedBy, CountsAre;
      ghost var look := NextLook(polls, total, next, nextUnstarted, nextToComplete);
      OneMoreLook(log, polls, total, nextUnstarted, nextToComplete);
      StampedOneMore(View(), counter, log, first, look);
      started, resumed, longer := nextUnstarted, nextToComplete, log + [look];
      if nextToComplete < nextUnstarted && polls[next] {
        ResumeRequest(total, nextUnstarted, nextToComplete);
        resumed := nextToComplete + 1;
      } else if nextUnstarted < total {
        StartRequest(total, nextUnstarted, nextToComplete);
        started := nextUnstarted + 1;
      }
    }

    /**
     execute_three_phase_yielding_requests_closed_system_request_breakdown; `polls` is what its looks at the oldest
     record find, which is pending if that request has not been started. `log` says what every turn of the loop did.
     */
    method ExecuteYielding(total: Count, polls: seq<bool>)
      returns (finished: bool, breakdown: Breakdown, ghost log: seq<Look>)
      requires Valid(total)
      modifies this`readings, ts0, ts1, ts2, ts3, ts4
      ensures Valid(total) && (finished ==> AccountsForTheWhole(breakdown))
      ensures finished ==> breakdown.preProc == Average(ts0[..], ts1[..])
      ensures finished ==> breakdown.offloadTax == Average(ts1[..], ts2[..])
      ensures finished ==> breakdown.axFunc == Average(ts2[..], ts3[..])
      ensures finished ==> breakdown.postProc == Average(ts3[..], ts4[..])
      ensures Found(polls) >= 2 * total ==> finished
      ensures FollowsPolls(log, polls, total) && StampedBy(View(), counter, log, old(readings))
      ensures finished <==> log != [] && log[|log| - 1].ResumedAfter() == total
      ensures !finished ==> |log| == |polls|
    {
      assert StampsInOrder(0, 0);
      log := [];
      NothingLogged(View(), counter, polls, total, readings);
      hide BreakdownOf, AccountsForTheWhole, Average, InOrder, FollowsPolls, StampedBy, CountsAre;
      var nextUnstarted: nat, nextToComplete: nat := 0, 0;
      var next: nat := 0;
      while nextToComplete < total && next < |polls|
        invariant |log| == next <= |polls|
        invariant Running(total, polls, log, old(readings), nextUnstarted, nextToComplete)
        invariant Found(polls[..next]) <= nextToComplete + nextUnstarted
        decreases |polls| - next
      {
        OneMorePoll(polls, next);
        nextUnstarted, nextToComplete, log :=
          LookAtOldest(total, polls, log, old(readings), next, nextUnstarted, nextToComplete);
        next := next + 1;
      }
      assert next == |polls| ==> polls[..next] == polls;
      CountedLast(log, nextUnstarted, nextToComplete);
      finished := nextToComplete == total;
      breakdown := Breakdown(0, 0, 0, 0);
      if finished {
        breakdown := ReportBreakdown(total);
      }
    }
  }
}
