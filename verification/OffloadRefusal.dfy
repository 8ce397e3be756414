/** When the worker can be refused: exactly which configurations admit a run that ends with a refusal. */
module OffloadRefusal {
  import opened Words
  import opened Offload
  import opened OffloadInvariant
  import opened OffloadSafety

  // ----- configurations without refusals -----

  /**
   Blocking requests need one place at the device, a yielding run as many as it has requests; but offloads that take
   no time at all never share the device's list, so one place will do for them too.
   */
  predicate EnoughRoom(c: Config) {
    c.total == 0 || c.maxInflights >= if c.mode.Blocking? || c.offloadTime == 0 then 1 else c.total
  }

  /** With an offload time of zero every queued offload is due, and is retired before the next submission is seen. */
  ghost predicate DueAtOnce(c: Config, s: State) {
    c.offloadTime == 0 ==>
      && HeldStart(s) <= s.now
      && (s.d.queue != [] ==> |s.d.queue| == 1 && s.d.nextTime <= s.now)
      && (s.d.queue != [] ==> s.d.pc.Top? || s.d.pc.CheckClock? || s.d.pc.MarkCompleted? || s.d.pc.Retire?)
  }

  lemma DeviceKeepsDue(c: Config, s: State)
    requires Inv(c, s) && DueAtOnce(c, s)
    ensures DueAtOnce(c, DeviceStep(c, s))
  {
    hide CountsUp, WorkerOk, MailboxOk, RecordsOk, ClockOk;
    match s.d.pc {
      case Top =>
      case CheckClock =>
      case MarkCompleted(_) =>
      case Retire =>
      case Poll =>
      case Decide =>
      case ReadAddress(_) =>
      case AckAccept(_, _) =>
      case Enqueue(_, _) =>
      case AckRefuse =>
    }
  }

  lemma StepKeepsDue(c: Config, s: State, choice: Choice)
    requires Inv(c, s) && DueAtOnce(c, s)
    ensures DueAtOnce(c, Step(c, s, choice))
  {
    hide Inv, WorkerStep, DeviceStep;
    WorkerFrame(c, s);
    DeviceKeepsDue(c, s);
  }

  /**
   A blocking worker finds the device empty although the completion write precedes the decrement and the pop; the
   list of a yielding run never holds all its requests while one is still to be decided.
   */
  lemma RoomAtDecision(c: Config, s: State)
    requires Inv(c, s) && DueAtOnce(c, s) && EnoughRoom(c) && s.d.pc.Decide? && !s.w.pc.Exited?
    ensures s.d.inFlight < c.maxInflights
  {
    hide CountsUp, ClockOk;
  }

  ghost predicate NoRefusal(s: State) {
    !s.w.pc.Exited? && forall i :: 0 <= i < |s.h.decisions| ==> s.h.decisions[i].Accepted?
  }

  lemma WorkerWithoutRefusal(c: Config, s: State)
    requires Inv(c, s) && NoRefusal(s)
    ensures NoRefusal(WorkerStep(c, s))
  {
    WorkerFrame(c, s);
    hide CountsUp, WorkerOk, QueueOk, RecordsOk, ClockOk;
  }

  lemma DeviceWithoutRefusal(c: Config, s: State)
    requires Inv(c, s) && DueAtOnce(c, s) && EnoughRoom(c) && NoRefusal(s)
    ensures NoRefusal(DeviceStep(c, s))
  {
    if s.d.pc.Decide? {
      RoomAtDecision(c, s);
    }
    hide Inv;
  }

  lemma StepWithoutRefusal(c: Config, s: State, choice: Choice)
    requires Inv(c, s) && DueAtOnce(c, s) && EnoughRoom(c) && NoRefusal(s)
    ensures NoRefusal(Step(c, s, choice)) && DueAtOnce(c, Step(c, s, choice))
  {
    hide Inv, DueAtOnce, WorkerStep, DeviceStep;
    StepKeepsDue(c, s, choice);
    WorkerWithoutRefusal(c, s);
    DeviceWithoutRefusal(c, s);
  }

  lemma NoRefusalAtStart(c: Config, now: nat)
    ensures NoRefusal(Init(c, now)) && DueAtOnce(c, Init(c, now))
  {
  }

  lemma {:induction false} NeverRefused(c: Config, now: nat, schedule: seq<Choice>)
    requires EnoughRoom(c)
    ensures NoRefusal(Reached(c, now, schedule)) && DueAtOnce(c, Reached(c, now, schedule))
  {
    hide NoRefusal, DueAtOnce, Step;
    if schedule == [] {
      NoRefusalAtStart(c, now);
    } else {
      var n := |schedule| - 1;
      NeverRefused(c, now, schedule[..n]);
      ReachedInv(c, now, schedule[..n]);
      StepWithoutRefusal(c, Reached(c, now, schedule[..n]), schedule[n]);
    }
  }

  // ----- every other configuration has a run that is refused -----

  /** At time zero the worker is at its loop, `j` accepted offloads are on the list, and none is completed. */
  ghost predicate Filled(c: Config, s: State, j: nat) {
    && Reachable(c, s) && Inv(c, s) && s.now == 0
    && s.w == Worker(LoopHead, j, 0, 0)
    && s.d.pc.Top? && |s.d.queue| == j && s.flag.Received? && s.h.completions == []
  }

  /** The worker has posted request `j` and the device has noticed it, with `j` offloads on its list. */
  ghost predicate Noticed(c: Config, s: State, j: nat) {
    && Reachable(c, s) && Inv(c, s) && s.now == 0
    && s.w == Worker(AwaitFlag(NUM_RETRIES), j, 0, 0)
    && s.d.pc.Decide? && |s.d.queue| == j && s.flag.Requested? && s.h.completions == []
  }

  lemma PostNext(c: Config, s: State, j: nat) returns (s': State)
    requires Filled(c, s, j) && j < c.total && (c.mode.Yielding? || j == 0)
    ensures Reachable(c, s') && Inv(c, s') && s'.w == Worker(AwaitFlag(NUM_RETRIES), j, 0, 0)
    ensures s'.d == s.d && s'.flag.Requested? && s'.now == 0 && s'.h.completions == []
  {
    hide CountsUp, ClockOk, QueueOk, Reachable;
    s' := WorkerAdvances(c, s);
    assert s'.w.pc.WritePending?;
    s' := WorkerAdvances(c, s');
    s' := WorkerAdvances(c, s');
    s' := WorkerAdvances(c, s');
  }

  lemma NoticeNext(c: Config, s: State, j: nat) returns (s': State)
    requires Reachable(c, s) && Inv(c, s) && s.w == Worker(AwaitFlag(NUM_RETRIES), j, 0, 0)
    requires s.d.pc.Top? && |s.d.queue| == j && s.flag.Requested? && s.now == 0 && s.h.completions == []
    requires (j > 0 ==> 0 < c.offloadTime) && c.offloadTime < TWO64
    ensures Noticed(c, s', j)
  {
    hide CountsUp, Reachable, WorkerOk, MailboxOk, RecordsOk;
    s' := DeviceAdvances(c, s);
    if s'.d.pc.CheckClock? {
      assert s'.d.nextTime > 0;
      s' := DeviceAdvances(c, s');
    }
    s' := DeviceAdvances(c, s');
  }

  /** The verdict is in and the flag lowered. */
  ghost predicate Answered(c: Config, s: State, retries: nat, j: nat, verdict: Verdict) {
    && Reachable(c, s) && Inv(c, s) && s.now == 0
    && s.w == Worker(AwaitFlag(retries), j, 0, 0)
    && s.d.pc.Top? && s.flag.Received? && s.verdict == verdict && s.h.completions == []
  }

  lemma ListIsCounted(c: Config, s: State)
    requires Inv(c, s)
    ensures s.d.inFlight == |s.d.queue|
  {
    hide CountsUp, WorkerOk, MailboxOk, RecordsOk, ClockOk;
  }

  lemma DecideAndRead(c: Config, s: State, j: nat) returns (s': State)
    requires Noticed(c, s, j) && j < c.maxInflights
    ensures Reachable(c, s') && Inv(c, s') && s'.now == 0 && s'.w == s.w && s'.h.completions == []
    ensures s'.d == s.d.(pc := AckAccept(0, s.address)) && s'.verdict.Accepted?
  {
    hide Reachable, Inv, WorkerStep;
    ListIsCounted(c, s);
    s' := DeviceAdvances(c, s);
    s' := DeviceAdvances(c, s');
  }

  lemma PushNext(c: Config, s: State, j: nat) returns (s': State)
    requires Noticed(c, s, j) && j < c.maxInflights
    ensures Answered(c, s', NUM_RETRIES, j, Accepted) && |s'.d.queue| == j + 1
  {
    hide Reachable, Inv;
    s' := DecideAndRead(c, s, j);
    s' := DeviceAdvances(c, s');
    s' := DeviceAdvances(c, s');
  }

  lemma AcceptNext(c: Config, s: State, j: nat) returns (s': State)
    requires Noticed(c, s, j) && j < c.maxInflights && c.mode.Yielding?
    ensures Filled(c, s', j + 1)
  {
    hide Noticed, Reachable, Inv;
    s' := PushNext(c, s, j);
    s' := WorkerAdvances(c, s');
    s' := WorkerAdvances(c, s');
  }

  /** Every retry waits for a flag that is already down and reads the same verdict again, until none is left. */
  lemma {:induction false} RetriesRunOut(c: Config, s: State, retries: nat, j: nat) returns (s': State)
    requires Answered(c, s, retries, j, Refused)
    ensures Reachable(c, s') && s'.w.pc.Exited?
    decreases retries
  {
    hide Reachable, Inv;
    s' := WorkerAdvances(c, s);
    s' := WorkerAdvances(c, s');
    if retries == 0 {
    } else {
      s' := RetriesRunOut(c, s', retries - 1, j);
    }
  }

  lemma RefuseNext(c: Config, s: State, j: nat) returns (s': State)
    requires Noticed(c, s, j) && j >= c.maxInflights
    ensures Reachable(c, s') && s'.w.pc.Exited?
  {
    hide Reachable, Inv, WorkerStep;
    ListIsCounted(c, s);
    s' := DeviceAdvances(c, s);
    s' := DeviceAdvances(c, s');
    s' := RetriesRunOut(c, s', NUM_RETRIES, j);
  }

  lemma {:induction false} FillUp(c: Config, j: nat) returns (s: State)
    requires c.mode.Yielding? && j < c.total && (j == 0 || j <= c.maxInflights) && 0 < c.offloadTime < TWO64
    ensures Filled(c, s, j)
  {
    if j == 0 {
      s := Init(c, 0);
      StartReachable(c, 0);
      InitInv(c, 0);
    } else {
      s := FillUp(c, j - 1);
      s := PostNext(c, s, j - 1);
      s := NoticeNext(c, s, j - 1);
      s := AcceptNext(c, s, j - 1);
    }
  }

  // ----- after a refusal -----

  lemma RefusalStays(c: Config, s: State, choice: Choice)
    requires Inv(c, s) && LastRefused(s)
    ensures var s' := Step(c, s, choice);
            LastRefused(s') && s'.h.submitted == s.h.submitted && s'.h.decisions == s.h.decisions
  {
    hide CountsUp, QueueOk, RecordsOk, ClockOk;
    if choice.DeviceMoves? {
      DeviceFrame(c, s);
    }
  }

  /** After a refusal, in every continuation, nothing is ever submitted or decided again: retries reread the verdict. */
  lemma {:induction false} RetriesRereadTheVerdict(c: Config, s: State, schedule: seq<Choice>)
    requires Inv(c, s) && LastRefused(s)
    ensures var s' := Run(c, s, schedule);
            LastRefused(s') && s'.h.submitted == s.h.submitted && s'.h.decisions == s.h.decisions
  {
    hide Inv, LastRefused, Step;
    if schedule == [] {
    } else {
      var n := |schedule| - 1;
      RetriesRereadTheVerdict(c, s, schedule[..n]);
      RunInv(c, s, schedule[..n]);
      RefusalStays(c, Run(c, s, schedule[..n]), schedule[n]);
    }
  }

  /**
   Refusal, exactly: some run ends with a refused request if and only if there is a request and the device has
   fewer places than the executor can have waiting there. A refused submission is never repeated: the retry loop
   rereads the same verdict, so one refusal ends the run.
   */
  lemma RefusalExactly(c: Config)
    requires c.offloadTime < TWO64
    ensures (exists s: State :: Reachable(c, s) && s.w.pc.Exited?) <==> !EnoughRoom(c)
  {
    if EnoughRoom(c) {
      forall s: State | Reachable(c, s) ensures !s.w.pc.Exited? {
        var now: nat, schedule: seq<Choice> :| s == Reached(c, now, schedule);
        NeverRefused(c, now, schedule);
      }
    } else {
      var j: nat := if c.mode.Blocking? || c.maxInflights < 0 || c.offloadTime == 0 then 0 else c.maxInflights;
      var s;
      if j == 0 {
        s := Init(c, 0);
        StartReachable(c, 0);
        InitInv(c, 0);
      } else {
        s := FillUp(c, j);
      }
      s := PostNext(c, s, j);
      s := NoticeNext(c, s, j);
      s := RefuseNext(c, s, j);
      assert Reachable(c, s) && s.w.pc.Exited?;
    }
  }
}
