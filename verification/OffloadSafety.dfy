/** What holds in every run of one worker against the emulated accelerator. */
module OffloadSafety {
  import opened Interleaving
  import opened Offload
  import opened OffloadInvariant

  lemma WorkerStepInv(c: Config, s: State)
    requires Inv(c, s) && !s.w.pc.Exited?
    ensures Inv(c, WorkerStep(c, s))
  {
    hide WorkerStep, WorkerOk, MailboxOk, QueueOk, RecordsOk, ClockOk;
    WorkerKeepsWorker(c, s);
    WorkerKeepsMailbox(c, s);
    WorkerKeepsQueue(c, s);
    WorkerKeepsRecords(c, s);
  }

  lemma DeviceStepInv(c: Config, s: State)
    requires Inv(c, s) && !s.w.pc.Exited?
    ensures Inv(c, DeviceStep(c, s))
  {
    hide DeviceStep, WorkerOk, MailboxOk, QueueOk, RecordsOk, ClockOk;
    DeviceKeepsWorker(c, s);
    DeviceKeepsMailbox(c, s);
    DeviceKeepsQueue(c, s);
    DeviceKeepsRecords(c, s);
    DeviceKeepsClock(c, s);
  }

  lemma TickKeepsMost(c: Config, s: State, cycles: nat)
    requires Inv(c, s)
    ensures var s' := s.(now := s.now + cycles);
            WorkerOk(c, s') && MailboxOk(c, s') && QueueOk(c, s') && RecordsOk(c, s')
  {
    hide CountsUp, ClockOk;
  }

  lemma TickKeepsClock(c: Config, s: State, cycles: nat)
    requires ClockOk(c, s)
    ensures ClockOk(c, s.(now := s.now + cycles))
  {
  }

  lemma TickKeeps(c: Config, s: State, cycles: nat)
    requires Inv(c, s)
    ensures Inv(c, s.(now := s.now + cycles))
  {
    hide WorkerOk, MailboxOk, QueueOk, RecordsOk, ClockOk;
    TickKeepsMost(c, s, cycles);
    TickKeepsClock(c, s, cycles);
  }

  lemma StepInv(c: Config, s: State, choice: Choice)
    requires Inv(c, s)
    ensures Inv(c, Step(c, s, choice))
  {
    hide Inv, WorkerStep, DeviceStep;
    if !s.w.pc.Exited? {
      match choice {
        case WorkerMoves => WorkerStepInv(c, s);
        case DeviceMoves => DeviceStepInv(c, s);
        case Tick(cycles) => TickKeeps(c, s, cycles);
      }
    }
  }

  lemma {:induction false} RunInv(c: Config, s: State, schedule: seq<Choice>)
    requires Inv(c, s)
    ensures Inv(c, Run(c, s, schedule))
  {
    hide Inv, Step;
    if schedule == [] {
    } else {
      var n := |schedule| - 1;
      RunInv(c, s, schedule[..n]);
      StepInv(c, Run(c, s, schedule[..n]), schedule[n]);
    }
  }

  lemma {:induction false} RunInTwoParts(c: Config, s: State, first: seq<Choice>, second: seq<Choice>)
    ensures Run(c, Run(c, s, first), second) == Run(c, s, first + second)
  {
    hide Step;
    if second == [] {
      assert first + second == first;
    } else {
      var n := |second| - 1;
      RunInTwoParts(c, s, first, second[..n]);
      assert (first + second)[..|first| + n] == first + second[..n];
    }
  }

  /** The state reached from the start of the benchmark by a schedule. */
  function Reached(c: Config, now: nat, schedule: seq<Choice>): State {
    Run(c, Init(c, now), schedule)
  }

  lemma ReachedInv(c: Config, now: nat, schedule: seq<Choice>)
    ensures Inv(c, Reached(c, now, schedule))
  {
    InitInv(c, now);
    RunInv(c, Init(c, now), schedule);
  }

  /** Some start time and some schedule lead to this state. */
  ghost predicate Reachable(c: Config, s: State) {
    exists now: nat, schedule: seq<Choice> :: s == Reached(c, now, schedule)
  }

  lemma StartReachable(c: Config, now: nat)
    ensures Reachable(c, Init(c, now)) && Inv(c, Init(c, now))
  {
    assert Init(c, now) == Reached(c, now, []);
    InitInv(c, now);
  }

  lemma Advance(c: Config, s: State, choice: Choice) returns (s': State)
    requires Reachable(c, s)
    ensures s' == Step(c, s, choice) && Reachable(c, s') && Inv(c, s')
  {
    var now: nat, schedule: seq<Choice> :| s == Reached(c, now, schedule);
    var more := schedule + [choice];
    assert more[..|more| - 1] == schedule;
    s' := Step(c, s, choice);
    assert s' == Reached(c, now, more);
    ReachedInv(c, now, more);
  }

  lemma WorkerAdvances(c: Config, s: State) returns (s': State)
    requires Reachable(c, s) && !s.w.pc.Exited?
    ensures Reachable(c, s') && Inv(c, s') && s' == WorkerStep(c, s)
  {
    hide Reachable, Inv, WorkerStep;
    s' := Advance(c, s, WorkerMoves);
  }

  lemma DeviceAdvances(c: Config, s: State) returns (s': State)
    requires Reachable(c, s) && !s.w.pc.Exited?
    ensures Reachable(c, s') && Inv(c, s') && s' == DeviceStep(c, s)
  {
    hide Reachable, Inv, DeviceStep;
    s' := Advance(c, s, DeviceMoves);
  }

  // ----- mailbox -----

  /**
   One decision per submission, in order; submit_offload returns the decision made for its own submission;
   what the device has put on its list is what was submitted and accepted, in order; and every accepted
   offload is retired, queued, or the one being pushed.
   */
  lemma MailboxAgreement(c: Config, now: nat, schedule: seq<Choice>)
    ensures var s := Reached(c, now, schedule);
            var h := s.h;
            && |h.decisions| <= |h.submitted| <= |h.decisions| + 1
            && |h.returned| <= |h.decisions| && (forall i :: 0 <= i < |h.returned| ==> h.returned[i] == h.decisions[i])
            && (forall i :: 0 <= i < |h.decisions| - 1 ==> h.decisions[i].Accepted?)
            && h.enqueued <= h.submitted
            && AcceptedCount(s) == PoppedCount(s) + |s.d.queue| + (if Pushing(s.d.pc) then 1 else 0)
            && |h.enqueued| == PoppedCount(s) + |s.d.queue|
  {
    ReachedInv(c, now, schedule);
  }

  lemma ReturnedMeansAccepted(c: Config, s: State, i: nat)
    requires Inv(c, s) && i < |s.h.returned|
    ensures i < |s.h.submitted| && s.h.submitted[i] == i
    ensures s.h.returned[i].Accepted? <==> i in s.h.enqueued || (s.d.pc.Enqueue? && s.d.pc.comp == i)
  {
    hide ClockOk, RecordsOk;
    if i < |s.h.enqueued| {
      assert s.h.enqueued[i] == i;
    }
  }

  /** A submission that has returned success was accepted, and its record is queued, being pushed or retired. */
  lemma SuccessMeansAccepted(c: Config, now: nat, schedule: seq<Choice>, i: nat)
    requires i < |Reached(c, now, schedule).h.returned|
    ensures var s := Reached(c, now, schedule);
            && i < |s.h.submitted| && s.h.submitted[i] == i
            && (s.h.returned[i].Accepted? <==> i in s.h.enqueued || (s.d.pc.Enqueue? && s.d.pc.comp == i))
  {
    hide Reached, Inv;
    ReachedInv(c, now, schedule);
    ReturnedMeansAccepted(c, Reached(c, now, schedule), i);
  }

  /** A record that is completed stays completed: no pending write hits it again. */
  lemma CompletionsSurvive(c: Config, s: State, choice: Choice, i: nat)
    requires Inv(c, s) && Record(s, i).Completed?
    ensures Record(Step(c, s, choice), i).Completed?
  {
    hide CountsUp, ClockOk, QueueOk;
    if choice.WorkerMoves? && !s.w.pc.Exited? {
      WorkerFrame(c, s);
    } else if choice.DeviceMoves? {
      DeviceFrame(c, s);
    }
  }

  // ----- the yielding executor -----

  /** Completed records form a prefix between the requests resumed and the requests submitted. */
  lemma CompletedPrefix(c: Config, now: nat, schedule: seq<Choice>)
    requires c.mode.Yielding?
    ensures var s := Reached(c, now, schedule);
            var done := |s.h.completions|;
            && (forall i :: 0 <= i < c.total ==> (Record(s, i).Completed? <==> i < done))
            && s.w.completeIdx <= done <= |s.h.submitted| <= c.total
            && (s.w.pc.LoopHead? ==> |s.h.submitted| == s.w.started)
            && s.w.requestsCompleted == s.w.completeIdx == |s.h.processed|
  {
    ReachedInv(c, now, schedule);
  }

  /** Requests are submitted once each and post-processed once each, both in index order. */
  lemma InIndexOrder(c: Config, now: nat, schedule: seq<Choice>)
    ensures var s := Reached(c, now, schedule);
            CountsUp(s.h.submitted) && CountsUp(s.h.enqueued) && CountsUp(s.h.processed)
    ensures var s := Reached(c, now, schedule);
            forall i :: 0 <= i < |s.h.completions| ==> s.h.completions[i].comp == i
  {
    ReachedInv(c, now, schedule);
  }

  /** A request is post-processed only after the device has completed it. */
  lemma ProcessedAfterCompletion(c: Config, s: State, choice: Choice)
    requires Inv(c, s) && |Step(c, s, choice).h.processed| > |s.h.processed|
    ensures var id := |s.h.processed|;
            && Step(c, s, choice).h.processed == s.h.processed + [id]
            && Record(s, id).Completed?
  {
    hide CountsUp, ClockOk, QueueOk, MailboxOk;
    if choice.DeviceMoves? {
      DeviceFrame(c, s);
    }
  }

  /** When the executor's loop ends, every request has been submitted, completed and post-processed exactly once. */
  lemma FinishedMeansAllDone(c: Config, now: nat, schedule: seq<Choice>)
    requires Reached(c, now, schedule).w.pc.Finished?
    ensures var s := Reached(c, now, schedule);
            && s.h.processed == seq(c.total, i => i)
            && s.h.submitted == seq(c.total, i => i)
            && |s.h.completions| == c.total
            && (forall i :: 0 <= i < c.total ==> Record(s, i).Completed?)
            && |s.d.queue| == (if s.d.pc.Retire? then 1 else 0)
  {
    ReachedInv(c, now, schedule);
  }

  /** The request is on the device's list, or accepted and about to be pushed. */
  predicate AtDevice(s: State, id: nat) {
    || (exists i :: 0 <= i < |s.d.queue| && s.d.queue[i].comp == id)
    || (Pushing(s.d.pc) && id == |s.h.enqueued|)
  }

  function Measure(c: Config, s: State): int {
    2 * c.total - s.w.started - s.w.completeIdx
  }

  /**
   The yielding executor's loop: it ends, resumes the oldest request, starts the next one, or spins; it spins only
   when everything is started and the oldest unresumed request is at the device.
   */
  lemma SpinsOnlyOnTheDevice(c: Config, s: State)
    requires Inv(c, s) && c.mode.Yielding? && s.w.pc.LoopHead?
    ensures var s' := WorkerStep(c, s);
            || s'.w.pc.Finished?
            || (s'.w.pc.PostProcess? && Record(s, s.w.completeIdx).Completed?)
            || (s'.w.pc.WritePending? && s.w.started < c.total)
            || (s' == s && s.w.started == c.total && AtDevice(s, s.w.completeIdx))
    ensures s.w.completeIdx < c.total ==>
              (WorkerStep(c, s).w.pc.PostProcess? <==> Record(s, s.w.completeIdx).Completed?)
  {
    hide CountsUp, ClockOk;
    if s.w.requestsCompleted < c.total && Record(s, s.w.completeIdx).Pending? && s.w.started >= c.total {
      var id := s.w.completeIdx;
      assert |s.h.submitted| == c.total && AcceptedCount(s) == c.total;
      if id < |s.h.enqueued| {
        assert s.d.queue[id - PoppedCount(s)].comp == id;
      }
    }
  }

  lemma SameMeasure(c: Config, s: State, s': State)
    requires s'.w == s.w
    ensures Measure(c, s') == Measure(c, s)
  {
  }

  lemma MeasureOfMove(c: Config, s: State)
    requires c.mode.Yielding?
    ensures var s' := WorkerStep(c, s);
            Measure(c, s') ==
              Measure(c, s) - if s.w.pc.PostProcess? || (s.w.pc.ReadVerdict? && s'.w.pc.LoopHead?) then 1 else 0
  {
    match s.w.pc {
      case LoopHead =>
      case WritePending =>
      case WriteAddress =>
      case RaiseFlag =>
      case AwaitFlag(_) =>
      case ReadVerdict(_) =>
      case AwaitRecord =>
      case PostProcess =>
      case Finished =>
      case Exited =>
    }
  }

  lemma MeasureBound(c: Config, s: State)
    requires Inv(c, s) && c.mode.Yielding?
    ensures 0 <= Measure(c, s)
  {
    hide CountsUp, ClockOk, QueueOk, MailboxOk;
  }

  /** Each resumption and each start uses up the measure, and no other step changes it. */
  lemma MeasureDecreases(c: Config, s: State, choice: Choice)
    requires Inv(c, s) && c.mode.Yielding? && !s.w.pc.Exited?
    ensures var s' := Step(c, s, choice);
            && 0 <= Measure(c, s') <= Measure(c, s)
            && (Measure(c, s') < Measure(c, s) <==>
                  choice.WorkerMoves? && (s.w.pc.PostProcess? || (s.w.pc.ReadVerdict? && s'.w.pc.LoopHead?)))
  {
    hide Inv, WorkerStep, DeviceStep, Measure;
    StepInv(c, s, choice);
    MeasureBound(c, s);
    MeasureBound(c, Step(c, s, choice));
    MeasureOfMove(c, s);
    if choice.DeviceMoves? {
      DeviceFrame(c, s);
      SameMeasure(c, s, DeviceStep(c, s));
    } else if choice.Tick? {
      SameMeasure(c, s, s.(now := s.now + choice.cycles));
    }
  }
}
