/** Order, deadlines and capacity of the emulated accelerator, and when a worker can be refused. */
module OffloadDevice {
  import opened Interleaving
  import opened Words
  import opened Offload
  import opened OffloadInvariant
  import opened OffloadSafety

  // ----- order and deadlines -----

  /** The in-flight counter is the length of the list and never exceeds the configured capacity. */
  lemma CapacityIsKept(c: Config, now: nat, schedule: seq<Choice>)
    ensures var s := Reached(c, now, schedule);
            && s.d.inFlight == |s.d.queue|
            && |s.d.queue| <= (if c.maxInflights < 0 then 0 else c.maxInflights)
            && (s.d.busy <==> |s.d.queue| > 0)
  {
    ReachedInv(c, now, schedule);
  }

  /**
   Offloads leave in the order they were accepted and never before their time, queued deadlines do not decrease,
   and the cached deadline is the one of the oldest entry. The 64-bit clock must not have wrapped.
   */
  lemma DeadlinesAreKept(c: Config, now: nat, schedule: seq<Choice>)
    requires Reached(c, now, schedule).now + c.offloadTime < TWO64
    ensures var s := Reached(c, now, schedule);
            && (forall i, j :: 0 <= i < j < |s.d.queue| ==> s.d.queue[i].deadline <= s.d.queue[j].deadline)
            && (s.d.queue != [] ==> s.d.nextTime == s.d.queue[0].deadline)
            && (forall i :: 0 <= i < |s.d.queue| ==>
                  && s.d.queue[i].comp == PoppedCount(s) + i
                  && s.d.queue[i].deadline == s.d.queue[i].start + c.offloadTime)
            && (forall i :: 0 <= i < |s.h.completions| ==>
                  && s.h.completions[i].comp == i
                  && s.h.completions[i].start + c.offloadTime <= s.h.completions[i].at <= s.now)
  {
    ReachedInv(c, now, schedule);
  }

  /** Some offload was completed before its time was up. */
  ghost predicate CompletedEarly(c: Config, s: State) {
    exists i :: 0 <= i < |s.h.completions| && s.h.completions[i].at < s.h.completions[i].start + c.offloadTime
  }

  lemma PostedAt(c: Config, now: nat) returns (s: State)
    requires c.total > 0
    ensures Reachable(c, s) && s.now == now && !s.w.pc.Exited?
    ensures s.flag.Requested? && s.address == 0 && |s.records| == c.total
    ensures s.d == Device(Top, [], 0, false, TWO64 - 1) && s.h.completions == []
  {
    StartReachable(c, now);
    hide Reachable, Inv, Step, DeviceStep;
    s := WorkerAdvances(c, Init(c, now));
    assert s.w.pc.WritePending?;
    s := WorkerAdvances(c, s);
    assert s.w.pc.WriteAddress?;
    s := WorkerAdvances(c, s);
    assert s.w.pc.RaiseFlag?;
    s := WorkerAdvances(c, s);
  }

  lemma DecidedAt(c: Config, now: nat) returns (s: State)
    requires c.total > 0 && c.maxInflights > 0
    ensures Reachable(c, s) && s.now == now && !s.w.pc.Exited? && |s.records| == c.total
    ensures s.address == 0 && s.d == Device(ReadAddress(now), [], 0, false, TWO64 - 1) && s.h.completions == []
  {
    s := PostedAt(c, now);
    hide Reachable, Inv, WorkerStep;
    s := DeviceAdvances(c, s);
    s := DeviceAdvances(c, s);
    s := DeviceAdvances(c, s);
  }

  lemma AcknowledgedAt(c: Config, now: nat) returns (s: State)
    requires c.total > 0 && c.maxInflights > 0
    ensures Reachable(c, s) && s.now == now && !s.w.pc.Exited? && |s.records| == c.total
    ensures s.d == Device(Enqueue(now, 0), [], 0, false, TWO64 - 1) && s.h.completions == []
  {
    s := DecidedAt(c, now);
    hide Reachable, Inv, WorkerStep;
    s := DeviceAdvances(c, s);
    s := DeviceAdvances(c, s);
  }

  lemma WrapsAround(t: nat)
    requires TWO64 <= t < 2 * TWO64
    ensures t % TWO64 == t - TWO64
  {
  }

  lemma AcceptedAt(c: Config, now: nat) returns (s: State)
    requires c.total > 0 && c.maxInflights > 0 && now < TWO64 <= now + c.offloadTime && c.offloadTime < TWO64
    ensures Reachable(c, s) && s.now == now && !s.w.pc.Exited? && |s.records| == c.total
    ensures var deadline := now + c.offloadTime - TWO64;
            s.d == Device(Top, [Entry(now, deadline, 0)], 1, true, deadline)
    ensures s.h.completions == []
  {
    hide Reachable, Inv, WorkerStep;
    s := AcknowledgedAt(c, now);
    WrapsAround(now + c.offloadTime);
    var e := Entry(now, now + c.offloadTime - TWO64, 0);
    assert [] + [e] == [e];
    s := DeviceAdvances(c, s);
  }

  /** An offload whose deadline wraps around is completed at once, before its time. */
  lemma WrappedDeadlineIsEarly(c: Config, now: nat) returns (s: State)
    requires c.total > 0 && c.maxInflights > 0 && now < TWO64 <= now + c.offloadTime && c.offloadTime < TWO64
    ensures Reachable(c, s) && s.now == now && CompletedEarly(c, s)
  {
    s := AcceptedAt(c, now);
    hide Reachable, Inv, WorkerStep;
    s := DeviceAdvances(c, s);
    s := DeviceAdvances(c, s);
    s := DeviceAdvances(c, s);
    assert s.h.completions[0] == Completion(0, now, now);
  }

  /**
   Deadlines, exactly: a system whose clock stays up to `limit` can complete an offload before its time if and only if
   a deadline set at `limit` no longer fits the 64-bit clock.
   */
  lemma EarlyExactlyWhenWrapped(c: Config, limit: Word)
    requires c.total > 0 && c.maxInflights > 0 && c.offloadTime < TWO64
    ensures (exists s: State :: Reachable(c, s) && s.now <= limit && CompletedEarly(c, s))
       <==> TWO64 <= limit + c.offloadTime
  {
    if TWO64 <= limit + c.offloadTime {
      var s := WrappedDeadlineIsEarly(c, limit);
    } else {
      forall s: State | Reachable(c, s) && s.now <= limit ensures !CompletedEarly(c, s) {
        var now: nat, schedule: seq<Choice> :| s == Reached(c, now, schedule);
        DeadlinesAreKept(c, now, schedule);
      }
    }
  }

  // ----- what one iteration does, when nobody interferes -----

  /** `n` device steps. */
  function DeviceSteps(c: Config, s: State, n: nat): State
    decreases n
  {
    if n == 0 then s else DeviceSteps(c, DeviceStep(c, s), n - 1)
  }

  /**
   The first half of an iteration comes before the poll of the flag: an offload that is due leaves its place before the
   next submission is looked at.
   */
  lemma DueOffloadIsHandedBack(c: Config, s: State)
    requires s.d.pc.Top? && s.d.busy && s.d.queue != [] && s.d.queue[0].comp < |s.records| && s.now >= s.d.nextTime
    ensures DeviceSteps(c, s, 4) ==
              var front, rest := s.d.queue[0], s.d.queue[1..];
              s.(d := Device(Poll, rest, s.d.inFlight - 1, |rest| > 0,
                             if |rest| > 0 then rest[0].deadline else s.d.nextTime),
                 records := s.records[front.comp := Completed],
                 h := s.h.(iterations := s.h.iterations + 1,
                           completions := s.h.completions + [Completion(front.comp, front.start, s.now)]))
  {
    var s1 := DeviceStep(c, s);
    var s2 := DeviceStep(c, s1);
    var s3 := DeviceStep(c, s2);
    assert DeviceSteps(c, s3, 1) == DeviceStep(c, s3);
    assert DeviceSteps(c, s2, 2) == DeviceStep(c, s3);
    assert DeviceSteps(c, s1, 3) == DeviceStep(c, s3);
  }

  /** Without one the poll comes at once, or after one look at the clock. */
  lemma NothingIsDue(c: Config, s: State)
    requires s.d.pc.Top? && (s.d.busy ==> s.now < s.d.nextTime)
    ensures DeviceSteps(c, s, if s.d.busy then 2 else 1) ==
              s.(d := s.d.(pc := Poll), h := s.h.(iterations := s.h.iterations + 1))
  {
    var s1 := DeviceStep(c, s);
    assert DeviceSteps(c, s1, 0) == s1;
    if s.d.busy {
      assert DeviceSteps(c, s1, 1) == DeviceStep(c, s1);
    }
  }

  /** A submission that finds room is accepted, and is due offload_time after the clock at its decision. */
  lemma SubmissionIsAccepted(c: Config, s: State)
    requires s.d.pc.Poll? && s.flag == Requested && s.d.inFlight < c.maxInflights
    ensures DeviceSteps(c, s, 5) ==
              var e := Entry(s.now, (s.now + c.offloadTime) % TWO64, s.address);
              s.(d := Device(Top, s.d.queue + [e], s.d.inFlight + 1, true,
                             if s.d.queue == [] then e.deadline else s.d.nextTime),
                 flag := Received, verdict := Accepted,
                 h := s.h.(decisions := s.h.decisions + [Accepted], enqueued := s.h.enqueued + [s.address]))
  {
    var s1 := DeviceStep(c, s);
    var s2 := DeviceStep(c, s1);
    var s3 := DeviceStep(c, s2);
    var s4 := DeviceStep(c, s3);
    assert DeviceSteps(c, s4, 1) == DeviceStep(c, s4);
    assert DeviceSteps(c, s3, 2) == DeviceStep(c, s4);
    assert DeviceSteps(c, s2, 3) == DeviceStep(c, s4);
    assert DeviceSteps(c, s1, 4) == DeviceStep(c, s4);
  }

  /** One that does not is refused, and changes nothing at the device. */
  lemma SubmissionIsRefused(c: Config, s: State)
    requires s.d.pc.Poll? && s.flag == Requested && s.d.inFlight >= c.maxInflights
    ensures DeviceSteps(c, s, 3) ==
              s.(d := s.d.(pc := Top), flag := Received, verdict := Refused,
                 h := s.h.(decisions := s.h.decisions + [Refused]))
  {
    var s1 := DeviceStep(c, s);
    var s2 := DeviceStep(c, s1);
    assert DeviceSteps(c, s2, 1) == DeviceStep(c, s2);
    assert DeviceSteps(c, s1, 2) == DeviceStep(c, s2);
  }

  // ----- a bound on the wait -----

  /** Entry `id` is still on the list, and it and all entries before it are due. */
  ghost predicate Due(s: State, id: nat) {
    var i := id - PoppedCount(s);
    0 <= i < |s.d.queue| && forall j :: 0 <= j <= i ==> s.d.queue[j].deadline <= s.now
  }

  /** The device has begun an iteration and not yet decided whether the oldest offload is due. */
  predicate StillChecking(pc: DevicePc) {
    pc.CheckClock? || pc.MarkCompleted?
  }

  /** Until record `id` is completed, one completion is written in every iteration finished since `base`. */
  ghost predicate KeepsPace(s: State, id: nat, done: nat, base: nat) {
    && base <= s.h.iterations
    && (|s.h.completions| <= id ==>
          && Due(s, id)
          && s.h.iterations - base - (if StillChecking(s.d.pc) then 1 else 0) <= |s.h.completions| - done)
  }

  lemma DeviceKeepsPace(c: Config, s: State, id: nat, done: nat, base: nat)
    requires Inv(c, s) && KeepsPace(s, id, done, base)
    ensures KeepsPace(DeviceStep(c, s), id, done, base)
  {
    hide CountsUp, WorkerOk, MailboxOk, RecordsOk, ClockOk;
    match s.d.pc {
      case Top =>
      case CheckClock =>
      case MarkCompleted(_) =>
      case Retire =>
      case Poll =>
      case Decide =>
      case ReadAddress(_) =>
      case AckAccept(_, _) =>
      case Enqueue(_, _) =>
      case AckRefuse =>
    }
  }

  lemma StepKeepsPace(c: Config, s: State, choice: Choice, id: nat, done: nat, base: nat)
    requires Inv(c, s) && KeepsPace(s, id, done, base)
    ensures KeepsPace(Step(c, s, choice), id, done, base)
  {
    hide Inv, DeviceStep;
    if choice.DeviceMoves? && !s.w.pc.Exited? {
      DeviceKeepsPace(c, s, id, done, base);
    } else if choice.WorkerMoves? {
      WorkerFrame(c, s);
      hide WorkerStep;
    }
  }

  lemma {:induction false} RunKeepsPace(c: Config, s: State, schedule: seq<Choice>, id: nat, done: nat, base: nat)
    requires Inv(c, s) && KeepsPace(s, id, done, base)
    ensures KeepsPace(Run(c, s, schedule), id, done, base)
  {
    hide Inv, KeepsPace, Step;
    if schedule == [] {
    } else {
      var n := |schedule| - 1;
      RunInv(c, s, schedule[..n]);
      RunKeepsPace(c, s, schedule[..n], id, done, base);
      StepKeepsPace(c, Run(c, s, schedule[..n]), schedule[n], id, done, base);
    }
  }

  lemma PlaceOnList(c: Config, s: State, p: nat)
    requires Inv(c, s) && p < |s.d.queue|
    ensures s.d.queue[p].comp == PoppedCount(s) + p < c.total && PoppedCount(s) <= |s.h.completions|
  {
    hide CountsUp, ClockOk;
  }

  lemma CompletedBelow(c: Config, s: State, id: nat)
    requires Inv(c, s) && id < c.total && id < |s.h.completions|
    ensures Record(s, id).Completed?
  {
    hide CountsUp, ClockOk, QueueOk, MailboxOk;
  }

  /**
   Once the offload at position `p` and those before it are due, it is completed by the time the device has carried
   out `p + 1` further iterations, whatever the worker and the clock do meanwhile.
   */
  lemma CompletesWithin(c: Config, s: State, p: nat, schedule: seq<Choice>)
    requires Inv(c, s) && s.d.pc.Top? && p < |s.d.queue|
    requires forall j :: 0 <= j <= p ==> s.d.queue[j].deadline <= s.now
    ensures var s' := Run(c, s, schedule);
            s'.h.iterations - (if StillChecking(s'.d.pc) then 1 else 0) >= s.h.iterations + p + 1
            ==> Record(s', s.d.queue[p].comp).Completed?
  {
    hide Run, Inv, Record;
    var id, done := s.d.queue[p].comp, |s.h.completions|;
    PlaceOnList(c, s, p);
    RunInv(c, s, schedule);
    RunKeepsPace(c, s, schedule, id, done, s.h.iterations);
    if |Run(c, s, schedule).h.completions| > id {
      CompletedBelow(c, Run(c, s, schedule), id);
    }
  }

  /** While no deadline has wrapped, an offload that is due has only due ones before it. */
  lemma DueInOrder(c: Config, s: State, p: nat)
    requires Inv(c, s) && s.now + c.offloadTime < TWO64
    requires p < |s.d.queue| && s.d.queue[p].deadline <= s.now
    ensures forall j :: 0 <= j <= p ==> s.d.queue[j].deadline <= s.now
  {
    hide CountsUp, WorkerOk, MailboxOk, QueueOk, RecordsOk;
    forall j | 0 <= j <= p ensures s.d.queue[j].deadline <= s.now {
      assert j == p || s.d.queue[j].start <= s.d.queue[p].start;
    }
  }
}
