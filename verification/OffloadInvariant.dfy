/** What every step of the worker and of the emulated accelerator keeps. */
module OffloadInvariant {
  import opened Words
  import opened Offload

  // ----- counters read off the history -----

  /** Submissions the device has accepted: all decisions, unless the last one is a refusal. */
  function AcceptedCount(s: State): nat {
    var k := |s.h.decisions|;
    if k > 0 && s.h.decisions[k - 1].Refused? then k - 1 else k
  }

  /** Entries popped from the device's list; the pop follows the completion write. */
  function PoppedCount(s: State): int {
    |s.h.completions| - if s.d.pc.Retire? then 1 else 0
  }

  /** The device is between the decision and the acknowledgement. */
  predicate Deciding(pc: DevicePc) {
    pc.ReadAddress? || pc.AckAccept? || pc.AckRefuse?
  }

  /** The device has accepted an offload that is not yet on its list. */
  predicate Pushing(pc: DevicePc) {
    pc.ReadAddress? || pc.AckAccept? || pc.Enqueue?
  }

  /** submit_offload has raised the flag and not yet returned. */
  predicate InMailbox(pc: WorkerPc) {
    pc.AwaitFlag? || pc.ReadVerdict?
  }

  predicate LastAccepted(s: State) {
    var k := |s.h.decisions|;
    k > 0 && s.h.decisions[k - 1].Accepted?
  }

  predicate LastRefused(s: State) {
    var k := |s.h.decisions|;
    k > 0 && s.h.decisions[k - 1].Refused?
  }

  ghost predicate CountsUp(ids: seq<nat>) {
    forall i :: 0 <= i < |ids| ==> ids[i] == i
  }

  lemma CountsUpExtends(ids: seq<nat>)
    ensures CountsUp(ids) ==> CountsUp(ids + [|ids|])
  {
  }

  // ----- the invariant, one concern at a time -----

  /** The worker's program counter, its indices and the number of submissions. */
  ghost predicate WorkerOk(c: Config, s: State) {
    var w, n, r := s.w, |s.h.submitted|, |s.h.returned|;
    && w.started <= c.total && |s.records| == c.total
    && CountsUp(s.h.submitted)
    && r == (if InMailbox(w.pc) then n - 1 else n)
    && (match w.pc
        case LoopHead => n == w.started
        case WritePending => n == w.started < c.total
        case WriteAddress => n == w.started < c.total
        case RaiseFlag => n == w.started < c.total && s.address == w.started
        case AwaitFlag(retries) => n == w.started + 1 <= c.total && s.address == w.started && retries <= NUM_RETRIES
        case ReadVerdict(retries) => n == w.started + 1 <= c.total && s.address == w.started && retries <= NUM_RETRIES
        case AwaitRecord => n == w.started + 1 <= c.total && c.mode.Blocking?
        case PostProcess => n == (if c.mode.Blocking? then w.started + 1 else w.started) <= c.total
        case Finished => n == w.started && w.requestsCompleted == c.total
        case Exited => n == w.started + 1 <= c.total)
    && |s.h.processed| == w.requestsCompleted
    && CountsUp(s.h.processed)
    && (c.mode.Blocking? ==> w.completeIdx == 0 && w.requestsCompleted == w.started)
    && (c.mode.Yielding? ==> w.completeIdx == w.requestsCompleted <= w.started)
  }

  /** Flag, verdict and decisions: one decision per submission, and the flag is up exactly until it is acknowledged. */
  ghost predicate MailboxOk(c: Config, s: State) {
    var n, k, r := |s.h.submitted|, |s.h.decisions|, |s.h.returned|;
    && (s.flag.Requested? ==> s.w.pc.AwaitFlag?)
    && (Deciding(s.d.pc) ==> s.flag.Requested? && n == k)
    && (s.d.pc.Decide? ==> s.flag.Requested?)
    && (!Deciding(s.d.pc) ==> n == if s.flag.Requested? then k + 1 else k)
    && (s.w.pc.ReadVerdict? ==> s.flag.Received?)
    && (k > 0 ==> s.verdict == s.h.decisions[k - 1])
    && r <= k
    && (forall i :: 0 <= i < r ==> s.h.returned[i] == s.h.decisions[i])
    && (forall i :: 0 <= i < k - 1 ==> s.h.decisions[i].Accepted?)
    && (!s.w.pc.Exited? && r == k ==> !LastRefused(s))
    && (s.w.pc.Exited? ==> k == n && LastRefused(s))
    && (s.w.pc.AwaitFlag? && s.w.pc.retries < NUM_RETRIES ==> s.flag.Received? && LastRefused(s))
    && (s.w.pc.ReadVerdict? && s.w.pc.retries < NUM_RETRIES ==> LastRefused(s))
  }

  /** The device's list holds exactly the accepted, unretired records, in order. */
  ghost predicate QueueOk(c: Config, s: State) {
    var d, e, q, a := s.d, |s.h.enqueued|, |s.h.completions|, AcceptedCount(s);
    && e == (if Pushing(d.pc) then a - 1 else a)
    && (Pushing(d.pc) ==> LastAccepted(s) && d.inFlight < c.maxInflights)
    && (d.pc.AckRefuse? ==> LastRefused(s))
    && (d.pc.AckAccept? ==> d.pc.comp == e)
    && (d.pc.Enqueue? ==> d.pc.comp == e)
    && CountsUp(s.h.enqueued)
    && (forall i :: 0 <= i < q ==> s.h.completions[i].comp == i)
    && 0 <= PoppedCount(s) <= q <= e
    && |d.queue| == e - PoppedCount(s)
    && (forall i :: 0 <= i < |d.queue| ==> d.queue[i].comp == PoppedCount(s) + i)
    && d.inFlight == |d.queue|
    && (d.queue != [] ==> |d.queue| <= c.maxInflights)
    && (d.busy <==> d.queue != [])
    && (d.busy ==> d.nextTime == d.queue[0].deadline)
    && (d.pc.CheckClock? || d.pc.MarkCompleted? || d.pc.Retire? ==> d.queue != [])
  }

  /** A record is marked completed exactly when the device has said so; the worker only moves on past such records. */
  ghost predicate RecordsOk(c: Config, s: State) {
    var w, q := s.w, |s.h.completions|;
    && q <= c.total && q <= |s.h.submitted|
    && (forall i :: 0 <= i < |s.records| ==> (s.records[i].Completed? <==> i < q))
    && (c.mode.Yielding? ==> w.completeIdx <= q)
    && (c.mode.Yielding? && w.pc.PostProcess? ==> w.completeIdx < q)
    && (c.mode.Blocking? ==> w.started <= q)
    && (c.mode.Blocking? && w.pc.PostProcess? ==> w.started < q)
  }

  /** Start times the device still holds. */
  function HeldStart(s: State): nat {
    match s.d.pc
    case ReadAddress(start) => start
    case AckAccept(start, _) => start
    case Enqueue(start, _) => start
    case _ => s.now
  }

  /** Deadlines, while the 64-bit clock has not wrapped. */
  ghost predicate ClockOk(c: Config, s: State) {
    s.now + c.offloadTime < TWO64 ==>
      var d := s.d;
      && HeldStart(s) <= s.now
      && (forall i :: 0 <= i < |d.queue| ==>
            d.queue[i].deadline == d.queue[i].start + c.offloadTime && d.queue[i].start <= HeldStart(s))
      && (forall i, j :: 0 <= i < j < |d.queue| ==> d.queue[i].start <= d.queue[j].start)
      && (d.pc.MarkCompleted? && d.queue != [] ==> d.queue[0].deadline <= d.pc.cur <= s.now)
      && (forall i :: 0 <= i < |s.h.completions| ==>
            s.h.completions[i].start + c.offloadTime <= s.h.completions[i].at <= s.now)
  }

  ghost predicate Inv(c: Config, s: State) {
    WorkerOk(c, s) && MailboxOk(c, s) && QueueOk(c, s) && RecordsOk(c, s) && ClockOk(c, s)
  }

  lemma InitInv(c: Config, now: nat)
    ensures Inv(c, Init(c, now))
  {
  }

  // ----- what a step leaves alone -----

  lemma WorkerFrame(c: Config, s: State)
    ensures var s' := WorkerStep(c, s);
            && s'.d == s.d && s'.now == s.now && s'.verdict == s.verdict && |s'.records| == |s.records|
            && s'.h.decisions == s.h.decisions && s'.h.enqueued == s.h.enqueued
            && s'.h.completions == s.h.completions && s'.h.iterations == s.h.iterations
            && (s'.flag == s.flag || s.w.pc.RaiseFlag?)
            && (s'.address == s.address || s.w.pc.WriteAddress?)
            && (s'.records == s.records || s.w.pc.WritePending?)
  {
  }

  lemma DeviceFrame(c: Config, s: State)
    ensures var s' := DeviceStep(c, s);
            && s'.w == s.w && s'.now == s.now && s'.address == s.address && |s'.records| == |s.records|
            && s'.h.submitted == s.h.submitted && s'.h.returned == s.h.returned && s'.h.processed == s.h.processed
            && (s'.records == s.records || s.d.pc.MarkCompleted?)
            && (s'.h.completions == s.h.completions || s.d.pc.MarkCompleted?)
  {
  }

  /** Steps that leave decisions and the flag alone do not enter or leave the deciding phase either. */
  lemma DeviceMailboxFrame(c: Config, s: State)
    requires !s.d.pc.Decide? && !s.d.pc.AckAccept? && !s.d.pc.AckRefuse?
    ensures var s' := DeviceStep(c, s);
            && s'.flag == s.flag && s'.verdict == s.verdict && s'.h.decisions == s.h.decisions
            && (Deciding(s'.d.pc) <==> Deciding(s.d.pc))
            && (s'.d.pc.Decide? ==> s.flag.Requested?)
  {
  }

  lemma DeviceQueueFrame(c: Config, s: State)
    requires !s.d.pc.MarkCompleted? && !s.d.pc.Retire? && !s.d.pc.Enqueue? && !s.d.pc.Decide?
    ensures var s' := DeviceStep(c, s);
            && s'.d == s.d.(pc := s'.d.pc) && !s'.d.pc.Retire?
            && s'.h.enqueued == s.h.enqueued && s'.h.completions == s.h.completions && s'.h.decisions == s.h.decisions
            && (s'.d.pc.CheckClock? || s'.d.pc.MarkCompleted? ==> s.d.busy || s.d.pc.CheckClock?)
            && (Pushing(s'.d.pc) <==> Pushing(s.d.pc)) && !s'.d.pc.AckRefuse?
            && (s'.d.pc.AckAccept? ==> s.d.pc.ReadAddress? && s'.d.pc.comp == s.address)
            && (s'.d.pc.Enqueue? ==> s.d.pc.AckAccept? && s'.d.pc.comp == s.d.pc.comp)
  {
  }

  lemma WorkerMailboxFrame(c: Config, s: State)
    requires !s.w.pc.RaiseFlag? && !InMailbox(s.w.pc)
    ensures var s' := WorkerStep(c, s);
            && s'.flag == s.flag && s'.h.submitted == s.h.submitted && s'.h.returned == s.h.returned
            && !InMailbox(s'.w.pc) && (s'.w.pc.Exited? <==> s.w.pc.Exited?)
  {
  }

  // ----- every step keeps the invariant -----

  lemma WorkerKeepsWorker(c: Config, s: State)
    requires Inv(c, s) && !s.w.pc.Exited?
    ensures WorkerOk(c, WorkerStep(c, s))
  {
    hide CountsUp, QueueOk, ClockOk;
    WorkerFrame(c, s);
    CountsUpExtends(s.h.submitted);
    CountsUpExtends(s.h.processed);
    match s.w.pc {
      case LoopHead =>
      case WritePending =>
      case WriteAddress =>
      case RaiseFlag =>
      case AwaitFlag(_) =>
      case ReadVerdict(_) =>
      case AwaitRecord =>
      case PostProcess =>
      case Finished =>
    }
  }

  lemma SubmitKeepsMailbox(c: Config, s: State)
    requires Inv(c, s) && (s.w.pc.RaiseFlag? || s.w.pc.AwaitFlag?)
    ensures MailboxOk(c, WorkerStep(c, s))
  {
    hide CountsUp, QueueOk, ClockOk, RecordsOk;
  }

  lemma VerdictKeepsMailbox(c: Config, s: State)
    requires Inv(c, s) && s.w.pc.ReadVerdict?
    ensures MailboxOk(c, WorkerStep(c, s))
  {
    hide CountsUp, QueueOk, ClockOk, RecordsOk;
  }

  lemma WorkerKeepsMailbox(c: Config, s: State)
    requires Inv(c, s) && !s.w.pc.Exited?
    ensures MailboxOk(c, WorkerStep(c, s))
  {
    if s.w.pc.RaiseFlag? || s.w.pc.AwaitFlag? {
      SubmitKeepsMailbox(c, s);
    } else if s.w.pc.ReadVerdict? {
      VerdictKeepsMailbox(c, s);
    } else {
      WorkerFrame(c, s);
      WorkerMailboxFrame(c, s);
      hide WorkerStep, CountsUp, RecordsOk, ClockOk, WorkerOk, QueueOk;
    }
  }

  lemma WorkerKeepsQueue(c: Config, s: State)
    requires Inv(c, s) && !s.w.pc.Exited?
    ensures QueueOk(c, WorkerStep(c, s)) && ClockOk(c, WorkerStep(c, s))
  {
    WorkerFrame(c, s);
    hide WorkerStep, CountsUp, WorkerOk, MailboxOk, RecordsOk;
  }

  lemma WorkerKeepsRecords(c: Config, s: State)
    requires Inv(c, s) && !s.w.pc.Exited?
    ensures RecordsOk(c, WorkerStep(c, s))
  {
    hide CountsUp, ClockOk;
    match s.w.pc {
      case LoopHead =>
      case WritePending =>
      case WriteAddress =>
      case RaiseFlag =>
      case AwaitFlag(_) =>
      case ReadVerdict(_) =>
      case AwaitRecord =>
      case PostProcess =>
      case Finished =>
    }
  }

  lemma DeviceKeepsWorker(c: Config, s: State)
    requires Inv(c, s)
    ensures WorkerOk(c, DeviceStep(c, s))
  {
    DeviceFrame(c, s);
    hide DeviceStep, CountsUp, QueueOk, MailboxOk, RecordsOk, ClockOk;
  }

  lemma DecideKeepsMailbox(c: Config, s: State)
    requires Inv(c, s) && s.d.pc.Decide?
    ensures MailboxOk(c, DeviceStep(c, s))
  {
    hide CountsUp, RecordsOk, ClockOk, QueueOk;
  }

  lemma AckKeepsMailbox(c: Config, s: State)
    requires Inv(c, s) && (s.d.pc.AckAccept? || s.d.pc.AckRefuse?)
    ensures MailboxOk(c, DeviceStep(c, s))
  {
    hide CountsUp, RecordsOk, ClockOk;
  }

  lemma DeviceKeepsMailbox(c: Config, s: State)
    requires Inv(c, s) && !s.w.pc.Exited?
    ensures MailboxOk(c, DeviceStep(c, s))
  {
    if s.d.pc.Decide? {
      DecideKeepsMailbox(c, s);
    } else if s.d.pc.AckAccept? || s.d.pc.AckRefuse? {
      AckKeepsMailbox(c, s);
    } else {
      DeviceFrame(c, s);
      DeviceMailboxFrame(c, s);
      hide DeviceStep, CountsUp, RecordsOk, ClockOk, WorkerOk, QueueOk;
    }
  }

  /** While a decision is due, none has been a refusal. */
  lemma NoRefusalSoFar(c: Config, s: State)
    requires Inv(c, s) && s.d.pc.Decide? && !s.w.pc.Exited?
    ensures !LastRefused(s)
  {
    hide CountsUp, RecordsOk, ClockOk, QueueOk;
  }

  lemma DecideKeepsQueue(c: Config, s: State)
    requires Inv(c, s) && s.d.pc.Decide? && !s.w.pc.Exited?
    ensures QueueOk(c, DeviceStep(c, s))
  {
    hide CountsUp, RecordsOk, ClockOk, WorkerOk, MailboxOk;
    NoRefusalSoFar(c, s);
  }

  lemma EnqueueKeepsQueue(c: Config, s: State)
    requires Inv(c, s) && s.d.pc.Enqueue?
    ensures QueueOk(c, DeviceStep(c, s))
  {
    hide CountsUp, RecordsOk, ClockOk, WorkerOk, MailboxOk;
    CountsUpExtends(s.h.enqueued);
  }

  lemma RetireKeepsQueue(c: Config, s: State)
    requires Inv(c, s) && (s.d.pc.Retire? || s.d.pc.MarkCompleted?)
    ensures QueueOk(c, DeviceStep(c, s))
  {
    hide CountsUp, RecordsOk, ClockOk, WorkerOk, MailboxOk;
  }

  lemma MovesKeepQueue(c: Config, s: State)
    requires Inv(c, s) && !s.w.pc.Exited?
    requires !s.d.pc.Decide? && !s.d.pc.Enqueue? && !s.d.pc.Retire? && !s.d.pc.MarkCompleted?
    ensures QueueOk(c, DeviceStep(c, s))
  {
    DeviceQueueFrame(c, s);
    hide DeviceStep, CountsUp, RecordsOk, ClockOk;
  }

  lemma DeviceKeepsQueue(c: Config, s: State)
    requires Inv(c, s) && !s.w.pc.Exited?
    ensures QueueOk(c, DeviceStep(c, s))
  {
    hide *;
    if s.d.pc.Decide? {
      DecideKeepsQueue(c, s);
    } else if s.d.pc.Enqueue? {
      EnqueueKeepsQueue(c, s);
    } else if s.d.pc.Retire? || s.d.pc.MarkCompleted? {
      RetireKeepsQueue(c, s);
    } else {
      MovesKeepQueue(c, s);
    }
  }

  lemma DeviceKeepsRecords(c: Config, s: State)
    requires Inv(c, s) && !s.w.pc.Exited?
    ensures RecordsOk(c, DeviceStep(c, s))
  {
    hide CountsUp, ClockOk;
    DeviceFrame(c, s);
    if s.d.pc.MarkCompleted? {
    } else {
      hide DeviceStep;
    }
  }

  lemma QueueChangesKeepClock(c: Config, s: State)
    requires Inv(c, s) && (s.d.pc.Retire? || s.d.pc.MarkCompleted? || s.d.pc.Enqueue?)
    ensures ClockOk(c, DeviceStep(c, s))
  {
    hide CountsUp, RecordsOk, WorkerOk, MailboxOk;
    match s.d.pc {
      case MarkCompleted(_) =>
      case Retire =>
      case Enqueue(_, _) =>
    }
  }

  lemma QuietDevice(c: Config, s: State)
    requires !s.d.pc.Retire? && !s.d.pc.MarkCompleted? && !s.d.pc.Enqueue?
    ensures var s' := DeviceStep(c, s);
            && s'.d.queue == s.d.queue && s'.d.nextTime == s.d.nextTime && s'.d.busy == s.d.busy
            && s'.h.completions == s.h.completions && s'.now == s.now
            && (HeldStart(s) <= s.now ==> HeldStart(s) <= HeldStart(s') <= s.now)
            && (s'.d.pc.MarkCompleted? ==> s.d.pc.CheckClock? && s.d.nextTime <= s'.d.pc.cur == s.now)
  {
    match s.d.pc {
      case Top =>
      case CheckClock =>
      case Poll =>
      case Decide =>
      case ReadAddress(_) =>
      case AckAccept(_, _) =>
      case AckRefuse =>
    }
  }

  lemma DeviceKeepsClock(c: Config, s: State)
    requires Inv(c, s) && !s.w.pc.Exited?
    ensures ClockOk(c, DeviceStep(c, s))
  {
    if s.d.pc.Retire? || s.d.pc.MarkCompleted? || s.d.pc.Enqueue? {
      QueueChangesKeepClock(c, s);
    } else {
      QuietDevice(c, s);
      hide DeviceStep, HeldStart, CountsUp, RecordsOk, WorkerOk, MailboxOk;
    }
  }
}
