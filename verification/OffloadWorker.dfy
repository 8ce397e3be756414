/**
 The worker thread as the program writes it: submit_offload, the request functions and the executors' loops. Before each
 of the worker's accesses the other thread and the clock take a turn, and the program's state is at every access the
 state that this very schedule leads to.
 */
module OffloadWorker {
  import opened Interleaving
  import opened Words
  import opened Offload
  import opened OffloadInvariant
  import opened OffloadSafety
  import opened OffloadRefusal
  import opened OffloadProgress
  import opened OffloadTurns

  datatype Submission = Success | Failure | StillWaiting

  datatype Outcome = AllDone | Refusal | OutOfTurns

  /** What the other thread and the clock do between two accesses of the worker. */
  type Turn = t: seq<Choice> | forall i :: 0 <= i < |t| ==> !t[i].WorkerMoves? witness []

  /** The worker's next access. */
  lemma Accessed(c: Config, start: nat, given: seq<Turn>, n: nat, s': State)
    requires !Before(c, start, given, WorkerMoves, n).w.pc.Exited?
    requires s' == WorkerStep(c, Before(c, start, given, WorkerMoves, n))
    ensures s' == After(c, start, given, WorkerMoves, n + 1)
  {
    hide Before, After, WorkerStep;
    NextAccess(c, start, given, WorkerMoves, n);
  }

  // ----- turns -----

  /** A turn of the other thread and the clock. */
  function AfterOthers(c: Config, s: State, turn: Turn): State {
    if turn == [] then s else
      var earlier := AfterOthers(c, s, turn[..|turn| - 1]);
      match turn[|turn| - 1]
      case DeviceMoves => DeviceStep(c, earlier)
      case Tick(cycles) => earlier.(now := earlier.now + cycles)
  }

  /** A turn is a run in which the worker stands still. */
  lemma {:induction false} OthersMoved(c: Config, s: State, turn: Turn)
    requires !s.w.pc.Exited?
    ensures AfterOthers(c, s, turn) == Run(c, s, turn) && AfterOthers(c, s, turn).w == s.w
  {
    hide DeviceStep, WorkerStep;
    if turn == [] {
    } else {
      var n := |turn| - 1;
      OthersMoved(c, s, turn[..n]);
      DeviceFrame(c, AfterOthers(c, s, turn[..n]));
    }
  }

  /** The device and the clock do not depend on where the worker is. */
  lemma DeviceIgnoresWorker(c: Config, s: State, w: Worker)
    ensures DeviceStep(c, s.(w := w)) == DeviceStep(c, s).(w := w)
  {
    match s.d.pc {
      case Top =>
      case CheckClock =>
      case MarkCompleted(_) =>
      case Retire =>
      case Poll =>
      case Decide =>
      case ReadAddress(_) =>
      case AckAccept(_, _) =>
      case Enqueue(_, _) =>
      case AckRefuse =>
    }
  }

  lemma {:induction false} OthersIgnoreWorker(c: Config, s: State, w: Worker, turn: Turn)
    ensures AfterOthers(c, s.(w := w), turn) == AfterOthers(c, s, turn).(w := w)
  {
    hide DeviceStep;
    if turn == [] {
    } else {
      var n := |turn| - 1;
      OthersIgnoreWorker(c, s, w, turn[..n]);
      DeviceIgnoresWorker(c, AfterOthers(c, s, turn[..n]), w);
    }
  }

  // ----- fair turns, and how the loop ends -----

  /** Enough turns, each with a move of the device and a tick of the clock. */
  ghost predicate FairTurns(c: Config, given: seq<Turn>) {
    && |given| >= RoundsNeeded(c)
    && forall k :: 0 <= k < |given| ==>
         DeviceMoves in given[k] && exists cycles: nat :: cycles > 0 && Tick(cycles) in given[k]
  }

  lemma FairRounds(c: Config, given: seq<Turn>)
    requires FairTurns(c, given)
    ensures IsFair(c, Accesses(given, WorkerMoves, |given|))
  {
    hide RoundsNeeded;
    var rounds := Accesses(given, WorkerMoves, |given|);
    forall i | 0 <= i < |rounds| ensures IsRound(rounds[i]) {
      var cycles: nat :| cycles > 0 && Tick(cycles) in given[i];
      assert rounds[i] == given[i] + [WorkerMoves];
      assert Tick(cycles) in rounds[i] && DeviceMoves in rounds[i] && WorkerMoves in rounds[i];
    }
  }

  lemma {:induction false} EndedAfter(c: Config, start: nat, given: seq<Turn>, n: nat, m: nat)
    requires n <= m && Ended(After(c, start, given, WorkerMoves, n))
    ensures Ended(After(c, start, given, WorkerMoves, m))
    decreases m
  {
    hide Ended, Run, Concat;
    if n == m {
    } else {
      EndedAfter(c, start, given, n, m - 1);
      ConcatOneMore(given, WorkerMoves, m - 1);
      var earlier := Concat(Accesses(given, WorkerMoves, m - 1));
      RunInTwoParts(c, Init(c, start), earlier, TurnAt(given, m - 1) + [WorkerMoves]);
      EndedRunStays(c, After(c, start, given, WorkerMoves, m - 1), TurnAt(given, m - 1) + [WorkerMoves]);
    }
  }

  /** Fair turns do not run out before the loop has ended. */
  lemma FairTurnsSuffice(c: Config, start: nat, given: seq<Turn>, n: nat)
    requires n >= |given|
    ensures FairTurns(c, given) ==> Ended(After(c, start, given, WorkerMoves, n))
  {
    hide IsFair, FairTurns, Ended, Run;
    if FairTurns(c, given) {
      FairRounds(c, given);
      FairRunsEnd(c, start, Accesses(given, WorkerMoves, |given|));
      EndedAfter(c, start, given, |given|, n);
    }
  }

  lemma AllIsDone(c: Config, start: nat, given: seq<Turn>, n: nat)
    requires After(c, start, given, WorkerMoves, n).w.pc.Finished?
    ensures var s := After(c, start, given, WorkerMoves, n);
            && s.h.submitted == seq(c.total, i => i) && s.h.processed == seq(c.total, i => i)
            && |s.h.completions| == |s.records| == c.total
            && forall i :: 0 <= i < c.total ==> s.records[i] == Completed
  {
    FinishedMeansAllDone(c, start, Concat(Accesses(given, WorkerMoves, n)));
    AfterInv(c, start, given, WorkerMoves, n);
    var s := After(c, start, given, WorkerMoves, n);
    hide After, MailboxOk, QueueOk, RecordsOk, ClockOk, CountsUp;
    forall i | 0 <= i < c.total ensures s.records[i] == Completed {
      assert Record(s, i).Completed?;
    }
  }

  lemma RefusedForLackOfRoom(c: Config, start: nat, given: seq<Turn>, n: nat)
    requires After(c, start, given, WorkerMoves, n).w.pc.Exited?
    ensures !EnoughRoom(c)
  {
    hide EnoughRoom, Run, Concat;
    if EnoughRoom(c) {
      NeverRefused(c, start, Concat(Accesses(given, WorkerMoves, n)));
    }
  }

  // ----- what the invariant says where the program needs it -----

  lemma HeadInRange(c: Config, s: State)
    requires Inv(c, s) && s.w.pc.LoopHead? && c.mode.Yielding?
    ensures s.w.completeIdx == s.w.requestsCompleted && |s.records| == c.total
    ensures s.w.started <= c.total && s.w.completeIdx <= c.total
  {
  }

  lemma BlockingHead(c: Config, s: State)
    requires Inv(c, s) && s.w.pc.LoopHead? && c.mode.Blocking?
    ensures s.w.requestsCompleted == s.w.started <= c.total
  {
  }

  lemma AwaitedInRange(c: Config, s: State)
    requires Inv(c, s) && s.w.pc.AwaitRecord?
    ensures s.w.started < |s.records|
  {
  }

  /** The record being submitted exists. */
  lemma CompInRange(c: Config, s: State)
    requires Inv(c, s) && s.w.pc.WritePending?
    ensures s.w.started < |s.records|
  {
  }

  // ----- the program -----

  class Process {
    const c: Config
    const start: nat
    const given: seq<Turn>

    // shared with the accelerator
    var submitFlag: Flag
    var submitStatus: Verdict
    var complAddr: nat
    var comps: seq<RecordStatus>

    // the worker's own
    var nextUnstarted: nat
    var nextToComplete: nat
    var requestsCompleted: nat

    // the other thread, the clock, and how many accesses the worker has made
    var device: Device
    var now: nat
    var accesses: nat

    var history: History

    /** allocate_crs and the variables at their initial values, against an idle accelerator. */
    constructor (c: Config, start: nat, given: seq<Turn>)
      ensures this.c == c && this.start == start && this.given == given && accesses == 0
      ensures At(LoopHead)
    {
      this.c, this.start, this.given := c, start, given;
      submitFlag, submitStatus, complAddr := Received, Accepted, 0;
      nextUnstarted, nextToComplete, requestsCompleted := 0, 0, 0;
      device, now, accesses := Device(Top, [], 0, false, TWO64 - 1), start, 0;
      history := History([], [], [], [], [], [], 0);
      comps := seq(c.total, i => Pending);
      new;
      NoAccess(c, start, given, WorkerMoves);
    }

    /** The system while the worker is about to carry out the access at `pc`. */
    function View(pc: WorkerPc): State
      reads this
    {
      State(OwnState(pc), device, submitFlag, submitStatus, complAddr, comps, now, history)
    }

    function OwnState(pc: WorkerPc): Worker
      reads this
    {
      Worker(pc, nextUnstarted, nextToComplete, requestsCompleted)
    }

    /** The program stands at `pc`, in the state that the turns so far and its own accesses lead to. */
    ghost predicate At(pc: WorkerPc)
      reads this
    {
      View(pc) == After(c, start, given, WorkerMoves, accesses)
    }

    /** The same, with the others' next turn taken. */
    ghost predicate Interrupted(pc: WorkerPc)
      reads this
    {
      View(pc) == Before(c, start, given, WorkerMoves, accesses)
    }

    /** The loop has not ended and nothing has been refused. */
    ghost predicate Unfinished()
      reads this
    {
      !Ended(After(c, start, given, WorkerMoves, accesses))
    }

    /** The others' turn before the worker's next access. */
    method Others(ghost pc: WorkerPc)
      requires At(pc) && !pc.Exited?
      modifies this`device, this`now, this`history, this`submitFlag, this`submitStatus, this`complAddr, this`comps
      ensures Interrupted(pc)
      ensures Inv(c, View(pc))
    {
      hide Inv, AfterOthers, After;
      ghost var turn := TurnAt(given, accesses);
      OthersMoved(c, View(pc), turn);
      OthersIgnoreWorker(c, View(LoopHead), View(pc).w, turn);
      AfterInv(c, start, given, WorkerMoves, accesses);
      var s := AfterOthers(c, View(LoopHead), TurnAt(given, accesses));
      device, now, history := s.d, s.now, s.h;
      submitFlag, submitStatus, complAddr, comps := s.flag, s.verdict, s.address, s.records;
    }
  
    /** Where a successful submission leaves the worker. */
    function Returned(): State
      reads this
    {
      if c.mode.Blocking? then View(AwaitRecord)
      else View(LoopHead).(w := Worker(LoopHead, nextUnstarted + 1, nextToComplete, requestsCompleted))
    }

    /** `comp->status = COMP_STATUS_PENDING` */
    method MarkPending(comp: nat)
      requires At(WritePending) && comp == nextUnstarted
      modifies this
      ensures At(WriteAddress) && accesses == old(accesses) + 1 && OwnState(LoopHead) == old(OwnState(LoopHead))
    {
      hide Inv, After, Before;
      Others(WritePending);
      CompInRange(c, View(WritePending));
      comps := comps[comp := Pending];
      Accessed(c, start, given, accesses, View(WriteAddress));
      accesses := accesses + 1;
    }

    /** `compl_addr = (uint64_t)comp` */
    method PostAddress(comp: nat)
      requires At(WriteAddress) && comp == nextUnstarted
      modifies this
      ensures At(RaiseFlag) && accesses == old(accesses) + 1 && OwnState(LoopHead) == old(OwnState(LoopHead))
    {
      hide Inv, After, Before;
      Others(WriteAddress);
      complAddr := comp;
      Accessed(c, start, given, accesses, View(RaiseFlag));
      accesses := accesses + 1;
    }

    /** `submit_flag = OFFLOAD_REQUESTED` */
    method PostFlag(comp: nat)
      requires At(RaiseFlag) && comp == nextUnstarted
      modifies this
      ensures At(AwaitFlag(3)) && accesses == old(accesses) + 1
      ensures OwnState(LoopHead) == old(OwnState(LoopHead))
    {
      hide Inv, After, Before;
      Others(RaiseFlag);
      submitFlag := Requested;
      history := history.(submitted := history.submitted + [comp]);
      Accessed(c, start, given, accesses, View(AwaitFlag(NUM_RETRIES)));
      accesses := accesses + 1;
    }

    /** `submit_flag.load() == OFFLOAD_REQUESTED` */
    method PollFlag(ghost retries: nat) returns (up: bool)
      requires At(AwaitFlag(retries))
      modifies this
      ensures At(if up then AwaitFlag(retries) else ReadVerdict(retries)) && accesses == old(accesses) + 1
      ensures OwnState(LoopHead) == old(OwnState(LoopHead))
    {
      hide Inv, After, Before;
      Others(AwaitFlag(retries));
      up := submitFlag == Requested;
      Accessed(c, start, given, accesses, View(if up then AwaitFlag(retries) else ReadVerdict(retries)));
      accesses := accesses + 1;
    }

    /** The look at submit_status: retry, fail or succeed. */
    method CheckStatus(retriesRemaining: nat) returns (again: bool, status: Submission)
      requires At(ReadVerdict(retriesRemaining))
      modifies this
      ensures !again && status.Failure? ==> retriesRemaining == 0
      ensures again ==> retriesRemaining > 0 && At(AwaitFlag(retriesRemaining - 1))
      ensures !again && status.Success? ==> Returned() == After(c, start, given, WorkerMoves, accesses)
      ensures !again && status.Failure? ==> At(Exited)
      ensures !again ==> !status.StillWaiting?
      ensures accesses == old(accesses) + 1 && OwnState(LoopHead) == old(OwnState(LoopHead))
    {
      hide Inv, After, Before;
      Others(ReadVerdict(retriesRemaining));
      again := submitStatus == Refused && retriesRemaining > 0;
      if again {
        status := StillWaiting;
        Accessed(c, start, given, accesses, View(AwaitFlag(retriesRemaining - 1)));
      } else if retriesRemaining == 0 {
        status := Failure;
        history := history.(returned := history.returned + [Refused]);
        Accessed(c, start, given, accesses, View(Exited));
      } else {
        status := Success;
        history := history.(returned := history.returned + [Accepted]);
        Accessed(c, start, given, accesses, Returned());
      }
      accesses := accesses + 1;
    }

    /** submit_offload */
    method SubmitOffload() returns (status: Submission)
      requires At(WritePending)
      modifies this
      ensures status.Success? ==> Returned() == After(c, start, given, WorkerMoves, accesses)
      ensures status.Failure? ==> At(Exited) && accesses >= old(accesses) + 11
      ensures status.StillWaiting? ==> accesses >= |given| && Unfinished()
      ensures accesses >= old(accesses) + 4 && OwnState(LoopHead) == old(OwnState(LoopHead))
    {
      hide Inv, After, Before, WorkerStep;
      var comp := nextUnstarted;
      MarkPending(comp);
      PostAddress(comp);
      PostFlag(comp);
      var retriesRemaining: nat := NUM_RETRIES;
      while true // retry
        invariant At(AwaitFlag(retriesRemaining)) && retriesRemaining <= 3
        invariant accesses >= old(accesses) + 3 + 2 * (3 - retriesRemaining)
        invariant OwnState(LoopHead) == old(OwnState(LoopHead))
        decreases retriesRemaining, if accesses < |given| then |given| - accesses else 0
      {
        var noTurnsLeft := accesses >= |given|;
        var up := PollFlag(retriesRemaining);
        if up {
          if noTurnsLeft {
            return StillWaiting;
          }
          continue;
        }
        var again;
        again, status := CheckStatus(retriesRemaining);
        if !again {
          return;
        }
        retriesRemaining := retriesRemaining - 1;
      }
    }

    /** yielding_router_request from its resumption on: it counts itself and swaps back. */
    method ResumeYielding()
      requires c.mode.Yielding? && At(PostProcess)
      modifies this
      ensures At(LoopHead) && accesses == old(accesses) + 1
      ensures nextUnstarted == old(nextUnstarted) && nextToComplete == old(nextToComplete) + 1
    {
      hide Inv, After, Before;
      Others(PostProcess);
      history := history.(processed := history.processed + [nextToComplete]);
      requestsCompleted := requestsCompleted + 1;
      nextToComplete := nextToComplete + 1;
      Accessed(c, start, given, accesses, View(LoopHead));
      accesses := accesses + 1;
    }

    /** One turn of the yielding executors' loop: where its guard and its look at the oldest record lead. */
    method LookAtHead() returns (next: WorkerPc)
      requires c.mode.Yielding? && At(LoopHead)
      modifies this
      ensures At(next) && accesses == old(accesses) + 1 && OwnState(LoopHead) == old(OwnState(LoopHead))
      ensures next.Finished? || next.PostProcess? || next.WritePending? || next.LoopHead?
      ensures next.PostProcess? || next.WritePending? ==> 0 < 2 * c.total - nextUnstarted - nextToComplete
      ensures next.Finished? <==> nextToComplete == c.total
      ensures nextToComplete < c.total ==>
                && |comps| == c.total
                && (next.PostProcess? <==> comps[nextToComplete] == Completed)
                && (next.WritePending? <==> comps[nextToComplete] == Pending && nextUnstarted < c.total)
    {
      hide Inv, After, Before;
      Others(LoopHead);
      HeadInRange(c, View(LoopHead));
      if !(requestsCompleted < c.total) {
        next := Finished;
      } else if comps[nextToComplete] == Completed {
        next := PostProcess;
      } else if nextUnstarted < c.total {
        next := WritePending;
      } else {
        next := LoopHead;
      }
      Accessed(c, start, given, accesses, View(next));
      accesses := accesses + 1;
    }

    /**
     The yielding executors' loop. It either ends with every request submitted, completed and post-processed once, in
     index order; or with a refusal, which needs fewer places at the device than requests; or the given turns are used
     up first, which cannot happen if there are enough of them and each lets the device and the clock move.
     */
    method ExecuteYielding() returns (outcome: Outcome)
      requires c.mode.Yielding? && At(LoopHead)
      modifies this
      ensures outcome.AllDone? ==> At(Finished) && EverythingDone()
      ensures outcome.Refusal? ==> At(Exited) && !EnoughRoom(c)
      ensures outcome.OutOfTurns? ==> accesses >= |given| && Unfinished()
      ensures FairTurns(c, given) ==> !outcome.OutOfTurns? && (EnoughRoom(c) ==> outcome.AllDone?)
    {
      hide Inv, After, Before, EnoughRoom, FairTurns;
      while true
        invariant At(LoopHead)
        decreases 2 * c.total - nextUnstarted - nextToComplete, if accesses < |given| then |given| - accesses else 0
      {
        var noTurnsLeft := accesses >= |given|;
        var next := LookAtHead();
        match next {
          case Finished =>
            AllIsDone(c, start, given, accesses);
            return AllDone;
          case PostProcess =>
            ResumeYielding();
          case WritePending =>
            var status := SubmitOffload();
            if status.Failure? {
              RefusedForLackOfRoom(c, start, given, accesses);
              return Refusal;
            } else if status.StillWaiting? {
              FairTurnsSuffice(c, start, given, accesses);
              return OutOfTurns;
            }
            nextUnstarted := nextUnstarted + 1;
          case _ =>
            if noTurnsLeft {
              FairTurnsSuffice(c, start, given, accesses);
              return OutOfTurns;
            }
        }
      }
    }

    /** `while (comp->status == COMP_STATUS_PENDING)` of the blocking request. */
    method AwaitRecordOf(id: nat) returns (completed: bool)
      requires c.mode.Blocking? && At(AwaitRecord) && id == nextUnstarted
      modifies this
      ensures completed ==> At(PostProcess)
      ensures !completed ==> accesses >= |given| && Unfinished()
      ensures OwnState(LoopHead) == old(OwnState(LoopHead))
    {
      hide Inv, After, Before;
      while true
        invariant At(AwaitRecord) && OwnState(LoopHead) == old(OwnState(LoopHead))
        decreases if accesses < |given| then |given| - accesses else 0
      {
        var noTurnsLeft := accesses >= |given|;
        Others(AwaitRecord);
        AwaitedInRange(c, View(AwaitRecord));
        completed := comps[id] != Pending;
        Accessed(c, start, given, accesses, View(if completed then PostProcess else AwaitRecord));
        accesses := accesses + 1;
        if completed || noTurnsLeft {
          return;
        }
      }
    }

    /** `while (next_unstarted_req_idx < total_requests)` */
    method MoreToStart() returns (more: bool)
      requires c.mode.Blocking? && At(LoopHead)
      modifies this
      ensures At(if more then WritePending else Finished) && more == (nextUnstarted < c.total)
      ensures accesses == old(accesses) + 1 && OwnState(LoopHead) == old(OwnState(LoopHead))
    {
      hide Inv, After, Before;
      Others(LoopHead);
      BlockingHead(c, View(LoopHead));
      more := nextUnstarted < c.total;
      Accessed(c, start, given, accesses, View(if more then WritePending else Finished));
      accesses := accesses + 1;
    }

    /** blocking_router_request once its record is completed: it counts itself and swaps back. */
    method FinishBlocking()
      requires c.mode.Blocking? && At(PostProcess)
      modifies this
      ensures At(LoopHead) && accesses == old(accesses) + 1 && nextUnstarted == old(nextUnstarted) + 1
    {
      hide Inv, After, Before;
      Others(PostProcess);
      history := history.(processed := history.processed + [nextUnstarted]);
      requestsCompleted := requestsCompleted + 1;
      nextUnstarted := nextUnstarted + 1;
      Accessed(c, start, given, accesses, View(LoopHead));
      accesses := accesses + 1;
    }

    /** The blocking executors' loop over blocking_router_request, with the same three ends. */
    method ExecuteBlocking() returns (outcome: Outcome)
      requires c.mode.Blocking? && At(LoopHead)
      modifies this
      ensures outcome.AllDone? ==> At(Finished) && EverythingDone()
      ensures outcome.Refusal? ==> At(Exited) && !EnoughRoom(c)
      ensures outcome.OutOfTurns? ==> accesses >= |given| && Unfinished()
      ensures FairTurns(c, given) ==> !outcome.OutOfTurns? && (EnoughRoom(c) ==> outcome.AllDone?)
    {
      hide Inv, After, Before, EnoughRoom, FairTurns, WorkerStep;
      while true
        invariant At(LoopHead)
        decreases c.total - nextUnstarted
      {
        var more := MoreToStart();
        if !more {
          AllIsDone(c, start, given, accesses);
          return AllDone;
        }
        var status := SubmitOffload();
        if status.Failure? {
          RefusedForLackOfRoom(c, start, given, accesses);
          return Refusal;
        }
        var completed := false;
        if status.Success? {
          completed := AwaitRecordOf(nextUnstarted);
        }
        if !completed {
          FairTurnsSuffice(c, start, given, accesses);
          return OutOfTurns;
        }
        FinishBlocking();
      }
    }

    /** Every request has been submitted, completed and post-processed, once each and in index order. */
    ghost predicate EverythingDone()
      reads this
    {
      && history.submitted == seq(c.total, i => i)
      && history.processed == seq(c.total, i => i)
      && |history.completions| == |comps| == c.total
      && forall i :: 0 <= i < c.total ==> comps[i] == Completed
    }
  }
}
