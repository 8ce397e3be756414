/**
 The accelerator thread as the program writes it. Before each of its accesses the worker and the clock take a turn, and
 the program's state is at every access the state that this very schedule leads to, until the process ends.
 */
module EmulAx {
  import opened Interleaving
  import opened Words
  import opened Offload
  import opened OffloadInvariant
  import opened OffloadSafety
  import opened OffloadDevice
  import opened OffloadTurns

  /** What the worker and the clock do between two accesses of the accelerator. */
  type Turn = t: seq<Choice> | forall i :: 0 <= i < |t| ==> !t[i].DeviceMoves? witness []

  // ----- turns -----

  /** The worker does not depend on where the accelerator is, nor does it count the accelerator's iterations. */
  lemma WorkerIgnoresDevice(c: Config, s: State, d: Device)
    ensures WorkerStep(c, s.(d := d)) == WorkerStep(c, s).(d := d)
    ensures WorkerStep(c, s).d == s.d && WorkerStep(c, s).h.iterations == s.h.iterations
  {
  }

  lemma StepIgnoresDevice(c: Config, s: State, d: Device, choice: Choice)
    requires !choice.DeviceMoves?
    ensures Step(c, s.(d := d), choice) == Step(c, s, choice).(d := d)
    ensures Step(c, s, choice).d == s.d && Step(c, s, choice).h.iterations == s.h.iterations
  {
    hide WorkerStep, DeviceStep;
    WorkerIgnoresDevice(c, s, d);
  }

  lemma {:induction false} TurnIgnoresDevice(c: Config, s: State, d: Device, turn: Turn)
    ensures Run(c, s.(d := d), turn) == Run(c, s, turn).(d := d)
    ensures Run(c, s, turn).d == s.d && Run(c, s, turn).h.iterations == s.h.iterations
  {
    hide Step;
    if turn == [] {
    } else {
      var n := |turn| - 1;
      TurnIgnoresDevice(c, s, d, turn[..n]);
      StepIgnoresDevice(c, Run(c, s, turn[..n]), d, turn[n]);
    }
  }

  /** The accelerator's next access. */
  lemma Accessed(c: Config, start: nat, given: seq<Turn>, n: nat, s': State)
    requires !Before(c, start, given, DeviceMoves, n).w.pc.Exited?
    requires s' == DeviceStep(c, Before(c, start, given, DeviceMoves, n))
    ensures s' == After(c, start, given, DeviceMoves, n + 1)
  {
    hide Before, After, DeviceStep;
    NextAccess(c, start, given, DeviceMoves, n);
  }

  /** The offload whose time is up is on the list, and so is its record. */
  lemma FrontExists(c: Config, s: State)
    requires Inv(c, s) && (s.d.pc.MarkCompleted? || s.d.pc.Retire?)
    ensures s.d.queue != []
    ensures s.d.pc.MarkCompleted? ==> s.d.queue[0].comp < |s.records|
  {
    hide CountsUp, ClockOk;
  }

  /** The step that pushes an entry. */
  lemma Pushed(c: Config, s: State, compTime: nat)
    requires s.d.pc.Enqueue? && compTime == (s.d.pc.start + c.offloadTime) % TWO64
    ensures DeviceStep(c, s) ==
              var queue := s.d.queue + [Entry(s.d.pc.start, compTime, s.d.pc.comp)];
              s.(d := Device(Top, queue, s.d.inFlight + 1, true, if |queue| == 1 then compTime else s.d.nextTime),
                 h := s.h.(enqueued := s.h.enqueued + [s.d.pc.comp]))
  {
  }

  ghost predicate DueUpTo(s: State, p: nat) {
    p < |s.d.queue| && forall j :: 0 <= j <= p ==> s.d.queue[j].deadline <= s.now
  }

  // ----- the program -----

  class Accelerator {
    const c: Config
    const start: nat
    const given: seq<Turn>

    // locals of the device thread
    var inFlightList: seq<Entry>
    var inFlight: int
    var offloadInFlight: bool
    var nextCompletionTime: nat

    // shared with the worker
    var submitFlag: Flag
    var submitStatus: Verdict
    var complAddr: nat
    var records: seq<RecordStatus>

    // the other thread, the clock, and how many accesses the accelerator has made
    var worker: Worker
    var now: nat
    var accesses: nat

    var history: History

    constructor (c: Config, start: nat, given: seq<Turn>)
      ensures this.c == c && this.start == start && this.given == given && accesses == 0
      ensures At(Top)
    {
      this.c, this.start, this.given := c, start, given;
      inFlightList, inFlight, offloadInFlight, nextCompletionTime := [], 0, false, TWO64 - 1;
      submitFlag, submitStatus, complAddr := Received, Accepted, 0;
      records := seq(c.total, i => Pending);
      worker, now, accesses := Worker(LoopHead, 0, 0, 0), start, 0;
      history := History([], [], [], [], [], [], 0);
      new;
      NoAccess(c, start, given, DeviceMoves);
    }

    /** The system while the accelerator is about to carry out the access at `pc`. */
    function View(pc: DevicePc): State
      reads this
    {
      State(worker, Device(pc, inFlightList, inFlight, offloadInFlight, nextCompletionTime),
            submitFlag, submitStatus, complAddr, records, now, history)
    }

    /** The program stands at `pc`, in the state that the turns so far and its own accesses lead to. */
    ghost predicate At(pc: DevicePc)
      reads this
    {
      View(pc) == After(c, start, given, DeviceMoves, accesses)
    }

    /** The same, with the others' next turn taken. */
    ghost predicate Interrupted(pc: DevicePc)
      reads this
    {
      View(pc) == Before(c, start, given, DeviceMoves, accesses) && !worker.pc.Exited?
    }

    /** During the turn before the next access the worker has ended the process. */
    ghost predicate ProcessEnded()
      reads this
    {
      Before(c, start, given, DeviceMoves, accesses).w.pc.Exited?
    }

    /** The others' turn before the accelerator's next access. */
    method Others(ghost pc: DevicePc) returns (alive: bool)
      requires At(pc)
      modifies this`worker, this`now, this`history, this`submitFlag, this`submitStatus, this`complAddr, this`records
      ensures alive ==> Interrupted(pc) && Inv(c, View(pc))
      ensures !alive ==> ProcessEnded()
      ensures history.iterations == old(history.iterations)
    {
      hide Inv, Run, After;
      ghost var turn := TurnAt(given, accesses);
      TurnIgnoresDevice(c, View(Top), View(pc).d, turn);
      AfterInv(c, start, given, DeviceMoves, accesses);
      var s := Run(c, View(Top), TurnAt(given, accesses));
      worker, now, history := s.w, s.now, s.h;
      submitFlag, submitStatus, complAddr, records := s.flag, s.verdict, s.address, s.records;
      alive := !worker.pc.Exited?;
    }

    /** `if(offload_in_flight)` */
    method LookForOffloads() returns (alive: bool)
      requires At(Top)
      modifies this
      ensures alive ==> At(if offloadInFlight then CheckClock else Poll)
      ensures alive ==> history.iterations == old(history.iterations) + 1
      ensures accesses >= old(accesses)
      ensures !alive ==> ProcessEnded()
    {
      hide Inv, After, Before;
      alive := Others(Top);
      if alive {
        history := history.(iterations := history.iterations + 1);
        Accessed(c, start, given, accesses, View(if offloadInFlight then CheckClock else Poll));
        accesses := accesses + 1;
      }
    }

    /** `cur_time >= next_offload_completion_time` */
    method CheckTime() returns (alive: bool, due: bool, curTime: nat)
      requires At(CheckClock)
      modifies this
      ensures alive ==> At(if due then MarkCompleted(curTime) else Poll)
      ensures history.iterations == old(history.iterations) && accesses >= old(accesses)
      ensures !alive ==> ProcessEnded()
    {
      hide Inv, After, Before;
      alive := Others(CheckClock);
      curTime := now;
      due := curTime >= nextCompletionTime;
      if alive {
        Accessed(c, start, given, accesses, View(if due then MarkCompleted(curTime) else Poll));
        accesses := accesses + 1;
      }
    }

    /** `next_completed_offload_comp->status = COMP_STATUS_COMPLETED` */
    method NotifyOffloader(curTime: nat) returns (alive: bool)
      requires At(MarkCompleted(curTime))
      modifies this
      ensures alive ==> At(Retire)
      ensures history.iterations == old(history.iterations) && accesses >= old(accesses)
      ensures !alive ==> ProcessEnded()
    {
      hide Inv, After, Before;
      alive := Others(MarkCompleted(curTime));
      if alive {
        FrontExists(c, View(MarkCompleted(curTime)));
        var front := inFlightList[0];
        records := records[front.comp := Completed];
        history := history.(completions := history.completions + [Completion(front.comp, front.start, curTime)]);
        Accessed(c, start, given, accesses, View(Retire));
        accesses := accesses + 1;
      }
    }

    method PopEntry()
      requires inFlightList != []
      modifies this`inFlightList, this`inFlight, this`offloadInFlight, this`nextCompletionTime
      ensures View(Poll) == DeviceStep(c, old(View(Retire)))
    {
      inFlight := inFlight - 1;
      inFlightList := inFlightList[1..];
      if |inFlightList| > 0 {
        offloadInFlight := true;
        nextCompletionTime := inFlightList[0].deadline;
      } else {
        offloadInFlight := false;
      }
    }

    /** `in_flight--`, `pop_front()`, and the time of the next offload, if there is one. */
    method RetireFront() returns (alive: bool)
      requires At(Retire)
      modifies this
      ensures alive ==> At(Poll)
      ensures history.iterations == old(history.iterations) && accesses >= old(accesses)
      ensures !alive ==> ProcessEnded()
    {
      hide Inv, After, Before, DeviceStep;
      alive := Others(Retire);
      if alive {
        FrontExists(c, View(Retire));
        PopEntry();
        Accessed(c, start, given, accesses, View(Poll));
        accesses := accesses + 1;
      }
    }

    /** The first half of the loop body: hand back the oldest offload if its time is up. */
    method CompleteIfDue() returns (alive: bool)
      requires At(Top)
      modifies this
      ensures alive ==> At(Poll) && history.iterations == old(history.iterations) + 1
      ensures accesses >= old(accesses)
      ensures !alive ==> ProcessEnded()
    {
      hide Inv, After, DeviceStep;
      alive := LookForOffloads();
      if alive && offloadInFlight {
        var due, curTime;
        alive, due, curTime := CheckTime();
        if alive && due {
          alive := NotifyOffloader(curTime);
          if alive {
            alive := RetireFront();
          }
        }
      }
    }

    /** `submit_flag.load() == OFFLOAD_REQUESTED` */
    method PollFlag() returns (alive: bool, requested: bool)
      requires At(Poll)
      modifies this
      ensures alive ==> At(if requested then Decide else Top)
      ensures history.iterations == old(history.iterations) && accesses >= old(accesses)
      ensures !alive ==> ProcessEnded()
    {
      hide Inv, After, Before;
      alive := Others(Poll);
      requested := submitFlag == Requested;
      if alive {
        Accessed(c, start, given, accesses, View(if requested then Decide else Top));
        accesses := accesses + 1;
      }
    }

    /** The start time, and the verdict on the submission. */
    method DecideOnSubmission() returns (alive: bool, accepted: bool, startTime: nat)
      requires At(Decide)
      modifies this
      ensures alive ==> At(if accepted then ReadAddress(startTime) else AckRefuse)
      ensures history.iterations == old(history.iterations) && accesses >= old(accesses)
      ensures !alive ==> ProcessEnded()
    {
      hide Inv, After, Before;
      alive := Others(Decide);
      startTime := now;
      accepted := inFlight < c.maxInflights;
      if alive {
        submitStatus := if accepted then Accepted else Refused;
        history := history.(decisions := history.decisions + [submitStatus]);
        Accessed(c, start, given, accesses, View(if accepted then ReadAddress(startTime) else AckRefuse));
        accesses := accesses + 1;
      }
    }

    /** `compl_addr.load()` */
    method LoadAddress(startTime: nat) returns (alive: bool, comp: nat)
      requires At(ReadAddress(startTime))
      modifies this
      ensures alive ==> At(AckAccept(startTime, comp))
      ensures history.iterations == old(history.iterations) && accesses >= old(accesses)
      ensures !alive ==> ProcessEnded()
    {
      hide Inv, After, Before;
      alive := Others(ReadAddress(startTime));
      comp := complAddr;
      if alive {
        Accessed(c, start, given, accesses, View(AckAccept(startTime, comp)));
        accesses := accesses + 1;
      }
    }

    /** `submit_flag = OFFLOAD_RECEIVED` for an accepted submission. */
    method Acknowledge(startTime: nat, comp: nat) returns (alive: bool)
      requires At(AckAccept(startTime, comp))
      modifies this
      ensures alive ==> At(Enqueue(startTime, comp))
      ensures history.iterations == old(history.iterations) && accesses >= old(accesses)
      ensures !alive ==> ProcessEnded()
    {
      hide Inv, After, Before;
      alive := Others(AckAccept(startTime, comp));
      if alive {
        submitFlag := Received;
        Accessed(c, start, given, accesses, View(Enqueue(startTime, comp)));
        accesses := accesses + 1;
      }
    }

    method PushEntry(startTime: nat, comp: nat)
      modifies this`inFlightList, this`inFlight, this`offloadInFlight, this`nextCompletionTime, this`history
      ensures View(Top) == DeviceStep(c, old(View(Enqueue(startTime, comp))))
      ensures history.iterations == old(history.iterations)
    {
      hide DeviceStep;
      var compTime := (startTime + c.offloadTime) % TWO64;
      Pushed(c, View(Enqueue(startTime, comp)), compTime);
      inFlightList := inFlightList + [Entry(startTime, compTime, comp)];
      history := history.(enqueued := history.enqueued + [comp]);
      inFlight := inFlight + 1;
      offloadInFlight := true;
      if |inFlightList| == 1 {
        nextCompletionTime := compTime;
      }
    }

    /** The new entry at the back of the list. */
    method PushBack(startTime: nat, comp: nat) returns (alive: bool)
      requires At(Enqueue(startTime, comp))
      modifies this
      ensures alive ==> At(Top)
      ensures history.iterations == old(history.iterations) && accesses >= old(accesses)
      ensures !alive ==> ProcessEnded()
    {
      hide Inv, After, Before, DeviceStep;
      alive := Others(Enqueue(startTime, comp));
      if alive {
        PushEntry(startTime, comp);
        Accessed(c, start, given, accesses, View(Top));
        accesses := accesses + 1;
      }
    }

    /** `submit_flag = OFFLOAD_RECEIVED` for a refused submission. */
    method AcknowledgeRefusal() returns (alive: bool)
      requires At(AckRefuse)
      modifies this
      ensures alive ==> At(Top)
      ensures history.iterations == old(history.iterations) && accesses >= old(accesses)
      ensures !alive ==> ProcessEnded()
    {
      hide Inv, After, Before;
      alive := Others(AckRefuse);
      if alive {
        submitFlag := Received;
        Accessed(c, start, given, accesses, View(Top));
        accesses := accesses + 1;
      }
    }

    /** The second half of the loop body: accept or refuse a pending submission. */
    method AnswerSubmission() returns (alive: bool)
      requires At(Poll)
      modifies this
      ensures alive ==> At(Top) && history.iterations == old(history.iterations)
      ensures accesses >= old(accesses)
      ensures !alive ==> ProcessEnded()
    {
      hide Inv, After, DeviceStep;
      var requested;
      alive, requested := PollFlag();
      if alive && requested {
        var accepted, startTime;
        alive, accepted, startTime := DecideOnSubmission();
        if alive && accepted {
          var comp;
          alive, comp := LoadAddress(startTime);
          if alive {
            alive := Acknowledge(startTime, comp);
            if alive {
              alive := PushBack(startTime, comp);
            }
          }
        } else if alive {
          alive := AcknowledgeRefusal();
        }
      }
    }

    /** The body of `while (*keep_running)`, whatever the worker and the clock do in the meantime. */
    method Iterate() returns (alive: bool)
      requires At(Top)
      modifies this
      ensures alive ==> At(Top) && history.iterations == old(history.iterations) + 1
      ensures accesses >= old(accesses)
      ensures !alive ==> ProcessEnded()
    {
      hide Inv, After, DeviceStep;
      alive := CompleteIfDue();
      if alive {
        alive := AnswerSubmission();
      }
    }

    /**
     The loop, for as often as `keep_running` is found set. It hands back what is due: the offload at position `p` is
     completed after `p + 1` iterations, if it and those before it were due at the start.
     */
    method Serve(iterations: nat) returns (alive: bool)
      requires At(Top)
      modifies this
      ensures alive ==> At(Top) && history.iterations == old(history.iterations) + iterations
      ensures alive ==> forall p :: 0 <= p < iterations && p < |old(inFlightList)| && DueUpTo(old(View(Top)), p) ==>
                          Record(View(Top), old(inFlightList)[p].comp) == Completed
      ensures !alive ==> ProcessEnded()
    {
      hide Inv, After, Run;
      alive := true;
      for i := 0 to iterations
        invariant alive && At(Top) && history.iterations == old(history.iterations) + i && accesses >= old(accesses)
      {
        alive := Iterate();
        if !alive {
          return;
        }
      }
      ghost var s, s' := old(View(Top)), View(Top);
      AfterInv(c, start, given, DeviceMoves, old(accesses));
      ghost var schedule := LaterIsARun(c, start, given, DeviceMoves, old(accesses), accesses);
      forall p | 0 <= p < iterations && p < |s.d.queue| && DueUpTo(s, p)
        ensures Record(s', s.d.queue[p].comp) == Completed
      {
        CompletesWithin(c, s, p, schedule);
      }
    }
  }
}
