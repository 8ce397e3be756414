/**
 The filler executors and the probing filler as the program writes them. Before each step the device may complete any
 submitted records, and the program's state is at every step the state that this very interleaving leads to.
 */
module FillerScheduler {
  import opened Interleaving
  import opened Filler

  // ----- the interleaving of a program -----

  /** The records the device completes between two steps. */
  type Turn = seq<nat>

  function AfterTurn(c: Config, s: State, turn: Turn): State {
    if turn == [] then s else Step(c, AfterTurn(c, s, turn[..|turn| - 1]), DeviceCompletes(turn[|turn| - 1]))
  }

  /** The system after `n` steps of the program, each preceded by a turn of the device. */
  function After(c: Config, given: seq<Turn>, n: nat): State
    decreases n
  {
    if n == 0 then Init(c) else Advance(c, AfterTurn(c, After(c, given, n - 1), TurnAt(given, n - 1)))
  }

  function Before(c: Config, given: seq<Turn>, n: nat): State {
    AfterTurn(c, After(c, given, n), TurnAt(given, n))
  }

  lemma OneMoreStep(c: Config, given: seq<Turn>, n: nat)
    ensures After(c, given, n + 1) == Advance(c, Before(c, given, n))
    ensures After(c, given, 0) == Init(c)
  {
    hide Advance, AfterTurn, Init;
  }

  lemma {:induction false} TurnIsARun(c: Config, schedule: seq<Choice>, turn: Turn) returns (longer: seq<Choice>)
    ensures AfterTurn(c, Run(c, schedule), turn) == Run(c, longer)
  {
    hide Step;
    if turn == [] {
      longer := schedule;
    } else {
      var n := |turn| - 1;
      longer := TurnIsARun(c, schedule, turn[..n]);
      longer := longer + [DeviceCompletes(turn[n])];
      assert longer[..|longer| - 1] + [longer[|longer| - 1]] == longer;
    }
  }

  /** Every state of a program is a state of a run. */
  lemma {:induction false} AfterIsARun(c: Config, given: seq<Turn>, n: nat) returns (schedule: seq<Choice>)
    ensures After(c, given, n) == Run(c, schedule)
    decreases n
  {
    hide AfterTurn, Advance;
    if n == 0 {
      schedule := [];
    } else {
      schedule := AfterIsARun(c, given, n - 1);
      schedule := TurnIsARun(c, schedule, TurnAt(given, n - 1));
      var longer := schedule + [WorkerMoves];
      assert longer[..|longer| - 1] == schedule;
      schedule := longer;
    }
  }

  lemma BothInv(c: Config, given: seq<Turn>, n: nat)
    ensures Inv(c, After(c, given, n)) && Inv(c, Before(c, given, n))
  {
    hide Inv, AfterTurn, Run, After;
    var schedule := AfterIsARun(c, given, n);
    RunKeepsInv(c, schedule);
    schedule := TurnIsARun(c, schedule, TurnAt(given, n));
    RunKeepsInv(c, schedule);
  }

  function Completing(records: seq<RecordStatus>, submitted: nat, turn: Turn): (r: seq<RecordStatus>)
    ensures |r| == |records|
    ensures forall i :: 0 <= i < |r| && records[i] == Completed ==> r[i] == Completed
    ensures forall i :: 0 <= i < |r| && i < submitted && i in turn ==> r[i] == Completed
  {
    if turn == [] then records
    else
      var earlier, i := Completing(records, submitted, turn[..|turn| - 1]), turn[|turn| - 1];
      if i < submitted && i < |earlier| then earlier[i := Completed] else earlier
  }

  /** A turn changes nothing but records. */
  lemma {:induction false} TurnCompletesRecords(c: Config, s: State, turn: Turn)
    ensures AfterTurn(c, s, turn) == s.(records := Completing(s.records, s.submitted, turn))
  {
    hide Advance;
    if turn == [] {
    } else {
      TurnCompletesRecords(c, s, turn[..|turn| - 1]);
    }
  }

  // ----- fair turns -----

  /** Any `window` consecutive turns complete every record, and there are enough turns for all requests. */
  ghost predicate FairTurns(c: Config, given: seq<Turn>, window: nat) {
    EachCompletedWithin(given, c.total, window) && |given| >= c.total * (window + 6)
  }

  lemma Distributes(x: nat, y: nat, n: nat)
    ensures (x + y) * n == x * n + y * n
  {
  }

  /** With fair turns there is room for one more request. */
  lemma TurnsForOneMore(c: Config, given: seq<Turn>, window: nat, completed: nat)
    requires FairTurns(c, given, window) && completed < c.total
    ensures (completed + 1) * (window + 6) == completed * (window + 6) + window + 6 <= |given|
  {
    hide EachCompletedWithin;
    Distributes(completed, 1, window + 6);
    Distributes(completed + 1, c.total - completed - 1, window + 6);
  }

  // ----- what the invariant says where the program needs it -----

  lemma FirstSwap(c: Config, s: State)
    requires s.pc.SwapToFiller? && !s.startedFlag
    ensures var f := FillerFor(c, s.requestsCompleted);
            Advance(c, s) ==
              s.(pc := Probing, running := f, pSig := s.requestsCompleted, startedFlag := true, swaps := s.swaps + 1,
                 badResume := s.badResume || f >= |s.fibers| || s.fibers[f].Suspended?,
                 fibers := if f < |s.fibers| then s.fibers[f := Suspended] else s.fibers)
  {
  }

  /** A filler that is entered has not been started, and one that is resumed is suspended. */
  lemma FillerReady(c: Config, s: State)
    requires Inv(c, s) && s.pc.SwapToFiller?
    ensures !s.badResume
    ensures var f := if s.startedFlag then s.running else if c.policy.Multiple? then s.requestsCompleted else 0;
            f < |s.fibers| && s.fibers[f] == if s.startedFlag then Suspended else NotStarted
  {
  }

  lemma Probed(c: Config, s: State)
    requires Inv(c, s) && s.pc.Probing?
    ensures s.pSig == s.requestsCompleted < |s.records| && s.requestsCompleted < s.submitted
  {
  }

  lemma AtHead(c: Config, s: State)
    requires Inv(c, s) && s.pc.LoopHead?
    ensures s.requestsCompleted <= |s.records| == c.total && !s.badResume
    ensures forall i :: 0 <= i < s.requestsCompleted ==> s.records[i] == Completed
  {
  }

  lemma Outstanding(c: Config, s: State)
    requires Inv(c, s) && s.pc.CheckRecord?
    ensures s.requestsCompleted < |s.records| == c.total
  {
  }

  // ----- the program -----

  class Scheduler {
    const c: Config
    const given: seq<Turn>

    var comps: seq<RecordStatus>
    var requestsCompleted: nat
    var submitted: nat
    var interleavedStarted: bool
    var xfer: nat                // the filler the latest transfer came from
    var pSig: nat                // the filler's global p_sig
    var steps: nat

    ghost var fibers: seq<FillerFiber>
    ghost var swaps: nat
    ghost var badResume: bool

    constructor (c: Config, given: seq<Turn>)
      ensures this.c == c && this.given == given && At(LoopHead) && steps == 0
    {
      this.c, this.given := c, given;
      requestsCompleted, submitted, interleavedStarted, xfer, pSig, steps := 0, 0, false, 0, 0, 0;
      comps := seq(c.total, i => Pending);
      fibers, swaps, badResume := seq(FillerCount(c), i => NotStarted), 0, false;
      new;
      OneMoreStep(c, given, 0);
    }

    ghost function View(pc: Pc): State
      reads this
    {
      State(pc, requestsCompleted, comps, submitted, interleavedStarted, fibers, xfer, pSig, swaps, badResume)
    }

    /** The program stands at `pc`, in the state its own steps and the turns before them lead to. */
    ghost predicate At(pc: Pc)
      reads this
    {
      View(pc) == After(c, given, steps)
    }

    /** The same, with the device's next turn taken. */
    ghost predicate Interrupted(pc: Pc)
      reads this
    {
      View(pc) == Before(c, given, steps) && Inv(c, View(pc))
    }

    /** The device's turn before the next step. */
    method DeviceTurn(ghost pc: Pc)
      requires At(pc)
      modifies this`comps
      ensures Interrupted(pc)
      ensures |comps| == |old(comps)|
      ensures forall i :: 0 <= i < |comps| && old(comps)[i] == Completed ==> comps[i] == Completed
      ensures forall i :: 0 <= i < |comps| && i < submitted && i in TurnAt(given, steps) ==> comps[i] == Completed
    {
      hide Inv, After, AfterTurn;
      BothInv(c, given, steps);
      TurnCompletesRecords(c, View(pc), TurnAt(given, steps));
      comps := Completing(comps, submitted, TurnAt(given, steps));
    }

    /** The request is entered, submits its offload and yields. */
    method StartRequest()
      requires At(LoopHead) && requestsCompleted < c.total
      modifies this
      ensures At(Started) && requestsCompleted == old(requestsCompleted) && steps == old(steps) + 1
    {
      hide Inv, After, Before;
      DeviceTurn(LoopHead);
      submitted := submitted + 1;
      OneMoreStep(c, given, steps);
      steps := steps + 1;
    }

    /** With a fresh filler per request the flag is cleared: `interleaved_started = false`. */
    method PrepareFiller()
      requires At(Started)
      modifies this
      ensures At(CheckRecord) && requestsCompleted == old(requestsCompleted) && steps == old(steps) + 1
    {
      hide Inv, After, Before;
      DeviceTurn(Started);
      if c.policy.Multiple? {
        interleavedStarted := false;
      }
      swaps := 0;
      OneMoreStep(c, given, steps);
      steps := steps + 1;
    }

    /** `comps[requests_completed].status != COMP_STATUS_COMPLETED` */
    method CheckTheRecord() returns (pending: bool)
      requires At(CheckRecord)
      modifies this
      ensures At(if pending then SwapToFiller else Resuming) && steps == old(steps) + 1
      ensures requestsCompleted == old(requestsCompleted) < c.total
      ensures requestsCompleted < |old(comps)| && old(comps)[requestsCompleted] == Completed ==> !pending
    {
      hide Inv, After, Before;
      DeviceTurn(CheckRecord);
      Outstanding(c, View(CheckRecord));
      pending := comps[requestsCompleted] != Completed;
      OneMoreStep(c, given, steps);
      steps := steps + 1;
    }

    /** init_probe, on first entry. */
    method InitProbe(data: nat)
      modifies this`pSig
      ensures pSig == data
    {
      pSig := data;
    }

    /** The first swap: into a fresh context, which starts with init_probe. */
    method EnterFiller()
      requires Interrupted(SwapToFiller) && !interleavedStarted
      modifies this
      ensures xfer == (if c.policy.Multiple? then requestsCompleted else 0) < |old(fibers)|
      ensures fibers == old(fibers)[xfer := Suspended] && old(fibers)[xfer] == NotStarted
      ensures interleavedStarted && !badResume
      ensures At(Probing) && pSig == requestsCompleted == old(requestsCompleted) && steps == old(steps) + 1
    {
      hide Inv, After, Before, Advance;
      FirstSwap(c, View(SwapToFiller));
      FillerReady(c, View(SwapToFiller));
      var f := FillerFor(c, requestsCompleted);
      badResume := badResume || f >= |fibers| || fibers[f].Suspended?;
      fibers := if f < |fibers| then fibers[f := Suspended] else fibers;
      swaps := swaps + 1;
      InitProbe(requestsCompleted);
      xfer := f;
      interleavedStarted := true;
      OneMoreStep(c, given, steps);
      steps := steps + 1;
    }

    /** Later swaps: back into the filler that handed over last, with the new signal as the data passed. */
    method ResumeFiller()
      requires Interrupted(SwapToFiller) && interleavedStarted
      modifies this
      ensures xfer == old(xfer) < |fibers| && fibers == old(fibers) && fibers[xfer] == Suspended && !badResume
      ensures At(Probing) && pSig == requestsCompleted == old(requestsCompleted) && steps == old(steps) + 1
    {
      hide Inv, After, Before;
      FillerReady(c, View(SwapToFiller));
      badResume := badResume || xfer >= |fibers| || fibers[xfer].NotStarted?;
      swaps := swaps + 1;
      pSig := requestsCompleted;
      OneMoreStep(c, given, steps);
      steps := steps + 1;
    }

    method SwapToTheFiller()
      requires At(SwapToFiller)
      modifies this
      ensures At(Probing) && pSig == requestsCompleted == old(requestsCompleted) && steps == old(steps) + 1
    {
      hide Inv, After, Before, Advance;
      DeviceTurn(SwapToFiller);
      if !interleavedStarted {
        EnterFiller();
      } else {
        ResumeFiller();
      }
    }

    /** The filler's work with its probe_point calls: it hands back control once its signal is set. */
    method Fill() returns (signalled: bool)
      requires At(Probing) && pSig == requestsCompleted
      modifies this
      ensures signalled ==> At(CheckRecord) && requestsCompleted < |comps| && comps[requestsCompleted] == Completed
      ensures !signalled ==> At(Probing) && steps >= |given|
      ensures signalled ==> old(steps) < steps
      ensures forall j: nat :: old(steps) <= j < steps && requestsCompleted in TurnAt(given, j) ==>
                signalled && j == steps - 1
      ensures requestsCompleted == old(requestsCompleted)
    {
      hide Inv, After, Before;
      while true
        invariant At(Probing) && pSig == requestsCompleted == old(requestsCompleted) && steps >= old(steps)
        invariant forall j: nat :: old(steps) <= j < steps ==> requestsCompleted !in TurnAt(given, j)
        decreases if steps < |given| then |given| - steps else 0
      {
        var noTurnsLeft := steps >= |given|;
        DeviceTurn(Probing);
        Probed(c, View(Probing));
        signalled := comps[pSig] == Completed;
        OneMoreStep(c, given, steps);
        steps := steps + 1;
        if signalled || noTurnsLeft {
          return;
        }
      }
    }

    /** The inner loop: swap to a filler for as long as the record is pending, which is at most once. */
    method FillUntilCompleted(ghost window: nat) returns (completed: bool)
      requires At(CheckRecord)
      modifies this
      ensures completed ==> At(Resuming)
      ensures !completed ==> At(Probing) && steps >= |given|
      ensures FairTurns(c, given, window) && old(steps) + window + 2 <= |given| ==>
                completed && steps <= old(steps) + window + 3
      ensures requestsCompleted == old(requestsCompleted)
    {
      hide Inv, After, Advance, TurnAt, EachCompletedWithin;
      var pending := CheckTheRecord();
      while pending
        invariant At(if pending then SwapToFiller else Resuming)
        invariant requestsCompleted == old(requestsCompleted) < c.total
        invariant if pending then steps == old(steps) + 1
                  else FairTurns(c, given, window) && old(steps) + window + 2 <= |given| ==>
                         steps <= old(steps) + window + 3
        decreases pending
      {
        SwapToTheFiller();
        completed := Fill();
        if FairTurns(c, given, window) && old(steps) + window + 2 <= |given| {
          NotWaitedLong(given, c.total, window, old(steps) + 2, if completed then steps - 1 else steps,
                        requestsCompleted);
        }
        if !completed {
          return;
        }
        pending := CheckTheRecord();
      }
      completed := true;
    }

    method FinishRequest()
      requires At(Resuming)
      modifies this
      ensures At(LoopHead) && requestsCompleted == old(requestsCompleted) + 1 && steps == old(steps) + 1
    {
      hide Inv, After, Before;
      DeviceTurn(Resuming);
      requestsCompleted := requestsCompleted + 1;
      OneMoreStep(c, given, steps);
      steps := steps + 1;
    }

    /**
     execute_yielding_requests_interleaved and its multiple-filler variant: when the loop ends all requests have been
     resumed, each after its completion, and no filler was resumed that was not suspended. With fair turns it ends.
     */
    method Execute() returns (done: bool)
      requires At(LoopHead)
      modifies this
      ensures done ==> At(LoopHead) && requestsCompleted == |comps| == c.total && !badResume
      ensures done ==> forall i :: 0 <= i < c.total ==> comps[i] == Completed
      ensures !done ==> At(Probing) && steps >= |given|
      ensures old(steps) == 0 ==> forall window: nat :: FairTurns(c, given, window) ==> done
    {
      hide Inv, After, Advance, FairTurns;
      ghost var window: nat := 0;
      if w: nat :| FairTurns(c, given, w) {
        window := w;
      }
      while requestsCompleted < c.total
        invariant At(LoopHead)
        invariant old(steps) == 0 && FairTurns(c, given, window) ==> steps <= requestsCompleted * (window + 6)
        decreases c.total - requestsCompleted
      {
        if FairTurns(c, given, window) {
          TurnsForOneMore(c, given, window, requestsCompleted);
        }
        StartRequest();
        PrepareFiller();
        var completed := FillUntilCompleted(window);
        if !completed {
          return false;
        }
        FinishRequest();
      }
      BothInv(c, given, steps);
      AtHead(c, View(LoopHead));
      return true;
    }
  }
}
