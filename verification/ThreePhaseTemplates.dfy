/**
 The three templates and their executors as the program writes them. Before each step of the worker the accelerator may
 complete any descriptors that have been submitted, and the program's state is at every step the state that this very
 interleaving leads to.
 */
module ThreePhaseTemplates {
  import opened Interleaving
  import opened Wrappers
  import opened ThreePhase

  // ----- the interleaving of a program -----

  /** The descriptors the accelerator carries out between two steps of the worker, in order. */
  type Turn = seq<nat>

  function AfterTurn(c: Config, s: State, turn: Turn): State {
    if turn == [] then s else DeviceStep(c, AfterTurn(c, s, turn[..|turn| - 1]), turn[|turn| - 1])
  }

  /** The system after `n` steps of the worker, each preceded by a turn of the accelerator. */
  function After(c: Config, given: seq<Turn>, n: nat): State
    decreases n
  {
    if n == 0 then Init(c) else WorkerStep(c, AfterTurn(c, After(c, given, n - 1), TurnAt(given, n - 1)))
  }

  /** The system when the accelerator has had its turn before step `n`. */
  function Before(c: Config, given: seq<Turn>, n: nat): State {
    AfterTurn(c, After(c, given, n), TurnAt(given, n))
  }

  lemma OneMoreStep(c: Config, given: seq<Turn>, n: nat)
    ensures After(c, given, n + 1) == WorkerStep(c, Before(c, given, n))
    ensures After(c, given, 0) == Init(c)
  {
    hide WorkerStep, AfterTurn, Init;
  }

  lemma {:induction false} TurnIsARun(c: Config, schedule: seq<Choice>, turn: Turn) returns (longer: seq<Choice>)
    ensures AfterTurn(c, Run(c, schedule), turn) == Run(c, longer)
  {
    hide DeviceStep, WorkerStep;
    if turn == [] {
      longer := schedule;
    } else {
      var n := |turn| - 1;
      longer := TurnIsARun(c, schedule, turn[..n]);
      longer := longer + [DeviceMoves(turn[n])];
      assert longer[..|longer| - 1] + [longer[|longer| - 1]] == longer;
    }
  }

  /** Every state of a program is a state of a run. */
  lemma {:induction false} AfterIsARun(c: Config, given: seq<Turn>, n: nat) returns (schedule: seq<Choice>)
    ensures After(c, given, n) == Run(c, schedule)
    decreases n
  {
    hide AfterTurn, WorkerStep, DeviceStep;
    if n == 0 {
      schedule := [];
    } else {
      schedule := AfterIsARun(c, given, n - 1);
      schedule := TurnIsARun(c, schedule, TurnAt(given, n - 1));
      var longer := schedule + [WorkerMoves];
      assert longer[..|longer| - 1] == schedule;
      schedule := longer;
    }
  }

  lemma BothInv(c: Config, given: seq<Turn>, n: nat)
    requires c.Valid()
    ensures Inv(c, After(c, given, n)) && Inv(c, Before(c, given, n))
  {
    hide Inv, AfterTurn, Run, After;
    var schedule := AfterIsARun(c, given, n);
    RunKeepsInv(c, schedule);
    schedule := TurnIsARun(c, schedule, TurnAt(given, n));
    RunKeepsInv(c, schedule);
  }

  lemma {:induction false} TurnIgnoresWorker(c: Config, s: State, pc: Pc, turn: Turn)
    ensures var s' := AfterTurn(c, s, turn);
            && AfterTurn(c, s.(pc := pc), turn) == s'.(pc := pc)
            && s'.pc == s.pc && s'.started == s.started && s'.resumed == s.resumed
            && s'.descs == s.descs && s'.submitted == s.submitted
  {
    if turn == [] {
    } else {
      TurnIgnoresWorker(c, s, pc, turn[..|turn| - 1]);
    }
  }

  /** The descriptor of request `i` is one that the accelerator can carry out. */
  ghost predicate Deliverable(s: State, i: nat) {
    InRange(s, i) && s.submitted[i] && s.descs[i].Some?
    && s.descs[i].value.src < |s.buffers| && s.descs[i].value.dst < |s.buffers|
  }

  lemma {:induction false} TurnDelivers(c: Config, s: State, turn: Turn, i: nat)
    requires Deliverable(s, i)
    ensures Deliverable(AfterTurn(c, s, turn), i)
    ensures i in turn || s.status[i] == Completed ==> AfterTurn(c, s, turn).status[i] == Completed
  {
    if turn == [] {
    } else {
      TurnDelivers(c, s, turn[..|turn| - 1], i);
    }
  }

  lemma SubmittedIsDeliverable(c: Config, s: State, i: nat)
    requires Inv(c, s) && i < |s.submitted| && s.submitted[i]
    ensures Deliverable(s, i)
  {
    assert RequestOk(c, s, i);
    hide AfterPre, AfterAx, AfterPost, PreSize;
  }

  /** A turn completes the submitted requests it contains. */
  lemma TurnDeliversSubmitted(c: Config, s: State, turn: Turn)
    requires Inv(c, s)
    ensures var status := AfterTurn(c, s, turn).status;
            forall i :: 0 <= i < |s.submitted| && i < |status| && s.submitted[i] && i in turn ==> status[i] == Completed
  {
    hide RequestOk, AfterTurn;
    var status := AfterTurn(c, s, turn).status;
    forall i | 0 <= i < |s.submitted| && i < |status| && s.submitted[i] && i in turn ensures status[i] == Completed {
      SubmittedIsDeliverable(c, s, i);
      TurnDelivers(c, s, turn, i);
    }
  }

  /** What a worker that waits is waiting for has been submitted. */
  lemma AwaitedIsSubmitted(c: Config, s: State, i: nat)
    requires Inv(c, s) && i < |c.initial|
    requires s.pc == Await(i) || (s.pc == LoopHead && c.template.Yielding? && i < s.started)
    ensures |s.submitted| == |c.initial| && s.submitted[i]
  {
    assert RequestOk(c, s, i);
    hide AfterPre, AfterAx, AfterPost, PreSize;
  }

  // ----- fair turns -----

  /** Any `window` consecutive turns complete every record, and there are enough turns for all requests. */
  ghost predicate FairTurns(c: Config, given: seq<Turn>, window: nat) {
    EachCompletedWithin(given, |c.initial|, window) && |given| >= |c.initial| * (window + 6)
  }

  /** The steps that the progress made so far accounts for. */
  function Allowance(window: nat, started: nat, resumed: nat): nat {
    4 * started + (window + 2) * resumed
  }

  lemma AllowanceGrows(window: nat, started: nat, resumed: nat)
    ensures Allowance(window, started + 1, resumed) == Allowance(window, started, resumed) + 4
    ensures Allowance(window, started, resumed + 1) == Allowance(window, started, resumed) + window + 2
    ensures Allowance(window, started + 1, resumed + 1) == Allowance(window, started, resumed) + window + 6
    ensures Allowance(window, 0, 0) == 0
  {
    assert (window + 2) * (resumed + 1) == (window + 2) * resumed + window + 2;
  }

  lemma Distributes(window: nat, x: nat, y: nat)
    ensures (window + 2) * (x + y) == (window + 2) * x + (window + 2) * y
  {
  }

  lemma AllowanceFits(c: Config, given: seq<Turn>, window: nat, started: nat, resumed: nat)
    requires FairTurns(c, given, window) && started <= |c.initial| && resumed < |c.initial|
    ensures Allowance(window, started, resumed) + window + 2 <= |given|
  {
    hide EachCompletedWithin;
    var n := |c.initial|;
    Distributes(window, resumed + 1, n - resumed - 1);
    Distributes(window, resumed, 1);
    assert n * (window + 6) == (window + 2) * n + 4 * n;
  }

  /** With fair turns an executor that waits for its oldest request does not wait long. */
  lemma IdleForAWhile(c: Config, given: seq<Turn>, window: nat, resumed: nat, steps: nat, idle: nat)
    requires FairTurns(c, given, window) && resumed < |c.initial| && idle <= steps
    requires steps <= Allowance(window, |c.initial|, resumed) + idle
    requires forall j: nat :: steps - idle <= j <= steps ==> resumed !in TurnAt(given, j)
    ensures idle + 1 < window && steps < |given|
  {
    hide TurnAt, Allowance, EachCompletedWithin;
    AllowanceFits(c, given, window, |c.initial|, resumed);
    NotWaitedLong(given, |c.initial|, window, steps - idle, steps + 1, resumed);
  }

  // ----- what the invariant says where the program needs it -----

  lemma FinishedFacts(c: Config, s: State)
    requires Inv(c, s) && s.pc.Finished?
    ensures c.Valid() && s.resumed == |c.initial| == |s.buffers|
  {
    hide RequestOk;
  }

  /** All requests have been post-processed, and their buffers are the compositions of their functions. */
  lemma FinishedIsComposed(c: Config, given: seq<Turn>, n: nat)
    requires c.Valid() && After(c, given, n).pc.Finished?
    ensures var s := After(c, given, n);
            |s.buffers| == |c.initial|
            && forall i :: 0 <= i < |c.initial| ==> Composes(c.kernels, c.sizes[i], c.initial[i], s.buffers[i])
  {
    hide After, Composes;
    var schedule := AfterIsARun(c, given, n);
    RunKeepsInv(c, schedule);
    var s := Run(c, schedule);
    FinishedFacts(c, s);
    forall i | 0 <= i < |c.initial| ensures Composes(c.kernels, c.sizes[i], c.initial[i], s.buffers[i]) {
      PostProcessedMeansComposed(c, schedule, i);
    }
  }

  /** A request that has been resumed holds the composition of its functions. */
  lemma ResumedIsComposed(c: Config, given: seq<Turn>, n: nat, i: nat)
    requires c.Valid() && i < After(c, given, n).resumed
    ensures var s := After(c, given, n);
            i < |s.buffers| && i < |c.initial| && Composes(c.kernels, c.sizes[i], c.initial[i], s.buffers[i])
  {
    hide After, Composes;
    var schedule := AfterIsARun(c, given, n);
    PostProcessedMeansComposed(c, schedule, i);
  }

  /** The composition in terms of what the buffers hold. */
  lemma CompositionsAre(c: Config, buffers: seq<Buffers>)
    requires c.Valid() && |buffers| == |c.initial|
    requires forall i :: 0 <= i < |c.initial| ==> Composes(c.kernels, c.sizes[i], c.initial[i], buffers[i])
    ensures forall i :: 0 <= i < |c.initial| ==>
              var b, b0, k, z := buffers[i], c.initial[i], c.kernels, c.sizes[i];
              && b.preInput == b0.preInput
              && b.preOutput == k.pre(b0.preInput, z.preInputSize, b0.preOutput).0
              && b.axOutput == k.ax(b.preOutput, k.pre(b0.preInput, z.preInputSize, b0.preOutput).1, b0.axOutput)
              && b.postOutput == k.post(b.axOutput, z.postInputSize, b0.postOutput)
  {
  }

  /** The index in the program counter is in range, and the post-processed request is the one to resume next. */
  lemma IndexInRange(c: Config, s: State)
    requires Inv(c, s)
    ensures |s.buffers| == |s.descs| == |s.submitted| == |s.status| == |c.initial| == |c.sizes|
    ensures s.resumed <= s.started <= |c.initial|
    ensures !c.template.Yielding? ==> s.resumed == s.started
    ensures !s.pc.LoopHead? && !s.pc.Finished? ==> s.pc.i < |c.initial|
    ensures s.pc.Pre? || s.pc.Submit? ==> s.pc.i == s.started
    ensures s.pc.Post? ==> s.pc.i == s.resumed
  {
    hide RequestOk;
  }

  // ----- the program -----

  class Process {
    const c: Config
    const given: seq<Turn>

    var buffers: seq<Buffers>
    var descs: seq<Option<Desc>>
    var submitted: seq<bool>
    var status: seq<RecordStatus>

    var started: nat // next_unstarted_req_idx
    var resumed: nat // next_request_offload_to_complete_idx

    var steps: nat

    constructor (c: Config, given: seq<Turn>)
      requires c.Valid()
      ensures this.c == c && this.given == given && At(LoopHead) && started == resumed == steps == 0
    {
      this.c, this.given := c, given;
      var n := |c.initial|;
      buffers, descs, submitted, status := c.initial, seq(n, i => None), seq(n, i => false), seq(n, i => Pending);
      started, resumed, steps := 0, 0, 0;
      new;
      OneMoreStep(c, given, 0);
    }

    function View(pc: Pc): State
      reads this
    {
      State(pc, started, resumed, buffers, descs, submitted, status)
    }

    /** The program stands at `pc`, in the state its own steps and the turns before them lead to. */
    ghost predicate At(pc: Pc)
      reads this
    {
      c.Valid() && View(pc) == After(c, given, steps)
    }

    /** The same, with the accelerator's next turn taken. */
    ghost predicate Interrupted(pc: Pc)
      reads this
    {
      View(pc) == Before(c, given, steps) && Inv(c, View(pc))
    }

    /** The accelerator's turn before the worker's next step. */
    method Accelerator(ghost pc: Pc)
      requires At(pc)
      modifies this`buffers, this`status
      ensures Interrupted(pc)
      ensures forall i :: 0 <= i < |submitted| && i < |status| && submitted[i] && i in TurnAt(given, steps) ==>
                status[i] == Completed
    {
      hide Inv, After, AfterTurn, TurnAt;
      BothInv(c, given, steps);
      TurnDeliversSubmitted(c, View(pc), TurnAt(given, steps));
      TurnIgnoresWorker(c, View(LoopHead), pc, TurnAt(given, steps));
      var s := AfterTurn(c, View(LoopHead), TurnAt(given, steps));
      buffers, status := s.buffers, s.status;
    }

    /** `pre_proc_func(pre_proc_input, pre_proc_output, pre_proc_input_size, &preproc_output_size)` */
    method PreProcess(i: nat) returns (size: int)
      requires At(Pre(i))
      modifies this
      ensures At(if c.template.Gpcore? then RunAx(i, size) else Prepare(i, size)) && i < |c.initial|
      ensures started == old(started) && resumed == old(resumed) && steps == old(steps) + 1
    {
      hide Inv, After, Before;
      Accelerator(Pre(i));
      IndexInRange(c, View(Pre(i)));
      var b := buffers[i];
      var (output, outputSize) := c.kernels.pre(b.preInput, c.sizes[i].preInputSize, b.preOutput);
      buffers := buffers[i := b.(preOutput := output)];
      size := outputSize;
      OneMoreStep(c, given, steps);
      steps := steps + 1;
    }

    /** `ax_func(ax_func_input, ax_func_output, ax_input_size, &max_axfunc_output_size)` */
    method RunFunction(i: nat, size: int)
      requires At(RunAx(i, size))
      modifies this
      ensures At(Post(i)) && started == old(started) && resumed == old(resumed) && steps == old(steps) + 1
    {
      hide Inv, After, Before;
      Accelerator(RunAx(i, size));
      IndexInRange(c, View(RunAx(i, size)));
      var b := buffers[i];
      buffers := buffers[i := b.(axOutput := c.kernels.ax(b.preOutput, size, b.axOutput))];
      OneMoreStep(c, given, steps);
      steps := steps + 1;
    }

    /** `prep_func(desc, ax_func_input, ax_func_output, comp, ax_input_size)` */
    method PrepareDescriptor(i: nat, size: int)
      requires At(Prepare(i, size))
      modifies this
      ensures At(Submit(i)) && started == old(started) && resumed == old(resumed) && steps == old(steps) + 1
    {
      hide Inv, After, Before;
      Accelerator(Prepare(i, size));
      IndexInRange(c, View(Prepare(i, size)));
      descs := descs[i := Some(Desc(i, size, i))];
      OneMoreStep(c, given, steps);
      steps := steps + 1;
    }

    /** `submit_func(ax, desc)`; a yielding request swaps back to the executor, which counts it as started. */
    method SubmitDescriptor(i: nat)
      requires At(Submit(i))
      modifies this
      ensures At(if c.template.Yielding? then LoopHead else Await(i)) && steps == old(steps) + 1
      ensures started == old(started) + (if c.template.Yielding? then 1 else 0) && resumed == old(resumed)
    {
      hide Inv, After, Before;
      Accelerator(Submit(i));
      IndexInRange(c, View(Submit(i)));
      submitted := submitted[i := true];
      if c.template.Yielding? {
        started := started + 1;
      }
      OneMoreStep(c, given, steps);
      steps := steps + 1;
    }

    /** `post_offload_func(comp)`: spin until the record is completed. */
    method AwaitCompletion(i: nat) returns (completed: bool)
      requires At(Await(i))
      modifies this
      ensures completed ==> At(Post(i))
      ensures !completed ==> At(Await(i)) && steps >= |given|
      ensures completed ==> old(steps) < steps
      ensures forall j: nat :: old(steps) <= j < steps && i in TurnAt(given, j) ==> completed && j == steps - 1
      ensures started == old(started) && resumed == old(resumed)
    {
      hide Inv, After, Before;
      while true
        invariant At(Await(i)) && started == old(started) && resumed == old(resumed) && steps >= old(steps)
        invariant forall j: nat :: old(steps) <= j < steps ==> i !in TurnAt(given, j)
        decreases if steps < |given| then |given| - steps else 0
      {
        var noTurnsLeft := steps >= |given|;
        Accelerator(Await(i));
        IndexInRange(c, View(Await(i)));
        AwaitedIsSubmitted(c, View(Await(i)), i);
        completed := status[i] != Pending;
        OneMoreStep(c, given, steps);
        steps := steps + 1;
        if completed || noTurnsLeft {
          return;
        }
      }
    }

    /** `post_proc_func(post_proc_input, post_proc_output, post_proc_input_size, ...)`, and back to the executor. */
    method PostProcess(i: nat)
      requires At(Post(i))
      modifies this
      ensures At(LoopHead) && resumed == old(resumed) + 1 && steps == old(steps) + 1
      ensures started == old(started) + if c.template.Yielding? then 0 else 1
      ensures i < |buffers| && i < |c.initial| && i < |c.sizes|
      ensures Composes(c.kernels, c.sizes[i], c.initial[i], buffers[i])
    {
      hide Inv, After, Before, Composes;
      Accelerator(Post(i));
      IndexInRange(c, View(Post(i)));
      var b := buffers[i];
      buffers := buffers[i := b.(postOutput := c.kernels.post(b.axOutput, c.sizes[i].postInputSize, b.postOutput))];
      resumed := resumed + 1;
      if !c.template.Yielding? {
        started := started + 1;
      }
      OneMoreStep(c, given, steps);
      steps := steps + 1;
      ResumedIsComposed(c, given, steps, i);
    }

    /** generic_gpcore_three_phase */
    method GpcoreThreePhase(i: nat)
      requires c.template.Gpcore? && At(Pre(i))
      modifies this
      ensures At(LoopHead) && started == old(started) + 1 && resumed == old(resumed) + 1 && steps == old(steps) + 3
    {
      hide Inv, After, WorkerStep;
      var size := PreProcess(i);
      RunFunction(i, size);
      PostProcess(i);
    }

    /** generic_blocking_three_phase; the accelerator may complete the descriptor at any moment after its submission. */
    method BlockingThreePhase(i: nat, ghost window: nat) returns (completed: bool)
      requires c.template.Blocking? && At(Pre(i))
      modifies this
      ensures completed ==> At(LoopHead) && started == old(started) + 1 && resumed == old(resumed) + 1
      ensures !completed ==> At(Await(i)) && steps >= |given|
      ensures FairTurns(c, given, window) && old(steps) + 3 + window <= |given| ==>
                completed && steps <= old(steps) + window + 4
    {
      hide Inv, After, WorkerStep, TurnAt, EachCompletedWithin;
      var size := PreProcess(i);
      PrepareDescriptor(i, size);
      SubmitDescriptor(i);
      completed := AwaitCompletion(i);
      if FairTurns(c, given, window) && old(steps) + 3 + window <= |given| {
        NotWaitedLong(given, |c.initial|, window, old(steps) + 3, if completed then steps - 1 else steps, i);
      }
      if completed {
        PostProcess(i);
      }
    }

    /** generic_yielding_three_phase up to its swap back; from there on it is PostProcess. */
    method YieldingThreePhase(i: nat)
      requires c.template.Yielding? && At(Pre(i))
      modifies this
      ensures At(LoopHead) && started == old(started) + 1 && resumed == old(resumed) && steps == old(steps) + 3
    {
      hide Inv, After, WorkerStep;
      var size := PreProcess(i);
      PrepareDescriptor(i, size);
      SubmitDescriptor(i);
    }

    /** `fcontext_swap` to the next request, which comes back unless it waits for the accelerator in vain. */
    method StartNext(ghost window: nat) returns (back: bool)
      requires At(Pre(started))
      modifies this
      ensures back ==> At(LoopHead) && started == old(started) + 1
      ensures back ==> resumed == old(resumed) + if c.template.Yielding? then 0 else 1
      ensures !back ==> steps >= |given|
      ensures FairTurns(c, given, window) && old(steps) + 3 + window <= |given| ==>
                back && steps <= old(steps) + if c.template.Yielding? then 3 else window + 4
    {
      hide Inv, After, FairTurns;
      match c.template {
        case Gpcore => GpcoreThreePhase(started);
        case Yielding => YieldingThreePhase(started);
        case Blocking =>
          back := BlockingThreePhase(started, window);
          return;
      }
      return true;
    }

    /** The executors' look at their indices and, if requests yield, at the oldest record. */
    method LookAtHead() returns (next: Pc)
      requires At(LoopHead)
      modifies this
      ensures At(next) && steps == old(steps) + 1 && started == old(started) && resumed == old(resumed)
      ensures next == Finished || next == Pre(started)
              || (c.template.Yielding? && (next == Post(resumed) || next == LoopHead))
      ensures next != Finished && next != LoopHead ==> started + resumed < 2 * |c.initial|
      ensures next == Pre(started) ==> started < |c.initial| && resumed < |c.initial|
      ensures !c.template.Yielding? ==> started == resumed
      ensures next == Finished <==> resumed == |c.initial|
      ensures c.template.Yielding? && resumed < |c.initial| ==>
                && |status| == |c.initial|
                && (next == Post(resumed) <==> status[resumed] == Completed)
                && (next == Pre(started) <==> status[resumed] == Pending && started < |c.initial|)
      ensures next == LoopHead ==>
                resumed < started == |c.initial| && resumed !in TurnAt(given, old(steps))
    {
      hide Inv, After, Before;
      Accelerator(LoopHead);
      IndexInRange(c, View(LoopHead));
      var n := |c.initial|;
      if c.template.Yielding? {
        if resumed < started {
          AwaitedIsSubmitted(c, View(LoopHead), resumed);
        }
        if !(resumed < n) {
          next := Finished;
        } else if status[resumed] != Pending {
          next := Post(resumed);
        } else if started < n {
          next := Pre(started);
        } else {
          next := LoopHead;
        }
      } else {
        next := if started < n then Pre(started) else Finished;
      }
      OneMoreStep(c, given, steps);
      steps := steps + 1;
    }

    /** Every request's buffers hold the composition of its three functions. */
    ghost predicate AllComposed()
      reads this
    {
      && |buffers| == |c.initial| == |c.sizes|
      && forall i :: 0 <= i < |c.initial| ==>
           var b, b0, k, z := buffers[i], c.initial[i], c.kernels, c.sizes[i];
           && b.preInput == b0.preInput
           && b.preOutput == k.pre(b0.preInput, z.preInputSize, b0.preOutput).0
           && b.axOutput == k.ax(b.preOutput, k.pre(b0.preInput, z.preInputSize, b0.preOutput).1, b0.axOutput)
           && b.postOutput == k.post(b.axOutput, z.postInputSize, b0.postOutput)
    }

    lemma DoneIsComposed()
      requires At(Finished)
      ensures AllComposed()
    {
      hide After, Composes;
      FinishedIsComposed(c, given, steps);
      CompositionsAre(c, buffers);
    }

    /**
     The executors: requests one after the other, or, if they yield, started ahead and resumed in order. The loop ends
     if the turns are fair.
     */
    method Execute() returns (done: bool)
      requires At(LoopHead)
      modifies this
      ensures done ==> At(Finished) && AllComposed()
      ensures !done ==> steps >= |given|
      ensures old(steps) == old(started) == old(resumed) == 0 ==>
                forall window: nat :: FairTurns(c, given, window) ==> done
    {
      hide *;
      ghost var window: nat := 0;
      if w: nat :| FairTurns(c, given, w) {
        window := w;
      }
      ghost var fair := old(steps) == old(started) == old(resumed) == 0 && FairTurns(c, given, window);
      ghost var idle: nat := 0;
      AllowanceGrows(window, 0, 0);
      while true
        invariant At(LoopHead)
        invariant fair ==> idle <= window && steps <= Allowance(window, started, resumed) + idle
        invariant idle <= steps && forall j: nat :: steps - idle <= j < steps ==> resumed !in TurnAt(given, j)
        invariant idle > 0 ==> started == |c.initial|
        decreases 2 * |c.initial| - started - resumed, if steps < |given| then |given| - steps else 0
      {
        var noTurnsLeft := steps >= |given|;
        var next := LookAtHead();
        if next == Finished {
          DoneIsComposed();
          return true;
        } else if next == Post(resumed) {
          AllowanceGrows(window, started, resumed);
          PostProcess(resumed);
          idle := 0;
        } else if next == Pre(started) {
          AllowanceGrows(window, started, resumed);
          if fair {
            AllowanceFits(c, given, window, started + 1, resumed);
          }
          var back := StartNext(window);
          if !back {
            return false;
          }
        } else {
          if fair {
            IdleForAWhile(c, given, window, resumed, steps - 1, idle);
          }
          idle := idle + 1;
          if noTurnsLeft {
            return false;
          }
        }
      }
    }
  }
}
