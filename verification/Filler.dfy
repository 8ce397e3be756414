/**
 The filler executors: while the single outstanding request is at the accelerator the scheduler runs a filler fiber,
 which polls the request's completion record and hands control back when it is completed. Each step makes at most one
 access to a completion record; the accelerator may complete a submitted record between any two steps.
 */
module Filler {
  import opened Interleaving

  /** One filler fiber for the whole run, or a fresh one for every request. */
  datatype Policy = Interleaved | Multiple

  datatype Config = Config(policy: Policy, total: nat)

  datatype FillerFiber = NotStarted | Suspended

  datatype Pc =
    | LoopHead      // while (requests_completed < total)
    | Started       // the request has submitted and yielded
    | CheckRecord   // while (comps[requests_completed].status != COMPLETED)
    | SwapToFiller  // start or resume the filler with &comps[requests_completed]
    | Probing       // the filler: probe_point() reads p_sig->status
    | Resuming      // swap to the completed request
    | Finished

  datatype State = State(
    pc: Pc,
    requestsCompleted: nat,
    records: seq<RecordStatus>,
    submitted: nat,
    startedFlag: bool,              // interleaved_started / !interleaved_not_started
    fibers: seq<FillerFiber>,       // the filler contexts
    running: nat,                   // the filler fiber that runs or ran last
    pSig: nat,                      // index of the record p_sig points to
    swaps: nat,                     // swaps to a filler during the current request
    badResume: bool)                // a filler was resumed that was not suspended, or started twice

  function FillerCount(c: Config): nat {
    if c.policy.Interleaved? then 1 else c.total
  }

  function Init(c: Config): State {
    State(LoopHead, 0, seq(c.total, i => Pending), 0, false,
          seq(FillerCount(c), i => NotStarted), 0, 0, 0, false)
  }

  /** The filler context used for request `i`. */
  function FillerFor(c: Config, i: nat): nat {
    if c.policy.Interleaved? then 0 else i
  }

  function Record(s: State, i: nat): RecordStatus {
    if i < |s.records| then s.records[i] else Pending
  }

  function Advance(c: Config, s: State): State {
    var rc := s.requestsCompleted;
    match s.pc
    case LoopHead =>
      if rc >= c.total then s.(pc := Finished) else s.(pc := Started, submitted := s.submitted + 1)
    case Started =>
      s.(pc := CheckRecord, swaps := 0, startedFlag := if c.policy.Multiple? then false else s.startedFlag)
    case CheckRecord =>
      if Record(s, rc).Completed? then s.(pc := Resuming) else s.(pc := SwapToFiller)
    case SwapToFiller =>
      var f := FillerFor(c, rc);
      if !s.startedFlag then
        // first entry: init_probe takes the record from the transfer argument
        s.(pc := Probing, running := f, pSig := rc, startedFlag := true, swaps := s.swaps + 1,
           badResume := s.badResume || f >= |s.fibers| || s.fibers[f].Suspended?,
           fibers := if f < |s.fibers| then s.fibers[f := Suspended] else s.fibers)
      else
        // the latest transfer: the filler continues in probe_point with the data passed
        s.(pc := Probing, pSig := rc, swaps := s.swaps + 1,
           badResume := s.badResume || s.running >= |s.fibers| || s.fibers[s.running].NotStarted?)
    case Probing =>
      if Record(s, s.pSig).Completed? then s.(pc := CheckRecord) else s
    case Resuming =>
      s.(pc := LoopHead, requestsCompleted := rc + 1)
    case Finished => s
  }

  datatype Choice = WorkerMoves | DeviceCompletes(i: nat)

  function Step(c: Config, s: State, choice: Choice): State {
    match choice
    case WorkerMoves => Advance(c, s)
    case DeviceCompletes(i) =>
      if i < s.submitted && i < |s.records| then s.(records := s.records[i := Completed]) else s
  }

  function Run(c: Config, schedule: seq<Choice>): State {
    if schedule == [] then Init(c) else
      var n := |schedule| - 1;
      Step(c, Run(c, schedule[..n]), schedule[n])
  }

  ghost predicate Inv(c: Config, s: State) {
    var rc := s.requestsCompleted;
    && |s.records| == c.total && rc <= c.total
    && s.submitted == (if s.pc.LoopHead? || s.pc.Finished? then rc else rc + 1) <= c.total
    && (forall i :: 0 <= i < rc ==> s.records[i].Completed?)
    && (forall i :: s.submitted <= i < c.total ==> s.records[i].Pending?)
    && !s.badResume
    && (s.pc.Probing? ==> s.pSig == rc && s.startedFlag && s.swaps == 1)
    && (s.pc.Resuming? ==> Record(s, rc).Completed?)
    && (s.pc.CheckRecord? || s.pc.SwapToFiller? || s.pc.Resuming? ==> s.swaps <= 1)
    && (s.pc.SwapToFiller? ==> s.swaps == 0)
    && (s.pc.CheckRecord? && s.swaps == 1 ==> Record(s, rc).Completed?)
    && (s.pc.Finished? ==> rc == c.total)
    // the filler contexts
    && |s.fibers| == FillerCount(c)
    && (c.policy.Interleaved? ==> s.running == 0 && (s.startedFlag <==> s.fibers[0].Suspended?))
    && (c.policy.Multiple? ==>
          && (forall f :: rc < f < c.total ==> s.fibers[f].NotStarted?)
          && (rc < c.total && (s.pc.LoopHead? || s.pc.Started? || s.swaps == 0) ==> s.fibers[rc].NotStarted?)
          && ((s.pc.CheckRecord? || s.pc.SwapToFiller?) && s.swaps == 0 ==> !s.startedFlag))
  }

  lemma SchedulerKeepsInv(c: Config, s: State)
    requires Inv(c, s) && !s.pc.SwapToFiller?
    ensures Inv(c, Advance(c, s))
  {
    match s.pc {
      case LoopHead =>
      case Started =>
      case CheckRecord =>
      case Probing =>
      case Resuming =>
      case Finished =>
    }
  }

  lemma SwapKeepsInv(c: Config, s: State)
    requires Inv(c, s) && s.pc.SwapToFiller?
    ensures Inv(c, Advance(c, s))
  {
  }

  lemma CompletionKeepsInv(c: Config, s: State, i: nat)
    requires Inv(c, s)
    ensures Inv(c, Step(c, s, DeviceCompletes(i)))
  {
    hide Advance;
  }

  lemma StepKeepsInv(c: Config, s: State, choice: Choice)
    requires Inv(c, s)
    ensures Inv(c, Step(c, s, choice))
  {
    hide Inv, Advance;
    match choice {
      case DeviceCompletes(i) => CompletionKeepsInv(c, s, i);
      case WorkerMoves =>
        if s.pc.SwapToFiller? {
          SwapKeepsInv(c, s);
        } else {
          SchedulerKeepsInv(c, s);
        }
    }
  }

  lemma StartInv(c: Config)
    ensures Inv(c, Init(c))
  {
  }

  lemma {:induction false} RunKeepsInv(c: Config, schedule: seq<Choice>)
    ensures Inv(c, Run(c, schedule))
  {
    hide Step, Inv;
    if schedule == [] {
      StartInv(c);
    } else {
      var n := |schedule| - 1;
      RunKeepsInv(c, schedule[..n]);
      StepKeepsInv(c, Run(c, schedule[..n]), schedule[n]);
    }
  }

  /** While a filler runs, its signal is the record of the one request that is submitted and not yet resumed. */
  lemma FillerWatchesTheOutstandingRequest(c: Config, schedule: seq<Choice>)
    ensures var s := Run(c, schedule);
            s.pc.Probing? ==> s.pSig == s.requestsCompleted && s.submitted == s.requestsCompleted + 1
  {
    RunKeepsInv(c, schedule);
  }

  /** A filler hands control back only with the outstanding record completed: at most one swap per request. */
  lemma HandsBackWhenCompleted(c: Config, schedule: seq<Choice>)
    ensures var s := Run(c, schedule);
            && (s.pc.Probing? && !Advance(c, s).pc.Probing? ==> Record(s, s.requestsCompleted).Completed?)
            && (s.pc.SwapToFiller? ==> s.swaps == 0)
            && (s.pc.Probing? ==> s.swaps == 1)
  {
    RunKeepsInv(c, schedule);
  }

  /** No filler context is entered twice, and none is resumed before it was entered. */
  lemma FillersAreResumedProperly(c: Config, schedule: seq<Choice>)
    ensures !Run(c, schedule).badResume
  {
    RunKeepsInv(c, schedule);
  }

  /** With a fresh filler for every request the branch that resumes a filler is never taken. */
  lemma FreshFillersAreNeverResumed(c: Config, schedule: seq<Choice>)
    requires c.policy.Multiple?
    ensures var s := Run(c, schedule); s.pc.SwapToFiller? ==> !s.startedFlag
  {
    RunKeepsInv(c, schedule);
  }

  /** Requests are resumed in order, each after its own completion, and the loop ends with all of them resumed. */
  lemma ResumedAfterCompletion(c: Config, schedule: seq<Choice>)
    ensures var s := Run(c, schedule);
            && (s.pc.Resuming? ==> Record(s, s.requestsCompleted).Completed?)
            && (s.pc.Finished? ==>
                  s.requestsCompleted == c.total && forall i :: 0 <= i < c.total ==> Record(s, i).Completed?)
  {
    RunKeepsInv(c, schedule);
  }
}
