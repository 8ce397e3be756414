/** Every run in which the worker, the device and the clock keep moving ends, within a bound fixed beforehand. */
module OffloadProgress {
  import opened Words
  import opened Offload
  import opened OffloadInvariant
  import opened OffloadSafety
  import opened OffloadRefusal

  // ----- waits are bounded -----

  /** No deadline is further away than the offload time, even if the 64-bit clock wraps. */
  ghost predicate BoundedWaits(c: Config, s: State) {
    && HeldStart(s) <= s.now
    && forall i :: 0 <= i < |s.d.queue| ==> s.d.queue[i].deadline <= s.now + c.offloadTime
  }

  lemma DeviceKeepsWaits(c: Config, s: State)
    requires BoundedWaits(c, s)
    ensures BoundedWaits(c, DeviceStep(c, s))
  {
    match s.d.pc {
      case Top =>
      case CheckClock =>
      case MarkCompleted(_) =>
      case Retire =>
      case Poll =>
      case Decide =>
      case ReadAddress(_) =>
      case AckAccept(_, _) =>
      case Enqueue(_, _) =>
      case AckRefuse =>
    }
  }

  lemma StepKeepsWaits(c: Config, s: State, choice: Choice)
    requires BoundedWaits(c, s)
    ensures BoundedWaits(c, Step(c, s, choice))
  {
    hide WorkerStep, DeviceStep;
    WorkerFrame(c, s);
    if choice.DeviceMoves? {
      DeviceKeepsWaits(c, s);
    }
  }

  // ----- a rank that no step raises -----

  predicate Ended(s: State) {
    s.w.pc.Finished? || s.w.pc.Exited?
  }

  /** The record the worker spins on when it has nothing else to do. */
  function Awaited(c: Config, s: State): nat {
    if c.mode.Blocking? then s.w.started else s.w.completeIdx
  }

  predicate Spinning(c: Config, s: State) {
    && Record(s, Awaited(c, s)).Pending?
    && (if c.mode.Blocking? then s.w.pc.AwaitRecord?
        else s.w.pc.LoopHead? && s.w.requestsCompleted < c.total <= s.w.started)
  }

  /** Device steps until the flag is lowered. */
  function ToAnswer(pc: DevicePc): nat {
    match pc
    case AckAccept(_, _) => 1
    case AckRefuse => 1
    case ReadAddress(_) => 2
    case Decide => 3
    case Poll => 4
    case Retire => 5
    case MarkCompleted(_) => 6
    case CheckClock => 7
    case Top => 8
    case Enqueue(_, _) => 9
  }

  /** Device steps until the oldest offload is completed, once it is due and nothing is submitted. */
  function ToCompletion(pc: DevicePc): nat {
    match pc
    case MarkCompleted(_) => 1
    case CheckClock => 2
    case Top => 3
    case Retire => 5
    case _ => 4
  }

  /** The place on the device's list of the oldest offload that is not completed. */
  function Oldest(s: State): nat {
    if s.d.pc.Retire? then 1 else 0
  }

  /** How long the worker still has to spin: until the offload is on the list, then until it is due, and a few steps. */
  function Wait(c: Config, s: State): nat {
    if |s.d.queue| <= Oldest(s) then c.offloadTime + 6
    else if s.d.queue[Oldest(s)].deadline <= s.now then ToCompletion(s.d.pc)
    else 5 + s.d.queue[Oldest(s)].deadline - s.now
  }

  /** What is left of the current start or resumption. */
  function Remaining(c: Config, s: State): nat {
    match s.w.pc
    case Finished => 0
    case Exited => 0
    case PostProcess => 1
    case LoopHead =>
      if s.w.requestsCompleted >= c.total then 1
      else if c.mode.Yielding? && Record(s, s.w.completeIdx).Completed? then 2
      else if c.mode.Yielding? && s.w.started >= c.total then 2 + Wait(c, s)
      else c.offloadTime + 29
    case WritePending => c.offloadTime + 28
    case WriteAddress => c.offloadTime + 27
    case RaiseFlag => c.offloadTime + 26
    case AwaitFlag(retries) =>
      c.offloadTime + 10 + 2 * retries + if s.flag.Requested? then ToAnswer(s.d.pc) else 0
    case ReadVerdict(retries) => c.offloadTime + 9 + 2 * retries
    case AwaitRecord => if Record(s, s.w.started).Pending? then 2 + Wait(c, s) else 2
  }

  /** Starts and resumptions still to come. */
  function ToDo(c: Config, s: State): int {
    if c.mode.Blocking? then c.total - s.w.requestsCompleted else Measure(c, s)
  }

  function Rank(c: Config, s: State): int {
    if Ended(s) then 0 else ToDo(c, s) * (c.offloadTime + 30) + Remaining(c, s)
  }

  datatype Party = TheWorker | TheDevice | TheClock

  /** Whose move brings the run forward. */
  function Needed(c: Config, s: State): Party {
    if s.w.pc.AwaitFlag? && s.flag.Requested? then TheDevice
    else if !Spinning(c, s) then TheWorker
    else if |s.d.queue| <= Oldest(s) || s.d.queue[Oldest(s)].deadline <= s.now then TheDevice
    else TheClock
  }

  predicate Serves(choice: Choice, party: Party) {
    match party
    case TheWorker => choice.WorkerMoves?
    case TheDevice => choice.DeviceMoves?
    case TheClock => choice.Tick? && choice.cycles > 0
  }

  lemma WaitBound(c: Config, s: State)
    requires BoundedWaits(c, s)
    ensures 1 <= Wait(c, s) <= c.offloadTime + 6
  {
  }

  /** While the worker spins no submission is under way, and the awaited offload is the oldest or just being pushed. */
  lemma SpinningFacts(c: Config, s: State)
    requires Inv(c, s) && Spinning(c, s)
    ensures s.flag.Received? && !Deciding(s.d.pc) && !s.d.pc.Decide?
    ensures |s.d.queue| <= Oldest(s) ==> s.d.pc.Enqueue?
  {
    hide CountsUp, ClockOk;
  }

  /** A step that uses up part of what remains, or a start or resumption, lowers the rank. */
  lemma RankDrops(toDo: int, toDo': int, left: nat, left': nat, k: nat)
    requires (toDo' == toDo && left' < left) || (toDo' == toDo - 1 && left' < k)
    ensures toDo' * k + left' < toDo * k + left
  {
    if toDo' == toDo - 1 {
      assert toDo' * k == toDo * k - k;
    }
  }

  lemma RemainingIsPositive(c: Config, s: State)
    requires !Ended(s)
    ensures Remaining(c, s) > 0
  {
    hide Wait, ToAnswer;
  }

  lemma ToDoIsNatural(c: Config, s: State)
    requires Inv(c, s)
    ensures ToDo(c, s) >= 0
  {
    hide CountsUp, QueueOk, ClockOk, MailboxOk, RecordsOk;
  }

  lemma RankIsPositive(c: Config, s: State)
    requires Inv(c, s) && !Ended(s)
    ensures Rank(c, s) > 0
  {
    hide Inv, ToDo, Remaining;
    RemainingIsPositive(c, s);
    ToDoIsNatural(c, s);
    assert ToDo(c, s) * (c.offloadTime + 30) >= 0;
  }

  // ----- what the steps do to the rank -----

  /** A step of the worker that counts: it ends the run, uses up what remains, or completes a start or resumption. */
  ghost predicate Forward(c: Config, s: State, s': State) {
    || Ended(s')
    || (ToDo(c, s') == ToDo(c, s) && Remaining(c, s') < Remaining(c, s))
    || (ToDo(c, s') == ToDo(c, s) - 1 && Remaining(c, s') < c.offloadTime + 30)
  }

  lemma WorkerSubmits(c: Config, s: State)
    requires s.w.pc.WritePending? || s.w.pc.WriteAddress? || s.w.pc.RaiseFlag?
    requires Inv(c, s)
    ensures Forward(c, s, WorkerStep(c, s))
  {
    hide CountsUp, QueueOk, ClockOk, RecordsOk, MailboxOk, Wait;
  }

  lemma WorkerReadsAnswer(c: Config, s: State)
    requires (s.w.pc.AwaitFlag? && s.flag.Received?) || s.w.pc.ReadVerdict?
    requires Inv(c, s) && Wait(c, WorkerStep(c, s)) <= c.offloadTime + 6
    ensures Forward(c, s, WorkerStep(c, s))
  {
    hide CountsUp, QueueOk, ClockOk, RecordsOk, Wait, ToAnswer;
  }

  lemma WorkerChooses(c: Config, s: State)
    requires s.w.pc.LoopHead? || s.w.pc.AwaitRecord? || s.w.pc.PostProcess?
    requires Inv(c, s) && !Spinning(c, s) && Wait(c, WorkerStep(c, s)) <= c.offloadTime + 6
    ensures Forward(c, s, WorkerStep(c, s))
  {
    hide CountsUp, QueueOk, ClockOk, MailboxOk, Wait, ToAnswer;
  }

  lemma WorkerMovesForward(c: Config, s: State)
    requires Inv(c, s) && BoundedWaits(c, WorkerStep(c, s)) && !Ended(s) && Needed(c, s).TheWorker?
    ensures Forward(c, s, WorkerStep(c, s))
  {
    hide Inv, BoundedWaits, WorkerStep, Forward, Wait;
    WaitBound(c, WorkerStep(c, s));
    if s.w.pc.WritePending? || s.w.pc.WriteAddress? || s.w.pc.RaiseFlag? {
      WorkerSubmits(c, s);
    } else if s.w.pc.AwaitFlag? || s.w.pc.ReadVerdict? {
      WorkerReadsAnswer(c, s);
    } else {
      WorkerChooses(c, s);
    }
  }

  /** While it is not needed, the worker spins. */
  lemma WorkerSpins(c: Config, s: State)
    requires !Needed(c, s).TheWorker?
    ensures WorkerStep(c, s) == s
  {
    hide Wait, Oldest;
  }

  /** The device while the flag is up: each step brings the answer closer. */
  lemma DeviceAnswers(c: Config, s: State)
    requires Inv(c, s) && s.w.pc.AwaitFlag? && s.flag.Requested?
    ensures var s' := DeviceStep(c, s); s'.flag.Received? || ToAnswer(s'.d.pc) < ToAnswer(s.d.pc)
  {
    hide CountsUp, RecordsOk, ClockOk, WorkerOk, MailboxOk;
  }

  /** The device while the worker spins: no step makes the wait longer, and a needed one makes it shorter. */
  lemma DeviceShortensWait(c: Config, s: State)
    requires Inv(c, s) && BoundedWaits(c, DeviceStep(c, s)) && Spinning(c, s) && Spinning(c, DeviceStep(c, s))
    ensures var s' := DeviceStep(c, s);
            && Wait(c, s') <= Wait(c, s)
            && (Needed(c, s).TheDevice? ==> Wait(c, s') < Wait(c, s))
            && (Wait(c, s') == Wait(c, s) ==> Needed(c, s').TheClock?)
  {
    SpinningFacts(c, s);
    hide CountsUp, RecordsOk, ClockOk, WorkerOk, MailboxOk;
  }

  /** A step that does not end the run leaves the rank as it is and the same party needed, or lowers it. */
  ghost predicate Steady(c: Config, s: State, s': State) {
    !Ended(s') && Rank(c, s') == Rank(c, s) && Needed(c, s') == Needed(c, s)
  }

  lemma ForwardLowersRank(c: Config, s: State, s': State)
    requires Inv(c, s) && !Ended(s) && Forward(c, s, s')
    ensures Rank(c, s') < Rank(c, s)
  {
    hide Inv, ToDo, Remaining;
    if Ended(s') {
      RankIsPositive(c, s);
    } else {
      RankDrops(ToDo(c, s), ToDo(c, s'), Remaining(c, s), Remaining(c, s'), c.offloadTime + 30);
    }
  }

  lemma DeviceLeavesToDo(c: Config, s: State)
    ensures DeviceStep(c, s).w == s.w && ToDo(c, DeviceStep(c, s)) == ToDo(c, s)
  {
    DeviceFrame(c, s);
    hide DeviceStep;
  }

  lemma DeviceUnderSubmission(c: Config, s: State)
    requires Inv(c, s) && s.w.pc.AwaitFlag? && s.flag.Requested?
    ensures Remaining(c, DeviceStep(c, s)) < Remaining(c, s)
  {
    DeviceFrame(c, s);
    DeviceAnswers(c, s);
    hide DeviceStep, Inv, ToAnswer;
  }

  lemma WaitIsPositive(c: Config, s: State)
    ensures Wait(c, s) >= 1
  {
  }

  lemma DeviceUnderSpin(c: Config, s: State)
    requires Inv(c, s) && BoundedWaits(c, DeviceStep(c, s)) && Spinning(c, s)
    ensures var s' := DeviceStep(c, s);
            && Remaining(c, s') <= Remaining(c, s)
            && (Needed(c, s).TheDevice? ==> Remaining(c, s') < Remaining(c, s))
            && (Remaining(c, s') == Remaining(c, s) ==> Needed(c, s').TheClock?)
  {
    var s' := DeviceStep(c, s);
    DeviceFrame(c, s);
    WaitIsPositive(c, s);
    if Spinning(c, s') {
      DeviceShortensWait(c, s);
    }
    hide DeviceStep, Inv, BoundedWaits, Wait, ToAnswer;
  }

  lemma DeviceCompletesOnly(c: Config, s: State)
    requires Inv(c, s) && Inv(c, DeviceStep(c, s))
    ensures var s' := DeviceStep(c, s);
            && (forall i: nat :: Record(s, i).Completed? ==> Record(s', i).Completed?)
            && (s'.flag == s.flag || s'.flag.Received?)
  {
    hide CountsUp, ClockOk, WorkerOk, MailboxOk;
  }

  /** Otherwise the device can only complete the record the worker is about to look at. */
  lemma DeviceBeside(c: Config, s: State)
    requires Inv(c, s) && Inv(c, DeviceStep(c, s)) && !Ended(s) && Needed(c, s).TheWorker?
    ensures var s' := DeviceStep(c, s);
            Remaining(c, s') <= Remaining(c, s) && Needed(c, s').TheWorker?
  {
    var s' := DeviceStep(c, s);
    DeviceFrame(c, s);
    DeviceCompletesOnly(c, s);
    hide DeviceStep, Inv, Wait, ToAnswer;
  }

  lemma DeviceEffect(c: Config, s: State)
    requires Inv(c, s) && BoundedWaits(c, s) && !Ended(s)
    ensures var s' := DeviceStep(c, s);
            && (Rank(c, s') < Rank(c, s) || Steady(c, s, s'))
            && (Needed(c, s).TheDevice? ==> Rank(c, s') < Rank(c, s))
  {
    hide Inv, BoundedWaits, DeviceStep, Remaining, ToDo, Wait;
    var s' := DeviceStep(c, s);
    DeviceLeavesToDo(c, s);
    DeviceStepInv(c, s);
    DeviceKeepsWaits(c, s);
    if s.w.pc.AwaitFlag? && s.flag.Requested? {
      DeviceUnderSubmission(c, s);
    } else if Spinning(c, s) {
      DeviceUnderSpin(c, s);
    } else {
      DeviceBeside(c, s);
    }
  }

  lemma TickEffect(c: Config, s: State, cycles: nat)
    requires !Ended(s)
    ensures var s' := s.(now := s.now + cycles);
            && (Rank(c, s') < Rank(c, s) || Steady(c, s, s'))
            && (Needed(c, s).TheClock? && cycles > 0 ==> Rank(c, s') < Rank(c, s))
  {
    hide ToAnswer;
    var s' := s.(now := s.now + cycles);
    assert ToDo(c, s') == ToDo(c, s);
    hide ToDo;
  }

  lemma StepEffect(c: Config, s: State, choice: Choice)
    requires Inv(c, s) && BoundedWaits(c, s) && !Ended(s)
    ensures var s' := Step(c, s, choice);
            && (Rank(c, s') < Rank(c, s) || Steady(c, s, s'))
            && (Serves(choice, Needed(c, s)) ==> Rank(c, s') < Rank(c, s))
  {
    hide Inv, BoundedWaits, WorkerStep, DeviceStep, Needed, Rank, Forward;
    match choice {
      case WorkerMoves =>
        StepKeepsWaits(c, s, choice);
        if Needed(c, s).TheWorker? {
          WorkerMovesForward(c, s);
          ForwardLowersRank(c, s, WorkerStep(c, s));
        } else {
          WorkerSpins(c, s);
        }
      case DeviceMoves => DeviceEffect(c, s);
      case Tick(cycles) => TickEffect(c, s, cycles);
    }
  }

  // ----- fair runs end -----

  /** A stretch in which the worker, the device and the clock each move at least once, in any order and number. */
  ghost predicate IsRound(round: seq<Choice>) {
    && WorkerMoves in round && DeviceMoves in round
    && exists cycles: nat :: cycles > 0 && Tick(cycles) in round
  }

  /** What a stretch has done to a state: ended the run, lowered its rank, or never called upon the needed party. */
  ghost predicate Progressed(c: Config, s: State, schedule: seq<Choice>) {
    var s' := Run(c, s, schedule);
    || Rank(c, s') < Rank(c, s)
    || (Steady(c, s, s') && forall choice :: choice in schedule ==> !Serves(choice, Needed(c, s)))
  }

  lemma {:induction false} RunKeepsWaits(c: Config, s: State, schedule: seq<Choice>)
    requires BoundedWaits(c, s)
    ensures BoundedWaits(c, Run(c, s, schedule))
  {
    hide BoundedWaits, Step;
    if schedule == [] {
    } else {
      var n := |schedule| - 1;
      RunKeepsWaits(c, s, schedule[..n]);
      StepKeepsWaits(c, Run(c, s, schedule[..n]), schedule[n]);
    }
  }

  lemma EndedStays(c: Config, s: State, choice: Choice)
    requires Ended(s)
    ensures Ended(Step(c, s, choice))
  {
    DeviceFrame(c, s);
    hide DeviceStep;
  }

  /** The rank never rises again. */
  lemma RankNeverRises(c: Config, s: State, choice: Choice)
    requires Inv(c, s) && BoundedWaits(c, s)
    ensures Rank(c, Step(c, s, choice)) <= Rank(c, s)
  {
    if Ended(s) {
      EndedStays(c, s, choice);
    } else {
      StepEffect(c, s, choice);
    }
    hide Inv, BoundedWaits, Step, ToDo, Remaining;
  }

  lemma {:induction false} StretchProgresses(c: Config, s: State, schedule: seq<Choice>)
    requires Inv(c, s) && BoundedWaits(c, s) && !Ended(s)
    ensures Progressed(c, s, schedule)
  {
    hide Inv, BoundedWaits, Step, Rank, Needed, Serves;
    if schedule == [] {
    } else {
      var n := |schedule| - 1;
      var before := Run(c, s, schedule[..n]);
      RunInv(c, s, schedule[..n]);
      RunKeepsWaits(c, s, schedule[..n]);
      StretchProgresses(c, s, schedule[..n]);
      RankNeverRises(c, before, schedule[n]);
      if Steady(c, s, before) {
        StepEffect(c, before, schedule[n]);
      }
      assert schedule == schedule[..n] + [schedule[n]];
    }
  }

  lemma RoundLowersRank(c: Config, s: State, round: seq<Choice>)
    requires Inv(c, s) && BoundedWaits(c, s) && !Ended(s) && IsRound(round)
    ensures Rank(c, Run(c, s, round)) < Rank(c, s)
  {
    StretchProgresses(c, s, round);
    hide Inv, BoundedWaits, Step, Run, Rank, Needed;
    var cycles: nat :| cycles > 0 && Tick(cycles) in round;
    assert Serves(WorkerMoves, TheWorker) && Serves(DeviceMoves, TheDevice) && Serves(Tick(cycles), TheClock);
  }

  function Concat(rounds: seq<seq<Choice>>): seq<Choice> {
    if rounds == [] then [] else Concat(rounds[..|rounds| - 1]) + rounds[|rounds| - 1]
  }

  lemma RankOfEnded(c: Config, s: State)
    requires Inv(c, s)
    ensures Rank(c, s) >= 0 && (Rank(c, s) == 0 <==> Ended(s))
  {
    hide Inv, Remaining, ToDo;
    if !Ended(s) {
      RankIsPositive(c, s);
    }
  }

  lemma NoSteps(c: Config, s: State)
    ensures Run(c, s, []) == s
  {
  }

  lemma {:induction false} EndedRunStays(c: Config, s: State, schedule: seq<Choice>)
    requires Ended(s)
    ensures Ended(Run(c, s, schedule))
  {
    hide Ended, Step;
    if schedule == [] {
    } else {
      var n := |schedule| - 1;
      EndedRunStays(c, s, schedule[..n]);
      EndedStays(c, Run(c, s, schedule[..n]), schedule[n]);
    }
  }

  lemma {:induction false} RoundsLowerRank(c: Config, s: State, rounds: seq<seq<Choice>>)
    requires Inv(c, s) && BoundedWaits(c, s) && forall i :: 0 <= i < |rounds| ==> IsRound(rounds[i])
    ensures var s' := Run(c, s, Concat(rounds)); Ended(s') || Rank(c, s') <= Rank(c, s) - |rounds|
  {
    hide Inv, BoundedWaits, Step, Run, Rank, IsRound, Ended;
    if rounds == [] {
      NoSteps(c, s);
    } else {
      var n := |rounds| - 1;
      var before := Run(c, s, Concat(rounds[..n]));
      RoundsLowerRank(c, s, rounds[..n]);
      RunInTwoParts(c, s, Concat(rounds[..n]), rounds[n]);
      RunInv(c, s, Concat(rounds[..n]));
      RunKeepsWaits(c, s, Concat(rounds[..n]));
      if Ended(before) {
        EndedRunStays(c, before, rounds[n]);
      } else {
        RoundLowersRank(c, before, rounds[n]);
      }
    }
  }

  /** Enough rounds for any run of the configuration. */
  function RoundsNeeded(c: Config): nat {
    (2 * c.total + 1) * (c.offloadTime + 30)
  }

  lemma InitialRank(c: Config, now: nat)
    ensures BoundedWaits(c, Init(c, now)) && Rank(c, Init(c, now)) < RoundsNeeded(c)
  {
    var s, k := Init(c, now), c.offloadTime + 30;
    assert ToDo(c, s) <= 2 * c.total && Remaining(c, s) < k;
    assert ToDo(c, s) * k <= 2 * c.total * k;
    assert RoundsNeeded(c) == 2 * c.total * k + k;
  }

  ghost predicate IsFair(c: Config, rounds: seq<seq<Choice>>) {
    |rounds| >= RoundsNeeded(c) && forall i :: 0 <= i < |rounds| ==> IsRound(rounds[i])
  }

  /**
   Every fair run ends: once the worker, the device and the clock have all moved in RoundsNeeded stretches, the
   executor's loop has ended or a request has been refused, whatever the order of their moves. Deadlines may wrap; the
   clock itself does not.
   */
  lemma FairRunsEnd(c: Config, now: nat, rounds: seq<seq<Choice>>)
    requires IsFair(c, rounds)
    ensures Ended(Reached(c, now, Concat(rounds)))
  {
    hide Inv, BoundedWaits, Run, Rank, IsRound, Ended, RoundsNeeded;
    InitInv(c, now);
    InitialRank(c, now);
    RoundsLowerRank(c, Init(c, now), rounds);
    RunInv(c, Init(c, now), Concat(rounds));
    RankOfEnded(c, Reached(c, now, Concat(rounds)));
  }

  /** The run ends with every request submitted, completed and post-processed, once each and in index order. */
  ghost predicate Finishes(c: Config, now: nat, rounds: seq<seq<Choice>>) {
    var s := Reached(c, now, Concat(rounds));
    s.w.pc.Finished? && s.h.submitted == seq(c.total, i => i) && s.h.processed == seq(c.total, i => i)
  }

  lemma FairRunsFinish(c: Config, now: nat, rounds: seq<seq<Choice>>)
    requires IsFair(c, rounds) && EnoughRoom(c)
    ensures Finishes(c, now, rounds)
  {
    FairRunsEnd(c, now, rounds);
    NeverRefused(c, now, Concat(rounds));
    hide Reached, EnoughRoom, RoundsNeeded, Concat;
    FinishedMeansAllDone(c, now, Concat(rounds));
  }

  lemma {:induction false} ConcatStarts(rounds: seq<seq<Choice>>) returns (rest: seq<Choice>)
    requires rounds != []
    ensures Concat(rounds) == rounds[0] + rest
  {
    var n := |rounds| - 1;
    if n == 0 {
      assert Concat(rounds[..0]) == [];
      rest := [];
    } else {
      var more := ConcatStarts(rounds[..n]);
      rest := more + rounds[n];
      assert rounds[0] + more + rounds[n] == rounds[0] + rest;
    }
  }

  lemma {:induction false} ExitIsFinal(c: Config, s: State, schedule: seq<Choice>)
    requires s.w.pc.Exited?
    ensures Run(c, s, schedule) == s
  {
    if schedule == [] {
    } else {
      ExitIsFinal(c, s, schedule[..|schedule| - 1]);
    }
  }

  /** Any run can be made the beginning of a fair one. */
  lemma FairContinuation(c: Config, schedule: seq<Choice>) returns (rounds: seq<seq<Choice>>, rest: seq<Choice>)
    ensures IsFair(c, rounds) && Concat(rounds) == schedule + rest
  {
    hide RoundsNeeded, Concat;
    var round := [WorkerMoves, DeviceMoves, Tick(1)];
    assert round[0] == WorkerMoves && round[1] == DeviceMoves && round[2] == Tick(1);
    assert IsRound(round);
    var first := schedule + round;
    assert WorkerMoves in first && DeviceMoves in first && Tick(1) in first;
    assert IsRound(first);
    rounds := seq(RoundsNeeded(c) + 1, i => if i == 0 then first else round);
    rest := ConcatStarts(rounds);
    assert rounds[0] == first;
    rest := round + rest;
    assert Concat(rounds) == schedule + rest;
  }

  /** Total correctness, exactly: every fair run finishes if and only if the device has enough room. */
  lemma FinishesExactlyWithEnoughRoom(c: Config)
    requires c.offloadTime < TWO64
    ensures (forall now: nat, rounds: seq<seq<Choice>> :: IsFair(c, rounds) ==> Finishes(c, now, rounds))
       <==> EnoughRoom(c)
  {
    hide IsFair, Run, EnoughRoom, Concat;
    if EnoughRoom(c) {
      forall now: nat, rounds: seq<seq<Choice>> | IsFair(c, rounds) ensures Finishes(c, now, rounds) {
        FairRunsFinish(c, now, rounds);
      }
    } else {
      RefusalExactly(c);
      var s :| Reachable(c, s) && s.w.pc.Exited?;
      var now: nat, schedule: seq<Choice> :| s == Reached(c, now, schedule);
      var rounds, rest := FairContinuation(c, schedule);
      RunInTwoParts(c, Init(c, now), schedule, rest);
      ExitIsFinal(c, s, rest);
      assert !Finishes(c, now, rounds);
    }
  }
}
