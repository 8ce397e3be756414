/**
 One worker thread and the emulated accelerator as a two-thread step system. Every step makes at most one
 access to a variable the threads share; a run is any interleaving of worker steps, device steps and clock
 ticks, given as a schedule.
 */
module Offload {
  import opened Interleaving
  import opened Words

  const NUM_RETRIES: nat := 3

  datatype Mode = Yielding | Blocking

  datatype Config = Config(mode: Mode, total: nat, maxInflights: int, offloadTime: nat)

  datatype Flag = Received | Requested
  datatype Verdict = Accepted | Refused

  /** An offload at the device; `comp` is the index of its completion record. */
  datatype Entry = Entry(start: nat, deadline: nat, comp: nat)

  datatype WorkerPc =
    | LoopHead                          // the executor's loop test and its look at the oldest record
    | WritePending                      // submit_offload: comp->status = COMP_STATUS_PENDING
    | WriteAddress                      // compl_addr = comp
    | RaiseFlag                         // submit_flag = OFFLOAD_REQUESTED
    | AwaitFlag(retries: nat)           // spin while the flag is up
    | ReadVerdict(retries: nat)         // look at submit_status
    | AwaitRecord                       // blocking request: spin on its own record
    | PostProcess                       // after the offload: hash, count, swap back
    | Finished
    | Exited                            // a refused request function returned, which ends the process

  datatype Worker = Worker(pc: WorkerPc, started: nat, completeIdx: nat, requestsCompleted: nat)

  datatype DevicePc =
    | Top                               // if (offload_in_flight)
    | CheckClock                        // cur_time >= next_offload_completion_time
    | MarkCompleted(cur: nat)           // front()->comp->status = COMP_STATUS_COMPLETED
    | Retire                            // in_flight--, pop_front, refresh the cached deadline
    | Poll                              // submit_flag == OFFLOAD_REQUESTED
    | Decide                            // read the clock, write submit_status
    | ReadAddress(start: nat)           // compl_addr.load()
    | AckAccept(start: nat, comp: nat)  // submit_flag = OFFLOAD_RECEIVED
    | Enqueue(start: nat, comp: nat)    // push_back, in_flight++
    | AckRefuse                         // submit_flag = OFFLOAD_RECEIVED

  datatype Device = Device(pc: DevicePc, queue: seq<Entry>, inFlight: int, busy: bool, nextTime: nat)

  datatype Completion = Completion(comp: nat, start: nat, at: nat)

  /** What happened so far, in order. No step looks at it. */
  datatype History = History(
    submitted: seq<nat>,          // records posted, one per raised flag
    decisions: seq<Verdict>,      // verdicts written by the device
    returned: seq<Verdict>,       // results of submit_offload
    enqueued: seq<nat>,           // records pushed on the device's list
    completions: seq<Completion>, // completion writes
    processed: seq<nat>,          // requests post-processed
    iterations: nat)              // loop iterations begun by the device

  datatype State = State(
    w: Worker, d: Device,
    flag: Flag, verdict: Verdict, address: nat, records: seq<RecordStatus>, now: nat,
    h: History)

  function Record(s: State, i: nat): RecordStatus {
    if i < |s.records| then s.records[i] else Pending
  }

  function Init(c: Config, now: nat): State {
    State(
      Worker(LoopHead, 0, 0, 0),
      Device(Top, [], 0, false, TWO64 - 1),
      Received, Accepted, 0, seq(c.total, i => Pending), now,
      History([], [], [], [], [], [], 0))
  }

  // ----- the worker: executor loop, request function and submit_offload -----

  function WorkerStep(c: Config, s: State): State {
    var w := s.w;
    match w.pc
    case LoopHead =>
      if w.requestsCompleted >= c.total then
        s.(w := w.(pc := Finished))
      else if c.mode.Blocking? then
        s.(w := w.(pc := WritePending))
      else if Record(s, w.completeIdx).Completed? then
        s.(w := w.(pc := PostProcess))
      else if w.started < c.total then
        s.(w := w.(pc := WritePending))
      else
        s
    case WritePending =>
      s.(w := w.(pc := WriteAddress),
         records := if w.started < |s.records| then s.records[w.started := Pending] else s.records)
    case WriteAddress =>
      s.(w := w.(pc := RaiseFlag), address := w.started)
    case RaiseFlag =>
      s.(w := w.(pc := AwaitFlag(NUM_RETRIES)), flag := Requested,
         h := s.h.(submitted := s.h.submitted + [w.started]))
    case AwaitFlag(retries) =>
      if s.flag.Requested? then s else s.(w := w.(pc := ReadVerdict(retries)))
    case ReadVerdict(retries) =>
      if s.verdict.Refused? && retries > 0 then
        s.(w := w.(pc := AwaitFlag(retries - 1)))
      else if retries == 0 then
        s.(w := w.(pc := Exited), h := s.h.(returned := s.h.returned + [Refused]))
      else
        var h := s.h.(returned := s.h.returned + [Accepted]);
        if c.mode.Blocking? then
          s.(w := w.(pc := AwaitRecord), h := h)
        else
          s.(w := w.(pc := LoopHead, started := w.started + 1), h := h)
    case AwaitRecord =>
      if Record(s, w.started).Pending? then s else s.(w := w.(pc := PostProcess))
    case PostProcess =>
      if c.mode.Blocking? then
        s.(w := w.(pc := LoopHead, requestsCompleted := w.requestsCompleted + 1, started := w.started + 1),
           h := s.h.(processed := s.h.processed + [w.started]))
      else
        s.(w := w.(pc := LoopHead, requestsCompleted := w.requestsCompleted + 1, completeIdx := w.completeIdx + 1),
           h := s.h.(processed := s.h.processed + [w.completeIdx]))
    case Finished => s
    case Exited => s
  }

  // ----- the device loop -----

  function DeviceStep(c: Config, s: State): State {
    var d := s.d;
    match d.pc
    case Top =>
      s.(d := d.(pc := if d.busy then CheckClock else Poll), h := s.h.(iterations := s.h.iterations + 1))
    case CheckClock =>
      s.(d := d.(pc := if s.now >= d.nextTime then MarkCompleted(s.now) else Poll))
    case MarkCompleted(cur) =>
      if d.queue == [] then s else
        var e := d.queue[0];
        s.(d := d.(pc := Retire),
           records := if e.comp < |s.records| then s.records[e.comp := Completed] else s.records,
           h := s.h.(completions := s.h.completions + [Completion(e.comp, e.start, cur)]))
    case Retire =>
      if d.queue == [] then s else
        var rest := d.queue[1..];
        s.(d := Device(Poll, rest, d.inFlight - 1, rest != [], if rest != [] then rest[0].deadline else d.nextTime))
    case Poll =>
      s.(d := d.(pc := if s.flag.Requested? then Decide else Top))
    case Decide =>
      if d.inFlight < c.maxInflights then
        s.(d := d.(pc := ReadAddress(s.now)), verdict := Accepted,
           h := s.h.(decisions := s.h.decisions + [Accepted]))
      else
        s.(d := d.(pc := AckRefuse), verdict := Refused,
           h := s.h.(decisions := s.h.decisions + [Refused]))
    case ReadAddress(start) =>
      s.(d := d.(pc := AckAccept(start, s.address)))
    case AckAccept(start, comp) =>
      s.(d := d.(pc := Enqueue(start, comp)), flag := Received)
    case Enqueue(start, comp) =>
      var e := Entry(start, (start + c.offloadTime) % TWO64, comp);
      var queue := d.queue + [e];
      s.(d := Device(Top, queue, d.inFlight + 1, true, if |queue| == 1 then e.deadline else d.nextTime),
         h := s.h.(enqueued := s.h.enqueued + [comp]))
    case AckRefuse =>
      s.(d := d.(pc := Top), flag := Received)
  }

  // ----- runs -----

  datatype Choice = WorkerMoves | DeviceMoves | Tick(cycles: nat)

  /** Nothing happens any more once the process has ended. */
  function Step(c: Config, s: State, choice: Choice): State {
    if s.w.pc.Exited? then s else
      match choice
      case WorkerMoves => WorkerStep(c, s)
      case DeviceMoves => DeviceStep(c, s)
      case Tick(cycles) => s.(now := s.now + cycles)
  }

  function Run(c: Config, s: State, schedule: seq<Choice>): State {
    if schedule == [] then s else
      var n := |schedule| - 1;
      Step(c, Run(c, s, schedule[..n]), schedule[n])
  }
}
