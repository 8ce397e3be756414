/**
 Three-phase requests: pre-processing, an accelerated function, post-processing. The same request runs entirely on the
 core, blocks on an accelerator, or yields to an executor while the accelerator works; the accelerator completes
 submitted descriptors in any order and reads its input buffer only then.
 */
module ThreePhase {
  import opened Interleaving
  import opened Wrappers

  type Bytes = seq<nat>

  /** The buffers of one request. */
  datatype Buffers = Buffers(preInput: Bytes, preOutput: Bytes, axOutput: Bytes, postOutput: Bytes)

  /** The sizes a request is called with. */
  datatype Sizes = Sizes(preInputSize: int, postInputSize: int)

  /**
   The three functions, each on its input buffer, the size passed and the old contents of the output buffer. The first
   one also reports its output size, which becomes the size of the accelerated function's input.
   */
  datatype Kernels = Kernels(
    pre: (Bytes, int, Bytes) -> (Bytes, int),
    ax: (Bytes, int, Bytes) -> Bytes,
    post: (Bytes, int, Bytes) -> Bytes)

  // ----- the phases as functions on the buffers -----

  function PreSize(k: Kernels, z: Sizes, b: Buffers): int {
    k.pre(b.preInput, z.preInputSize, b.preOutput).1
  }

  function AfterPre(k: Kernels, z: Sizes, b: Buffers): Buffers {
    b.(preOutput := k.pre(b.preInput, z.preInputSize, b.preOutput).0)
  }

  function AfterAx(k: Kernels, b: Buffers, size: int): Buffers {
    b.(axOutput := k.ax(b.preOutput, size, b.axOutput))
  }

  function AfterPost(k: Kernels, z: Sizes, b: Buffers): Buffers {
    b.(postOutput := k.post(b.axOutput, z.postInputSize, b.postOutput))
  }

  /**
   What all three templates are meant to compute, said of the buffers before and after: each function reads the output
   of the one before it, and the accelerated one the size that the first one reported.
   */
  ghost predicate Composes(k: Kernels, z: Sizes, before: Buffers, after: Buffers) {
    var (output, size) := k.pre(before.preInput, z.preInputSize, before.preOutput);
    && after.preInput == before.preInput
    && after.preOutput == output
    && after.axOutput == k.ax(output, size, before.axOutput)
    && after.postOutput == k.post(k.ax(output, size, before.axOutput), z.postInputSize, before.postOutput)
  }

  // ----- executors and the accelerator -----

  datatype Template = Gpcore | Blocking | Yielding

  datatype Config = Config(template: Template, kernels: Kernels, sizes: seq<Sizes>, initial: seq<Buffers>) {
    predicate Valid() {
      |sizes| == |initial|
    }
  }

  /** A prepared descriptor: whose buffers to read and write, and how much. */
  datatype Desc = Desc(src: nat, size: int, dst: nat)

  datatype Pc =
    | LoopHead
    | Pre(i: nat)
    | RunAx(i: nat, size: int)    // gpcore: call the function
    | Prepare(i: nat, size: int)  // prep_func
    | Submit(i: nat)              // submit_func
    | Await(i: nat)               // blocking: post_offload_func
    | Post(i: nat)
    | Finished

  datatype State = State(
    pc: Pc, started: nat, resumed: nat,
    buffers: seq<Buffers>, descs: seq<Option<Desc>>, submitted: seq<bool>, status: seq<RecordStatus>)

  function Init(c: Config): State {
    var n := |c.initial|;
    State(LoopHead, 0, 0, c.initial, seq(n, i => None), seq(n, i => false), seq(n, i => Pending))
  }

  predicate InRange(s: State, i: nat) {
    i < |s.buffers| && i < |s.descs| && i < |s.submitted| && i < |s.status|
  }

  function WorkerStep(c: Config, s: State): State {
    var n := |c.initial|;
    match s.pc
    case LoopHead =>
      if c.template.Yielding? then
        if s.resumed >= n then s.(pc := Finished)
        else if InRange(s, s.resumed) && s.status[s.resumed].Completed? then s.(pc := Post(s.resumed))
        else if s.started < n then s.(pc := Pre(s.started))
        else s
      else
        if s.started >= n then s.(pc := Finished) else s.(pc := Pre(s.started))
    case Pre(i) =>
      if !InRange(s, i) || i >= |c.sizes| then s else
        var size := PreSize(c.kernels, c.sizes[i], s.buffers[i]);
        s.(buffers := s.buffers[i := AfterPre(c.kernels, c.sizes[i], s.buffers[i])],
           pc := if c.template.Gpcore? then RunAx(i, size) else Prepare(i, size))
    case RunAx(i, size) =>
      if !InRange(s, i) then s else
        s.(buffers := s.buffers[i := AfterAx(c.kernels, s.buffers[i], size)], pc := Post(i))
    case Prepare(i, size) =>
      if !InRange(s, i) then s else s.(descs := s.descs[i := Some(Desc(i, size, i))], pc := Submit(i))
    case Submit(i) =>
      if !InRange(s, i) then s else
        var s' := s.(submitted := s.submitted[i := true]);
        if c.template.Yielding? then s'.(pc := LoopHead, started := s.started + 1) else s'.(pc := Await(i))
    case Await(i) =>
      if InRange(s, i) && s.status[i].Pending? then s else s.(pc := Post(i))
    case Post(i) =>
      if !InRange(s, i) || i >= |c.sizes| then s else
        var s' := s.(buffers := s.buffers[i := AfterPost(c.kernels, c.sizes[i], s.buffers[i])], pc := LoopHead);
        if c.template.Yielding? then s'.(resumed := s.resumed + 1)
        else s'.(started := s.started + 1, resumed := s.resumed + 1)
    case Finished => s
  }

  /** The accelerator carries out descriptor `i`: it reads the source buffer now. */
  function DeviceStep(c: Config, s: State, i: nat): State {
    if !InRange(s, i) || !s.submitted[i] || s.status[i].Completed? || s.descs[i].None? then s else
      var d := s.descs[i].value;
      if d.src >= |s.buffers| || d.dst >= |s.buffers| then s else
        var out := c.kernels.ax(s.buffers[d.src].preOutput, d.size, s.buffers[d.dst].axOutput);
        s.(buffers := s.buffers[d.dst := s.buffers[d.dst].(axOutput := out)], status := s.status[i := Completed])
  }

  datatype Choice = WorkerMoves | DeviceMoves(i: nat)

  function Step(c: Config, s: State, choice: Choice): State {
    match choice
    case WorkerMoves => WorkerStep(c, s)
    case DeviceMoves(i) => DeviceStep(c, s, i)
  }

  function Run(c: Config, schedule: seq<Choice>): State {
    if schedule == [] then Init(c) else
      var n := |schedule| - 1;
      Step(c, Run(c, schedule[..n]), schedule[n])
  }

  // ----- what each request's buffers hold -----

  /** The buffers of request `i` as its progress demands, and nothing else. */
  ghost predicate RequestOk(c: Config, s: State, i: nat)
    requires c.Valid() && i < |c.initial| && InRange(s, i)
  {
    var k, z, b0 := c.kernels, c.sizes[i], c.initial[i];
    var b1, size := AfterPre(k, z, b0), PreSize(k, z, b0);
    var b2 := AfterAx(k, b1, size);
    var offloaded := if s.status[i].Completed? then b2 else b1;
    && (s.status[i].Completed? ==> s.submitted[i])
    && (s.submitted[i] ==> s.descs[i] == Some(Desc(i, size, i)))
    && s.buffers[i] ==
       (if i < s.resumed then AfterPost(k, z, b2)
        else if s.pc == RunAx(i, size) || s.pc == Prepare(i, size) || s.pc == Submit(i) then b1
        else if s.pc == Post(i) then b2
        else if s.submitted[i] then offloaded
        else b0)
    && (s.pc.Prepare? && s.pc.i == i ==> s.pc.size == size)
    && (s.pc.RunAx? && s.pc.i == i ==> s.pc.size == size)
    && (s.pc == Submit(i) ==> s.descs[i] == Some(Desc(i, size, i)))
    && (s.pc == Post(i) && !c.template.Gpcore? ==> s.status[i].Completed?)
    && (i < s.resumed && !c.template.Gpcore? ==> s.status[i].Completed?)
    && (s.submitted[i] <==>
          !c.template.Gpcore?
          && (i < s.started || (c.template.Blocking? && i == s.started && (s.pc == Await(i) || s.pc == Post(i)))))
  }

  /** The executor's indices and program counter. */
  ghost predicate ControlOk(c: Config, s: State) {
    var n := |c.initial|;
    && c.Valid() && |s.buffers| == |s.descs| == |s.submitted| == |s.status| == n
    && s.resumed <= s.started <= n
    && (!c.template.Yielding? ==> s.resumed == s.started)
    && (match s.pc
        case LoopHead => true
        case Pre(i) => i == s.started < n
        case RunAx(i, _) => i == s.started < n && c.template.Gpcore?
        case Prepare(i, _) => i == s.started < n && !c.template.Gpcore?
        case Submit(i) => i == s.started < n && !c.template.Gpcore?
        case Await(i) => i == s.started < n && c.template.Blocking?
        case Post(i) => i == s.resumed < n && (c.template.Yielding? ==> i < s.started)
        case Finished => s.resumed == n)
  }

  ghost predicate Inv(c: Config, s: State) {
    ControlOk(c, s) && forall i :: 0 <= i < |c.initial| ==> RequestOk(c, s, i)
  }

  lemma WorkerKeepsControl(c: Config, s: State)
    requires Inv(c, s)
    ensures ControlOk(c, WorkerStep(c, s))
  {
    hide AfterPre, AfterAx, AfterPost, PreSize;
    if s.resumed < |c.initial| {
      assert RequestOk(c, s, s.resumed);
    }
  }

  lemma PhasesKeepRequest(c: Config, s: State, j: nat)
    requires ControlOk(c, s) && j < |c.initial| && RequestOk(c, s, j)
    requires s.pc.Pre? || s.pc.RunAx?
    requires ControlOk(c, WorkerStep(c, s))
    ensures RequestOk(c, WorkerStep(c, s), j)
  {
    hide AfterPre, AfterAx, AfterPost, PreSize;
  }

  lemma SubmissionKeepsRequest(c: Config, s: State, j: nat)
    requires ControlOk(c, s) && j < |c.initial| && RequestOk(c, s, j)
    requires s.pc.Prepare? || s.pc.Submit?
    requires ControlOk(c, WorkerStep(c, s))
    ensures RequestOk(c, WorkerStep(c, s), j)
  {
    hide AfterPre, AfterAx, AfterPost, PreSize;
  }

  lemma WaitKeepsRequest(c: Config, s: State, j: nat)
    requires ControlOk(c, s) && j < |c.initial| && RequestOk(c, s, j)
    requires s.pc.LoopHead? || s.pc.Await? || s.pc.Finished?
    requires ControlOk(c, WorkerStep(c, s))
    ensures RequestOk(c, WorkerStep(c, s), j)
  {
    hide AfterPre, AfterAx, AfterPost, PreSize;
  }

  lemma PostKeepsRequest(c: Config, s: State, j: nat)
    requires ControlOk(c, s) && j < |c.initial| && RequestOk(c, s, j)
    requires s.pc.Post?
    requires ControlOk(c, WorkerStep(c, s))
    ensures RequestOk(c, WorkerStep(c, s), j)
  {
    hide AfterPre, AfterAx, AfterPost, PreSize;
  }

  lemma WorkerKeepsRequest(c: Config, s: State, j: nat)
    requires ControlOk(c, s) && j < |c.initial| && RequestOk(c, s, j)
    requires ControlOk(c, WorkerStep(c, s))
    ensures RequestOk(c, WorkerStep(c, s), j)
  {
    hide ControlOk, RequestOk, WorkerStep;
    if s.pc.Pre? || s.pc.RunAx? {
      PhasesKeepRequest(c, s, j);
    } else if s.pc.Prepare? || s.pc.Submit? {
      SubmissionKeepsRequest(c, s, j);
    } else if s.pc.Post? {
      PostKeepsRequest(c, s, j);
    } else {
      WaitKeepsRequest(c, s, j);
    }
  }

  lemma DeviceKeepsRequest(c: Config, s: State, i: nat, j: nat)
    requires ControlOk(c, s) && j < |c.initial| && RequestOk(c, s, j) && (i < |c.initial| ==> RequestOk(c, s, i))
    ensures ControlOk(c, DeviceStep(c, s, i)) && RequestOk(c, DeviceStep(c, s, i), j)
  {
    hide AfterPre, AfterPost, PreSize;
  }

  lemma DeviceKeepsControl(c: Config, s: State, i: nat)
    requires ControlOk(c, s)
    ensures ControlOk(c, DeviceStep(c, s, i))
  {
  }

  lemma StepKeepsInv(c: Config, s: State, choice: Choice)
    requires Inv(c, s)
    ensures Inv(c, Step(c, s, choice))
  {
    hide WorkerStep, DeviceStep, RequestOk;
    match choice {
      case WorkerMoves =>
        WorkerKeepsControl(c, s);
        forall j: nat | j < |c.initial| ensures RequestOk(c, Step(c, s, choice), j) {
          WorkerKeepsRequest(c, s, j);
        }
      case DeviceMoves(i) =>
        DeviceKeepsControl(c, s, i);
        forall j: nat | j < |c.initial| ensures RequestOk(c, Step(c, s, choice), j) {
          DeviceKeepsRequest(c, s, i, j);
        }
    }
  }

  lemma StartInv(c: Config)
    requires c.Valid()
    ensures Inv(c, Init(c))
  {
  }

  lemma {:induction false} RunKeepsInv(c: Config, schedule: seq<Choice>)
    requires c.Valid()
    ensures Inv(c, Run(c, schedule))
  {
    hide Step, Inv;
    if schedule == [] {
      StartInv(c);
    } else {
      var n := |schedule| - 1;
      RunKeepsInv(c, schedule[..n]);
      StepKeepsInv(c, Run(c, schedule[..n]), schedule[n]);
    }
  }

  // ----- equivalence of the templates -----

  /**
   Whatever the template and the order of completions, a post-processed request has computed the composition: its
   output is the last function's on the accelerated function's output on the first one's.
   */
  lemma PostProcessedMeansComposed(c: Config, schedule: seq<Choice>, i: nat)
    requires c.Valid() && i < Run(c, schedule).resumed
    ensures i < |Run(c, schedule).buffers| && i < |c.initial|
    ensures var b, b0, k, z := Run(c, schedule).buffers[i], c.initial[i], c.kernels, c.sizes[i];
            && b.preInput == b0.preInput
            && b.preOutput == k.pre(b0.preInput, z.preInputSize, b0.preOutput).0
            && b.axOutput == k.ax(b.preOutput, k.pre(b0.preInput, z.preInputSize, b0.preOutput).1, b0.axOutput)
            && b.postOutput == k.post(b.axOutput, z.postInputSize, b0.postOutput)
    ensures Composes(c.kernels, c.sizes[i], c.initial[i], Run(c, schedule).buffers[i])
  {
    RunKeepsInv(c, schedule);
    var s := Run(c, schedule);
    assert RequestOk(c, s, i);
  }

  /** Whatever happens to the requests before it, a request that has not been started has its buffers untouched. */
  lemma UntouchedBeforeStart(c: Config, schedule: seq<Choice>, i: nat)
    requires c.Valid() && Run(c, schedule).started < i < |c.initial|
    ensures var s := Run(c, schedule); i < |s.buffers| && s.buffers[i] == c.initial[i]
  {
    RunKeepsInv(c, schedule);
    assert RequestOk(c, Run(c, schedule), i);
  }

  /** Two finished runs of the same requests leave the same buffers, whichever templates and interleavings they used. */
  lemma TemplatesAgree(c1: Config, schedule1: seq<Choice>, c2: Config, schedule2: seq<Choice>)
    requires c1.Valid() && c2 == c1.(template := c2.template)
    requires Run(c1, schedule1).pc.Finished? && Run(c2, schedule2).pc.Finished?
    ensures Run(c1, schedule1).buffers == Run(c2, schedule2).buffers
  {
    RunKeepsInv(c1, schedule1);
    RunKeepsInv(c2, schedule2);
    var s1, s2 := Run(c1, schedule1), Run(c2, schedule2);
    forall i: nat | i < |c1.initial| ensures s1.buffers[i] == s2.buffers[i] {
      PostProcessedMeansComposed(c1, schedule1, i);
      PostProcessedMeansComposed(c2, schedule2, i);
    }
  }
}
