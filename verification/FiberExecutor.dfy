/**
 An executor on the fiber machine: one fiber, the executor, enters and resumes request fibers from its loop, and every
 request switches back to a handle that it was once given, which may be the one from its first entry.
 */
module FiberExecutor {
  import opened Fibers
  import opened FiberSystem

  /** Operation `e` lets fiber `f` run: for the first time or again. */
  ghost predicate LetsRun(trace: seq<Sys>, ops: seq<Op>, e: nat, f: nat) {
    e < |ops| && e + 1 < |trace| && ops[e].Switch? && trace[e].cur != f && trace[e + 1].cur == f
  }

  /** A request's handle of the executor: the one passed to it in some earlier entry or resumption. */
  ghost predicate WasGiven(trace: seq<Sys>, ops: seq<Op>, i: nat, f: nat, handle: nat) {
    exists e: nat :: e < i && LetsRun(trace, ops, e, f) && trace[e + 1].cpu.r.rdi == handle
  }

  /**
   What the programs keep to: the executor is never destroyed and makes all its switches from one stack depth, that of
   its loop; the others switch only to handles they were given.
   */
  ghost predicate IsExecutorRun(stacks: Stacks, trace: seq<Sys>, ops: seq<Op>, main: nat, depth: nat) {
    && IsRun(stacks, trace, ops) && trace[0].cur == main && depth >= FRAME
    && (forall i :: 0 <= i < |ops| ==> ops[i] != Destroy(main))
    && (forall i :: 0 <= i < |ops| && ops[i].Switch? && trace[i].cur == main ==> trace[i].cpu.r.rsp == depth)
    && (forall i :: 0 <= i < |ops| && ops[i].Switch? && trace[i].cur != main ==>
          WasGiven(trace, ops, i, trace[i].cur, ops[i].handle))
  }

  lemma OnlySwitchesChangeFibers(stacks: Stacks, s: Sys, op: Op)
    requires Step(stacks, s, op).cur != s.cur
    ensures op.Switch?
  {
    hide FrameAt, Made, SwitchCpu;
  }

  // ----- the rules, one operation at a time -----

  lemma RunOfExecutor(stacks: Stacks, trace: seq<Sys>, ops: seq<Op>, main: nat, depth: nat)
    requires IsExecutorRun(stacks, trace, ops, main, depth)
    ensures IsRun(stacks, trace, ops) && |trace| == |ops| + 1 && trace[0].cur == main
    ensures Survives(ops, main, 0, |ops|)
  {
    hide Step, Enabled, WasGiven;
  }

  lemma ExecutorSwitch(stacks: Stacks, trace: seq<Sys>, ops: seq<Op>, main: nat, depth: nat, i: nat)
    requires IsExecutorRun(stacks, trace, ops, main, depth) && i < |ops| && ops[i].Switch?
    ensures |trace| == |ops| + 1
    ensures trace[i].cur == main ==> trace[i].cpu.r.rsp == depth >= FRAME
    ensures trace[i].cur != main ==> WasGiven(trace, ops, i, trace[i].cur, ops[i].handle)
  {
    hide Step, Enabled, WasGiven;
  }

  // ----- everybody switches back to the executor -----

  lemma SurvivesAt(ops: seq<Op>, f: nat, i: nat, j: nat)
    requires Survives(ops, f, i, j) && i < j <= |ops|
    ensures ops[i] != Destroy(f)
  {
  }

  /** While another fiber runs the executor waits, always with the same handle. */
  lemma {:induction false} ExecutorWaits(stacks: Stacks, trace: seq<Sys>, ops: seq<Op>, main: nat, depth: nat, i: nat)
    requires IsExecutorRun(stacks, trace, ops, main, depth) && i < |trace| && trace[i].cur != main
    ensures main in trace[i].parked && trace[i].parked[main].handle == depth - FRAME
    decreases i
  {
    hide *;
    RunOfExecutor(stacks, trace, ops, main, depth);
    if i == 0 {
    } else {
      RunStep(stacks, trace, ops, i - 1);
      if trace[i - 1].cur == main {
        OnlySwitchesChangeFibers(stacks, trace[i - 1], ops[i - 1]);
        ExecutorSwitch(stacks, trace, ops, main, depth, i - 1);
        SwitchParks(stacks, trace[i - 1], ops[i - 1]);
      } else {
        ExecutorWaits(stacks, trace, ops, main, depth, i - 1);
        SurvivesPart(ops, main, 0, i - 1, |ops|);
        SurvivesAt(ops, main, i - 1, |ops|);
        StepLeavesParked(stacks, trace[i - 1], ops[i - 1], main);
      }
    }
  }

  /** A switch goes to the one fiber whose handle it names. */
  lemma SwitchFinds(stacks: Stacks, s: Sys, op: Op, f: nat)
    requires StacksOk(stacks) && Inv(stacks, s) && Enabled(stacks, s, op) && op.Switch?
    requires f in s.parked && s.parked[f].handle == op.handle
    ensures Step(stacks, s, op).cur == f
  {
    hide *;
    SwitchParks(stacks, s, op);
    OwnerIsUnique(stacks, s, f, op.handle);
    OwnerIsUnique(stacks, s, Step(stacks, s, op).cur, op.handle);
  }

  lemma GivenIn(trace: seq<Sys>, ops: seq<Op>, i: nat, f: nat, handle: nat) returns (e: nat)
    requires WasGiven(trace, ops, i, f, handle)
    ensures e < i && e < |ops| && e + 1 < |trace| && ops[e].Switch? && trace[e + 1].cur == f
    ensures trace[e + 1].cpu.r.rdi == handle
  {
    e :| e < i && LetsRun(trace, ops, e, f) && trace[e + 1].cpu.r.rdi == handle;
  }

  /** Whatever handle of its own a request uses, and however long ago it was given it, it lets the executor run. */
  lemma {:induction false} RequestsReturn(stacks: Stacks, trace: seq<Sys>, ops: seq<Op>, main: nat, depth: nat, i: nat)
    requires IsExecutorRun(stacks, trace, ops, main, depth)
    requires i < |ops| < |trace| && ops[i].Switch? && trace[i].cur != main
    ensures trace[i + 1].cur == main && ops[i].handle == depth - FRAME
    decreases i
  {
    hide *;
    RunOfExecutor(stacks, trace, ops, main, depth);
    ExecutorSwitch(stacks, trace, ops, main, depth, i);
    var e := GivenIn(trace, ops, i, trace[i].cur, ops[i].handle);
    if trace[e].cur != main {
      RequestsReturn(stacks, trace, ops, main, depth, e);
      assert false;
    }
    ExecutorSwitch(stacks, trace, ops, main, depth, e);
    RunStep(stacks, trace, ops, e);
    HandleDelivered(stacks, trace[e], ops[e]);
    ExecutorWaits(stacks, trace, ops, main, depth, i);
    RunStep(stacks, trace, ops, i);
    SwitchFinds(stacks, trace[i], ops[i], main);
  }

  /** Until the executor runs again there is only the fiber it has switched to. */
  lemma {:induction false} OnlyTheTarget(
    stacks: Stacks, trace: seq<Sys>, ops: seq<Op>, main: nat, depth: nat, i: nat, j: nat)
    requires IsExecutorRun(stacks, trace, ops, main, depth) && i < j < |trace|
    requires forall k :: i < k <= j ==> trace[k].cur != main
    ensures forall k :: i < k <= j ==> trace[k].cur == trace[i + 1].cur
    decreases j
  {
    hide *;
    if i + 1 == j {
    } else {
      OnlyTheTarget(stacks, trace, ops, main, depth, i, j - 1);
      RunOfExecutor(stacks, trace, ops, main, depth);
      RunStep(stacks, trace, ops, j - 1);
      if trace[j].cur != trace[j - 1].cur {
        OnlySwitchesChangeFibers(stacks, trace[j - 1], ops[j - 1]);
        RequestsReturn(stacks, trace, ops, main, depth, j - 1);
      }
    }
  }

  // ----- what the executor and the requests see of each other -----

  /** From operation `i` on the executor is away; it runs again after operation `j`. */
  ghost predicate AwayBetween(trace: seq<Sys>, ops: seq<Op>, main: nat, i: nat, j: nat) {
    && i < j < |ops| < |trace| && ops[i].Switch? && trace[i].cur == main && trace[j + 1].cur == main
    && forall k :: i < k <= j ==> trace[k].cur != main
  }

  lemma AwayFacts(trace: seq<Sys>, ops: seq<Op>, main: nat, i: nat, j: nat)
    requires AwayBetween(trace, ops, main, i, j)
    ensures i < j < |ops| < |trace| && ops[i].Switch? && trace[i].cur == main && trace[j + 1].cur == main
    ensures forall k :: i < k <= j ==> trace[k].cur != main
  {
  }

  lemma SurvivesUpTo(ops: seq<Op>, f: nat, i: nat, j: nat)
    requires Survives(ops, f, 0, |ops|) && j <= |ops|
    ensures Survives(ops, f, i, j)
  {
  }

  lemma ReceivedHandle(k: Stack, before: Cpu, after: Cpu, ret: nat, from: nat, data: nat)
    requires Continues(k, before, after, ret, from, data)
    ensures after.r.rax == from
  {
    hide Load;
  }

  lemma SwitchParksAt(stacks: Stacks, s: Sys, op: Op)
    requires StacksOk(stacks) && Inv(stacks, s) && Enabled(stacks, s, op) && op.Switch?
    ensures s.cur in Step(stacks, s, op).parked
    ensures Step(stacks, s, op).parked[s.cur].ctx == ContextOf(s.cpu.r, op.ret)
  {
    hide *;
    SwitchParks(stacks, s, op);
  }

  /**
   To the executor, fcontext_swap is a call: when it runs again it finds its registers and local variables as they were,
   only the fiber it switched to has run meanwhile, and what the call returns is that fiber's handle.
   */
  lemma SwapIsACall(stacks: Stacks, trace: seq<Sys>, ops: seq<Op>, main: nat, depth: nat, i: nat, j: nat)
    requires IsExecutorRun(stacks, trace, ops, main, depth) && AwayBetween(trace, ops, main, i, j)
    ensures var f := trace[i + 1].cur;
            && main in stacks && ops[j].Switch? && f in trace[j + 1].parked
            && (forall k :: i < k <= j ==> trace[k].cur == f)
            && trace[j + 1].parked[f] == Parked(trace[j + 1].cpu.r.rax, ContextOf(trace[j].cpu.r, ops[j].ret))
            && Continues(stacks[main], trace[i].cpu, trace[j + 1].cpu, ops[i].ret, trace[j + 1].cpu.r.rax, ops[j].data)
  {
    AwayFacts(trace, ops, main, i, j);
    hide *;
    RunOfExecutor(stacks, trace, ops, main, depth);
    OnlyTheTarget(stacks, trace, ops, main, depth, i, j);
    assert trace[j].cur == trace[i + 1].cur;
    RunStep(stacks, trace, ops, j);
    OnlySwitchesChangeFibers(stacks, trace[j], ops[j]);
    SwitchParks(stacks, trace[j], ops[j]);
    SurvivesUpTo(ops, main, i, j);
    SwitchIsTransparent(stacks, trace, ops, i, j);
    ReceivedHandle(stacks[main], trace[i].cpu, trace[j + 1].cpu, ops[i].ret,
                   trace[j + 1].parked[trace[j].cur].handle, ops[j].data);
    SwitchParksAt(stacks, trace[j], ops[j]);
  }

  /**
   To a request, yielding is a call too. If the executor switched to it in operation `i` and got control back in `j`, it
   resumes it in operation `n` by the handle that its swap returned, however many other requests ran in between: the
   request continues after its own switch `j`, everything as it left it, and is passed the executor's handle, which is
   the one it has had from the start.
   */
  lemma YieldIsACall(stacks: Stacks, trace: seq<Sys>, ops: seq<Op>, main: nat, depth: nat, i: nat, j: nat, n: nat)
    requires IsExecutorRun(stacks, trace, ops, main, depth) && AwayBetween(trace, ops, main, i, j)
    requires j < n < |ops| && ops[n].Switch? && trace[n].cur == main && ops[n].handle == trace[j + 1].cpu.r.rax
    requires forall k :: j < k <= n ==> trace[k].cur != trace[i + 1].cur
    requires Survives(ops, trace[i + 1].cur, j, n)
    ensures var f := trace[i + 1].cur;
            && f in stacks && trace[n + 1].cur == f
            && Continues(stacks[f], trace[j].cpu, trace[n + 1].cpu, ops[j].ret, depth - FRAME, ops[n].data)
            && trace[i + 1].cpu.r.rdi == depth - FRAME
  {
    AwayFacts(trace, ops, main, i, j);
    hide *;
    var f := trace[i + 1].cur;
    RunOfExecutor(stacks, trace, ops, main, depth);
    SwapIsACall(stacks, trace, ops, main, depth, i, j);
    SurvivesPart(ops, f, j, j + 1, n);
    StaysParked(stacks, trace, ops, f, j + 1, n);
    RunStep(stacks, trace, ops, n);
    SwitchFinds(stacks, trace[n], ops[n], f);
    assert trace[j].cur == f;
    SwitchIsTransparent(stacks, trace, ops, j, n);
    ExecutorWaits(stacks, trace, ops, main, depth, n + 1);
    RunStep(stacks, trace, ops, i);
    ExecutorSwitch(stacks, trace, ops, main, depth, i);
    HandleDelivered(stacks, trace[i], ops[i]);
  }
}
