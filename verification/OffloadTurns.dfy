/**
 A thread as program text against turns of the others: before each of its accesses they may take any steps. The thread's
 own steps are `me` throughout, WorkerMoves for the worker and DeviceMoves for the accelerator.
 */
module OffloadTurns {
  import opened Interleaving
  import opened Offload
  import opened OffloadInvariant
  import opened OffloadSafety
  import opened OffloadProgress

  /** The first `n` accesses, each with the turn before it. */
  function Accesses(given: seq<seq<Choice>>, me: Choice, n: nat): (rounds: seq<seq<Choice>>)
    ensures |rounds| == n
  {
    seq(n, k requires 0 <= k < n => TurnAt(given, k) + [me])
  }

  /** The system after `n` accesses. */
  function After(c: Config, start: nat, given: seq<seq<Choice>>, me: Choice, n: nat): State {
    Reached(c, start, Concat(Accesses(given, me, n)))
  }

  /** The system when the others have had their turn before access `n`. */
  function Before(c: Config, start: nat, given: seq<seq<Choice>>, me: Choice, n: nat): State {
    Run(c, After(c, start, given, me, n), TurnAt(given, n))
  }

  lemma NoAccess(c: Config, start: nat, given: seq<seq<Choice>>, me: Choice)
    ensures After(c, start, given, me, 0) == Init(c, start)
  {
  }

  lemma AfterInv(c: Config, start: nat, given: seq<seq<Choice>>, me: Choice, n: nat)
    ensures Inv(c, After(c, start, given, me, n)) && Inv(c, Before(c, start, given, me, n))
  {
    hide Inv, Run;
    ReachedInv(c, start, Concat(Accesses(given, me, n)));
    RunInv(c, After(c, start, given, me, n), TurnAt(given, n));
  }

  lemma OneStep(c: Config, s: State, choice: Choice)
    ensures Run(c, s, [choice]) == Step(c, s, choice)
  {
    assert [choice][..0] == [];
  }

  lemma ConcatOneMore(given: seq<seq<Choice>>, me: Choice, n: nat)
    ensures Concat(Accesses(given, me, n + 1)) == Concat(Accesses(given, me, n)) + (TurnAt(given, n) + [me])
  {
    assert Accesses(given, me, n + 1)[..n] == Accesses(given, me, n);
  }

  /** The next access. */
  lemma NextAccess(c: Config, start: nat, given: seq<seq<Choice>>, me: Choice, n: nat)
    ensures After(c, start, given, me, n + 1) == Step(c, Before(c, start, given, me, n), me)
  {
    hide Run, Step, Concat;
    var s, turn := After(c, start, given, me, n), TurnAt(given, n);
    var earlier := Concat(Accesses(given, me, n));
    ConcatOneMore(given, me, n);
    RunInTwoParts(c, Init(c, start), earlier, turn + [me]);
    RunInTwoParts(c, s, turn, [me]);
    OneStep(c, Before(c, start, given, me, n), me);
  }

  lemma NoSteps(c: Config, s: State)
    ensures Run(c, s, []) == s
  {
  }

  /** The states of a program follow on one another. */
  lemma {:induction false} LaterIsARun(c: Config, start: nat, given: seq<seq<Choice>>, me: Choice, n: nat, m: nat)
    returns (schedule: seq<Choice>)
    requires n <= m
    ensures After(c, start, given, me, m) == Run(c, After(c, start, given, me, n), schedule)
    decreases m
  {
    hide Run, Step, After, TurnAt;
    if n == m {
      schedule := [];
      NoSteps(c, After(c, start, given, me, n));
    } else {
      schedule := LaterIsARun(c, start, given, me, n, m - 1);
      var round := TurnAt(given, m - 1) + [me];
      NextAccess(c, start, given, me, m - 1);
      OneStep(c, Before(c, start, given, me, m - 1), me);
      RunInTwoParts(c, After(c, start, given, me, m - 1), TurnAt(given, m - 1), [me]);
      RunInTwoParts(c, After(c, start, given, me, n), schedule, round);
      schedule := schedule + round;
    }
  }
}
