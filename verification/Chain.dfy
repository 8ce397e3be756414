/**
 Random pointer chains: a shuffled order of cache lines, linked into one cycle through the first word of every line,
 and the loops that follow it. Memory is an array of 8-byte words; a pointer is the byte address of a word.
 */
module Chain {
  import opened Division

  // ----- permutations -----

  /** `t` undoes `s`: both are permutations of the numbers below their length. */
  ghost predicate Inverse(s: seq<nat>, t: seq<nat>) {
    && |s| == |t|
    && (forall k :: 0 <= k < |s| ==> s[k] < |s| && t[s[k]] == k)
    && (forall v :: 0 <= v < |t| ==> t[v] < |t| && s[t[v]] == v)
  }

  function Swap(s: seq<nat>, i: nat, j: nat): (r: seq<nat>)
    requires i < |s| && j < |s|
    ensures |r| == |s|
  {
    s[i := s[j]][j := s[i]]
  }

  lemma SwapKeepsInverse(s: seq<nat>, t: seq<nat>, i: nat, j: nat)
    requires Inverse(s, t) && i < |s| && j < |s|
    ensures |t| == |s| && s[i] < |s| && s[j] < |s| && Inverse(Swap(s, i, j), Swap(t, s[i], s[j]))
  {
  }

  /** The shuffle from index `i` down; `rand(i)` is what `rand()` returns in the iteration for index `i`. */
  function Shuffled(s: seq<nat>, i: nat, rand: nat -> nat): (r: seq<nat>)
    requires i < |s|
    ensures |r| == |s|
    decreases i
  {
    if i == 0 then s else Shuffled(Swap(s, i, rand(i) % (i + 1)), i - 1, rand)
  }

  /** Positions above `i` are not touched any more. */
  lemma {:induction false} ShuffleStaysBelow(s: seq<nat>, i: nat, rand: nat -> nat)
    requires i < |s|
    ensures forall k :: i < k < |s| ==> Shuffled(s, i, rand)[k] == s[k]
    decreases i
  {
    if i == 0 {
    } else {
      ShuffleStaysBelow(Swap(s, i, rand(i) % (i + 1)), i - 1, rand);
    }
  }

  /**
   Which element goes where: position `i` gets the one at rand(i) % (i + 1), which gets the old one in return, and the
   rest is the shuffle of what is below.
   */
  lemma ShufflePlaces(s: seq<nat>, i: nat, rand: nat -> nat)
    requires 0 < i < |s|
    ensures Shuffled(s, i, rand)[i] == s[rand(i) % (i + 1)]
    ensures forall k :: i < k < |s| ==> Shuffled(s, i, rand)[k] == s[k]
    ensures var j := rand(i) % (i + 1);
            Shuffled(s, i, rand) == Shuffled(s[i := s[j]][j := s[i]], i - 1, rand)
    ensures Shuffled(s, 0, rand) == s
  {
    ShuffleStaysBelow(s, i, rand);
    ShuffleStaysBelow(Swap(s, i, rand(i) % (i + 1)), i - 1, rand);
  }

  lemma {:induction false} ShuffleKeepsInverse(s: seq<nat>, t: seq<nat>, i: nat, rand: nat -> nat)
    returns (t': seq<nat>)
    requires i < |s| && Inverse(s, t)
    ensures Inverse(Shuffled(s, i, rand), t')
    decreases i
  {
    t' := t;
    if i == 0 {
    } else {
      var j := rand(i) % (i + 1);
      SwapKeepsInverse(s, t, i, j);
      t' := ShuffleKeepsInverse(Swap(s, i, j), Swap(t, s[i], s[j]), i - 1, rand);
    }
  }

  function Identity(n: nat): seq<nat> {
    seq(n, i => i)
  }

  /** Choices made for indices above `i` matter only there. */
  lemma {:induction false} ShuffleUsesLowIndices(s: seq<nat>, i: nat, rand: nat -> nat, rand': nat -> nat)
    requires i < |s| && forall k: nat :: k <= i ==> rand(k) == rand'(k)
    ensures Shuffled(s, i, rand) == Shuffled(s, i, rand')
    decreases i
  {
    if i == 0 {
    } else {
      ShuffleUsesLowIndices(Swap(s, i, rand(i) % (i + 1)), i - 1, rand, rand');
    }
  }

  function Override(rand: nat -> nat, i: nat, j: nat): nat -> nat {
    (k: nat) => if k == i then j else rand(k)
  }

  /** Above index `i` the order `p` is in place. */
  ghost predicate PlacedAbove(s: seq<nat>, p: seq<nat>, i: int) {
    |p| == |s| && forall k :: i < k < |s| ==> 0 <= k && s[k] == p[k]
  }

  /** The value that belongs at index `i` is not among those already placed above it. */
  lemma StillToPlace(s: seq<nat>, t: seq<nat>, p: seq<nat>, q: seq<nat>, i: nat)
    requires Inverse(s, t) && Inverse(p, q) && i < |s| && PlacedAbove(s, p, i)
    ensures |t| == |s| == |p| && p[i] < |t| && t[p[i]] <= i && s[t[p[i]]] == p[i]
  {
    assert s[t[p[i]]] == p[i] && q[p[i]] == i;
  }

  lemma SmallModulo(x: nat, n: nat)
    requires x < n
    ensures x % n == x
  {
  }

  lemma PlaceOne(s: seq<nat>, p: seq<nat>, i: nat, j: nat)
    requires PlacedAbove(s, p, i) && j <= i < |s| && s[j] == p[i]
    ensures PlacedAbove(Swap(s, i, j), p, i - 1)
  {
  }

  /** Choosing `j` for index `i` and the rest as before. */
  lemma ShuffleChoosing(s: seq<nat>, i: nat, j: nat, rest: nat -> nat)
    requires 0 < i < |s| && j <= i
    ensures Shuffled(s, i, Override(rest, i, j)) == Shuffled(Swap(s, i, j), i - 1, rest)
  {
    hide Swap;
    SmallModulo(j, i + 1);
    ShuffleUsesLowIndices(Swap(s, i, j), i - 1, rest, Override(rest, i, j));
  }

  lemma NothingLeftToPlace(s: seq<nat>, p: seq<nat>)
    requires PlacedAbove(s, p, 0) && s != [] && s[0] == p[0]
    ensures forall rand: nat -> nat :: Shuffled(s, 0, rand) == p
  {
    assert s == p;
  }

  /** With the value for index `i` swapped there, the permutations and the places above fit again. */
  lemma PlaceNext(s: seq<nat>, t: seq<nat>, p: seq<nat>, q: seq<nat>, i: nat, j: nat)
    requires Inverse(s, t) && Inverse(p, q) && i < |s| && PlacedAbove(s, p, i)
    requires |t| == |s| == |p| && p[i] < |t| && j == t[p[i]]
    ensures j <= i && s[i] < |t| && s[j] < |t|
    ensures Inverse(Swap(s, i, j), Swap(t, s[i], s[j])) && PlacedAbove(Swap(s, i, j), p, i - 1)
  {
    StillToPlace(s, t, p, q, i);
    hide Inverse, Swap, PlacedAbove;
    SwapKeepsInverse(s, t, i, j);
    PlaceOne(s, p, i, j);
  }

  function AlwaysFirst(): nat -> nat {
    (k: nat) => 0
  }

  /** Every order can come out of the shuffle: for each permutation there are random numbers that produce it. */
  lemma {:induction false} EveryOrderIsPossible(s: seq<nat>, t: seq<nat>, p: seq<nat>, q: seq<nat>, i: nat)
    returns (rand: nat -> nat)
    requires Inverse(s, t) && Inverse(p, q) && i < |s| && PlacedAbove(s, p, i)
    ensures Shuffled(s, i, rand) == p
    decreases i
  {
    StillToPlace(s, t, p, q, i);
    hide *;
    var j := t[p[i]];
    if i == 0 {
      rand := AlwaysFirst();
      NothingLeftToPlace(s, p);
    } else {
      PlaceNext(s, t, p, q, i, j);
      var s', t' := Swap(s, i, j), Swap(t, s[i], s[j]);
      var rest := EveryOrderIsPossible(s', t', p, q, i - 1);
      rand := Override(rest, i, j);
      ShuffleChoosing(s, i, j, rest);
    }
  }

  // ----- chains -----

  /** The address of the first word of cache line `line` in a buffer at `base`. */
  function LineAddress(base: nat, line: nat): nat {
    base + 64 * line
  }

  /** The first words of the lines, taken in `order`, point from each line to the next and back to the first. */
  ghost predicate IsChain(words: seq<nat>, base: nat, order: seq<nat>) {
    && (forall k :: 0 <= k < |order| ==> 8 * order[k] < |words|)
    && (forall k :: 0 <= k < |order| ==>
          words[8 * order[k]] == LineAddress(base, order[if k + 1 < |order| then k + 1 else 0]))
  }

  /** Lines are 64 bytes long, and their first words lie eight words apart. */
  lemma PointersOf(words: seq<nat>, base: nat, order: seq<nat>)
    requires IsChain(words, base, order)
    ensures forall k :: 0 <= k < |order| ==>
              8 * order[k] < |words|
              && words[8 * order[k]] == base + 64 * order[if k + 1 < |order| then k + 1 else 0]
  {
  }

  /** `*p` for a buffer of words at `base`; reading outside the buffer is not defined. */
  function Deref(words: seq<nat>, base: nat, p: nat): nat {
    if base <= p && (p - base) % 8 == 0 && (p - base) / 8 < |words| then words[(p - base) / 8] else 0
  }

  predicate InBuffer(words: seq<nat>, base: nat, p: nat) {
    base <= p && (p - base) % 8 == 0 && (p - base) / 8 < |words|
  }

  /** `n` dereferences from `p`. */
  function Follow(words: seq<nat>, base: nat, p: nat, n: nat): nat {
    if n == 0 then p else Deref(words, base, Follow(words, base, p, n - 1))
  }

  function Next(k: nat, n: nat): nat {
    if k + 1 < n then k + 1 else 0
  }

  lemma OneStep(words: seq<nat>, base: nat, order: seq<nat>, k: nat)
    requires IsChain(words, base, order) && k < |order|
    ensures InBuffer(words, base, LineAddress(base, order[k]))
    ensures Deref(words, base, LineAddress(base, order[k])) == LineAddress(base, order[Next(k, |order|)])
  {
    var d := 64 * order[k];
    assert d / 8 == 8 * order[k] && d % 8 == 0;
  }

  lemma ModuloStep(x: nat, n: nat)
    requires n > 0
    ensures (x + 1) % n == Next(x % n, n)
  {
    var q, r := x / n, x % n;
    if r + 1 < n {
      DivisionIsUnique(x + 1, n, q, r + 1);
    } else {
      assert x + 1 == n * q + n == n * (q + 1);
      DivisionIsUnique(x + 1, n, q + 1, 0);
    }
  }

  /** From the `k`-th line in order, `n` dereferences lead `n` places further around the cycle. */
  lemma {:induction false} FollowGoesAround(words: seq<nat>, base: nat, order: seq<nat>, k: nat, n: nat)
    requires IsChain(words, base, order) && k < |order|
    ensures Follow(words, base, LineAddress(base, order[k]), n) == LineAddress(base, order[(k + n) % |order|])
  {
    if n == 0 {
      DivisionIsUnique(k, |order|, 0, k);
    } else {
      FollowGoesAround(words, base, order, k, n - 1);
      OneStep(words, base, order, (k + n - 1) % |order|);
      ModuloStep(k + n - 1, |order|);
    }
  }

  lemma BackExactlyAtMultiples(k: nat, n: nat, len: nat)
    requires k < len
    ensures (k + n) % len == k <==> n % len == 0
  {
    var q, r := n / len, n % len;
    assert n == len * q + r;
    if k + r < len {
      DivisionIsUnique(k + n, len, q, k + r);
    } else {
      assert len * (q + 1) == len * q + len;
      DivisionIsUnique(k + n, len, q + 1, k + r - len);
    }
  }

  /** From any line the walk is back exactly after the multiples of the number of lines. */
  lemma BackAfterEveryRound(words: seq<nat>, base: nat, order: seq<nat>, places: seq<nat>, line: nat, n: nat)
    requires IsChain(words, base, order) && Inverse(order, places) && line < |order|
    ensures Follow(words, base, LineAddress(base, line), n) == LineAddress(base, line) <==> n % |order| == 0
  {
    var k, len := places[line], |order|;
    FollowGoesAround(words, base, order, k, n);
    BackExactlyAtMultiples(k, n, len);
    hide IsChain, Follow;
    assert places[order[(k + n) % len]] == (k + n) % len;
  }

  /** The walk from any line passes every line within one round: the chain is a single cycle. */
  lemma ReachesEveryLine(words: seq<nat>, base: nat, order: seq<nat>, places: seq<nat>, line: nat, other: nat)
    returns (m: nat)
    requires IsChain(words, base, order) && Inverse(order, places) && line < |order| && other < |order|
    ensures m < |order| && Follow(words, base, LineAddress(base, line), m) == LineAddress(base, other)
  {
    var k, k', len := places[line], places[other], |order|;
    m := if k <= k' then k' - k else k' + len - k;
    FollowGoesAround(words, base, order, k, m);
    DivisionIsUnique(k + m, len, if k <= k' then 0 else 1, k');
  }

  // ----- the program -----

  /** `after` is `before` with the elements at `i` and rand(i) % (i + 1) exchanged. */
  ghost predicate Exchanged(before: seq<nat>, after: seq<nat>, i: nat, rand: nat -> nat) {
    var j := rand(i) % (i + 1);
    && i < |before| == |after|
    && after[i] == before[j] && after[j] == before[i]
    && forall k :: 0 <= k < |before| && k != i && k != j ==> after[k] == before[k]
  }

  lemma SwapExchanges(s: seq<nat>, i: nat, rand: nat -> nat)
    requires i < |s|
    ensures Exchanged(s, Swap(s, i, rand(i) % (i + 1)), i, rand)
  {
  }

  /** Every array in `rounds` is the next one after the swap for its index, from `from + 1` for the second on. */
  ghost predicate Rounds(rounds: seq<seq<nat>>, from: nat, rand: nat -> nat) {
    forall k :: 0 < k < |rounds| ==> Exchanged(rounds[k], rounds[k - 1], from + k, rand)
  }

  lemma OneMoreRound(rounds: seq<seq<nat>>, i: nat, rand: nat -> nat)
    requires rounds != [] && 0 < i < |rounds[0]| && Rounds(rounds, i, rand)
    ensures Rounds([Swap(rounds[0], i, rand(i) % (i + 1))] + rounds, i - 1, rand)
  {
    hide Exchanged;
    var next := Swap(rounds[0], i, rand(i) % (i + 1));
    assert Exchanged(rounds[0], next, i, rand) by { SwapExchanges(rounds[0], i, rand); }
    var more := [next] + rounds;
    forall k | 0 < k < |more| ensures Exchanged(more[k], more[k - 1], i - 1 + k, rand) {
      if k > 1 {
        assert more[k] == rounds[k - 1] && more[k - 1] == rounds[k - 1 - 1];
        assert Exchanged(rounds[k - 1], rounds[k - 1 - 1], i + (k - 1), rand);
      }
    }
  }

  /**
   random_permutation: swap every element from the last down with a random earlier one or itself. `rounds[i]` is the
   array before the swap for index `i`, and `rounds[0]` the outcome.
   */
  method RandomPermutation(a: array<nat>, rand: nat -> nat) returns (ghost rounds: seq<seq<nat>>)
    modifies a
    ensures a.Length > 0 ==> a[..] == Shuffled(old(a[..]), a.Length - 1, rand)
    ensures a.Length > 1 ==> a[a.Length - 1] == old(a[rand(a.Length - 1) % a.Length])
    ensures a.Length > 0 ==> |rounds| == a.Length && rounds[0] == a[..] && rounds[a.Length - 1] == old(a[..])
    ensures forall i :: 0 < i < |rounds| ==> Exchanged(rounds[i], rounds[i - 1], i, rand)
  {
    hide Exchanged;
    var i := a.Length - 1;
    rounds := if a.Length > 0 then [a[..]] else [];
    if a.Length > 1 {
      ShufflePlaces(a[..], i, rand);
    }
    while i > 0
      invariant a.Length > 0 ==> 0 <= i < a.Length
      invariant a.Length > 0 ==> Shuffled(a[..], i, rand) == Shuffled(old(a[..]), a.Length - 1, rand)
      invariant a.Length > 0 ==> |rounds| == a.Length - i && rounds[0] == a[..] && rounds[|rounds| - 1] == old(a[..])
      invariant a.Length == 0 ==> rounds == []
      invariant a.Length > 0 ==> Rounds(rounds, i, rand)
    {
      var j := rand(i) % (i + 1);
      ghost var before := a[..];
      var temp := a[i];
      a[i] := a[j];
      a[j] := temp;
      assert a[..] == Swap(before, i, j);
      OneMoreRound(rounds, i, rand);
      rounds := [a[..]] + rounds;
      i := i - 1;
    }
  }

  /** The order in which a chain over `len` lines visits them. */
  function Order(len: nat, rand: nat -> nat): (order: seq<nat>)
    requires len > 0
    ensures |order| == len
  {
    Shuffled(Identity(len), len - 1, rand)
  }

  lemma OrderIsPermutation(len: nat, rand: nat -> nat) returns (places: seq<nat>)
    requires len > 0
    ensures Inverse(Order(len, rand), places)
  {
    places := ShuffleKeepsInverse(Identity(len), Identity(len), len - 1, rand);
  }

  /** The shuffled list of line numbers. */
  method ShuffledLines(len: nat, rand: nat -> nat) returns (indices: array<nat>)
    requires len > 0
    ensures fresh(indices) && indices[..] == Order(len, rand)
  {
    indices := new nat[len](i => 0);
    var i := 0;
    while i < len
      invariant 0 <= i <= len
      invariant forall k :: 0 <= k < i ==> indices[k] == k
    {
      indices[i] := i;
      i := i + 1;
    }
    assert indices[..] == Identity(len);
    var _ := RandomPermutation(indices, rand);
  }

  /** The lines in `order` are different ones, and lie inside the buffer. */
  ghost predicate LinesFit(words: seq<nat>, order: seq<nat>) {
    && (forall k :: 0 <= k < |order| ==> 8 * order[k] < |words|)
    && (forall i, k :: 0 <= i < k < |order| ==> order[i] != order[k])
  }

  lemma LinesApart(words: seq<nat>, order: seq<nat>, places: seq<nat>)
    requires Inverse(order, places) && 8 * |order| <= |words|
    ensures LinesFit(words, order)
  {
    forall i, k | 0 <= i < k < |order| ensures order[i] != order[k] {
      assert places[order[i]] == i && places[order[k]] == k;
    }
  }

  /** The first `n` lines in `order` point to the next ones. */
  ghost predicate LinkedSoFar(words: seq<nat>, base: nat, order: seq<nat>, n: nat)
    requires n < |order|
  {
    && LinesFit(words, order)
    && forall k :: 0 <= k < n ==> words[8 * order[k]] == LineAddress(base, order[k + 1])
  }

  lemma NothingLinked(words: seq<nat>, base: nat, order: seq<nat>)
    requires order != [] && LinesFit(words, order)
    ensures LinkedSoFar(words, base, order, 0)
  {
  }

  lemma LineInside(words: seq<nat>, base: nat, order: seq<nat>, n: nat)
    requires n < |order| && LinkedSoFar(words, base, order, n)
    ensures 8 * order[n] < |words|
  {
  }

  lemma LinkNext(words: seq<nat>, base: nat, order: seq<nat>, n: nat)
    requires n + 1 < |order| && LinkedSoFar(words, base, order, n)
    ensures LinkedSoFar(words[8 * order[n] := LineAddress(base, order[n + 1])], base, order, n + 1)
  {
  }

  lemma LinkLast(words: seq<nat>, base: nat, order: seq<nat>, n: nat)
    requires n + 1 == |order| && LinkedSoFar(words, base, order, n)
    ensures IsChain(words[8 * order[n] := LineAddress(base, order[0])], base, order)
  {
  }

  /** The line `from`, which is the one at place `n` of the order, is made to point to the line `to`. */
  method LinkLine(memory: array<nat>, from: nat, to: nat, start: nat, ghost order: seq<nat>, ghost n: nat)
    requires n < |order| && LinkedSoFar(memory[..], start, order, n) && order[n] == from
    requires order[if n + 1 < |order| then n + 1 else 0] == to
    modifies memory
    ensures n + 1 < |order| ==> LinkedSoFar(memory[..], start, order, n + 1)
    ensures n + 1 == |order| ==> IsChain(memory[..], start, order)
  {
    hide LinkedSoFar, IsChain, LinesFit;
    LineInside(memory[..], start, order, n);
    ghost var before := memory[..];
    memory[from * 8] := start + 8 * (to * 8);
    assert memory[..] == before[8 * from := LineAddress(start, to)];
    if n + 1 < |order| {
      LinkNext(before, start, order, n);
    } else {
      LinkLast(before, start, order, n);
    }
  }

  /** Write the pointers, line by line in the order of `indices`. */
  method LinkLines(memory: array<nat>, indices: array<nat>, start: nat, ghost places: seq<nat>)
    requires memory != indices && indices.Length > 0 && Inverse(indices[..], places)
    requires 8 * indices.Length <= memory.Length
    modifies memory
    ensures IsChain(memory[..], start, indices[..])
  {
    var len, i := indices.Length, 1;
    ghost var order := indices[..];
    LinesApart(memory[..], order, places);
    hide Inverse, IsChain, LinesFit;
    NothingLinked(memory[..], start, order);
    hide LinkedSoFar;
    while i < len
      invariant 1 <= i <= len && indices[..] == order && LinkedSoFar(memory[..], start, order, i - 1)
    {
      LinkLine(memory, indices[i - 1], indices[i], start, order, i - 1);
      i := i + 1;
    }
    LinkLine(memory, indices[len - 1], indices[0], start, order, len - 1);
  }

  /** Memory as malloc hands it out: words, and the address of the first. */
  class Buffer {
    const base: nat
    const words: array<nat>

    constructor (size: nat, base: nat)
      ensures this.base == base && words.Length == size / 8 && fresh(words)
    {
      this.base := base;
      words := new nat[size / 8];
    }
  }

  /** The first words of `lines` cache lines form a single cycle, by pointers into the memory at `base`. */
  ghost predicate OneCycle(words: seq<nat>, base: nat, lines: nat) {
    exists order: seq<nat>, places: seq<nat> ::
      |order| == lines > 0 && Inverse(order, places) && IsChain(words, base, order)
  }

  lemma ChainIsOneCycle(words: seq<nat>, base: nat, len: nat, rand: nat -> nat)
    requires len > 0 && IsChain(words, base, Order(len, rand))
    ensures OneCycle(words, base, len)
  {
    hide IsChain, Inverse;
    var places := OrderIsPermutation(len, rand);
  }

  /**
   create_random_chain_starting_at: link the lines of fresh memory in a random order, with pointers into the memory at
   `start`. `address` is where malloc puts it.
   */
  method CreateRandomChainStartingAt(size: nat, start: nat, address: nat, rand: nat -> nat) returns (memory: Buffer)
    requires size >= 64
    ensures fresh(memory) && fresh(memory.words) && memory.words.Length == size / 8 && memory.base == address
    ensures IsChain(memory.words[..], start, Order(size / 64, rand))
    ensures var order := Order(size / 64, rand);
            forall k :: 0 <= k < |order| ==>
              8 * order[k] < memory.words.Length
              && memory.words[8 * order[k]] == start + 64 * order[if k + 1 < |order| then k + 1 else 0]
  {
    var len := size / 64;
    memory := new Buffer(size, address);
    var indices := ShuffledLines(len, rand);
    ghost var places := OrderIsPermutation(len, rand);
    LinkLines(memory.words, indices, start, places);
    hide IsChain, Inverse;
    PointersOf(memory.words[..], start, Order(len, rand));
  }

  /** create_random_chain: the pointers lead to the memory's own lines, wherever it lies. */
  method CreateRandomChain(size: nat, address: nat, rand: nat -> nat) returns (memory: Buffer)
    requires size >= 64
    ensures fresh(memory) && fresh(memory.words) && memory.words.Length == size / 8
    ensures memory.base == address && OneCycle(memory.words[..], memory.base, size / 64)
    ensures var order := Order(size / 64, rand);
            forall k :: 0 <= k < |order| ==>
              8 * order[k] < memory.words.Length
              && memory.words[8 * order[k]] == address + 64 * order[if k + 1 < |order| then k + 1 else 0]
  {
    var len := size / 64;
    memory := new Buffer(size, address);
    var indices := ShuffledLines(len, rand);
    ghost var places := OrderIsPermutation(len, rand);
    LinkLines(memory.words, indices, memory.base, places);
    hide IsChain, Inverse, OneCycle;
    PointersOf(memory.words[..], address, Order(len, rand));
    ChainIsOneCycle(memory.words[..], memory.base, len, rand);
  }

  /** A buffer that holds the bytes of a relocated chain is a chain at its own address. */
  lemma RelocatedChain(memory: seq<nat>, buffer: seq<nat>, start: nat, order: seq<nat>)
    requires IsChain(memory, start, order) && |buffer| >= |memory| && buffer[..|memory|] == memory
    ensures IsChain(buffer, start, order)
  {
    forall k | 0 <= k < |order|
      ensures 8 * order[k] < |buffer|
      ensures buffer[8 * order[k]] == LineAddress(start, order[if k + 1 < |order| then k + 1 else 0])
    {
      assert buffer[8 * order[k]] == memory[8 * order[k]];
    }
  }

  lemma StartOfBuffer(base: nat, order: seq<nat>, places: seq<nat>)
    requires Inverse(order, places) && |order| > 0
    ensures places[0] < |order| && order[places[0]] == 0
    ensures LineAddress(base, 0) == base && Follow([], base, base, 0) == base
  {
  }

  /** Wherever the walk stands, the next dereference stays inside the buffer. */
  lemma WalkOn(words: seq<nat>, base: nat, order: seq<nat>, places: seq<nat>, steps: nat)
    requires IsChain(words, base, order) && Inverse(order, places) && |order| > 0
    ensures var p := Follow(words, base, base, steps);
            && base <= p && (p - base) / 8 < |words|
            && Deref(words, base, p) == words[(p - base) / 8] == Follow(words, base, base, steps + 1)
    ensures Follow(words, base, base, 0) == base
  {
    StartOfBuffer(base, order, places);
    FollowGoesAround(words, base, order, places[0], steps);
    OneStep(words, base, order, (places[0] + steps) % |order|);
    hide IsChain, Inverse;
  }

  /** chase_pointers: `count` dereferences from the start of the buffer, and one more to publish the last value. */
  method ChasePointers(memory: Buffer, count: int, ghost lines: nat) returns (p: nat, published: nat)
    requires OneCycle(memory.words[..], memory.base, lines)
    ensures p == Follow(memory.words[..], memory.base, memory.base, if count < 0 then 0 else count)
    ensures published == Deref(memory.words[..], memory.base, p)
    ensures p == memory.base <==> count <= 0 || count % lines == 0
  {
    ghost var words, base := memory.words[..], memory.base;
    ghost var order: seq<nat>, places: seq<nat> :|
      |order| == lines && Inverse(order, places) && IsChain(words, base, order);
    p := memory.base;
    var remaining := count;
    ghost var steps: nat := 0;
    StartOfBuffer(base, order, places);
    hide IsChain, Inverse, Follow, Deref, InBuffer;
    while remaining > 0
      invariant steps == (if count < 0 then 0 else count) - (if remaining < 0 then 0 else remaining)
      invariant p == Follow(words, base, base, steps)
    {
      WalkOn(words, base, order, places, steps);
      p := memory.words[(p - memory.base) / 8];
      remaining := remaining - 1;
      steps := steps + 1;
    }
    WalkOn(words, base, order, places, steps);
    published := memory.words[(p - memory.base) / 8];
    BackAfterEveryRound(words, base, order, places, 0, steps);
  }

  lemma SmallCount(count: nat, n: nat)
    requires 0 < count <= n
    ensures count % n == 0 <==> count == n
  {
    if count == n {
      DivisionIsUnique(count, n, 1, 0);
    } else {
      DivisionIsUnique(count, n, 0, count);
    }
  }

  lemma BackAtTheEnd(words: seq<nat>, base: nat, order: seq<nat>, places: seq<nat>, count: nat)
    requires IsChain(words, base, order) && Inverse(order, places) && 0 < count <= |order|
    ensures Follow(words, base, base, count) == base <==> count == |order|
  {
    StartOfBuffer(base, order, places);
    hide IsChain, Inverse, Follow;
    BackAfterEveryRound(words, base, order, places, 0, count);
    SmallCount(count, |order|);
  }

  /** debug_chain: walk until the start comes back, and count. */
  method DebugChain(memory: Buffer, ghost lines: nat) returns (count: nat)
    requires OneCycle(memory.words[..], memory.base, lines)
    ensures count == lines
  {
    ghost var words, base := memory.words[..], memory.base;
    ghost var order: seq<nat>, places: seq<nat> :|
      |order| == lines && Inverse(order, places) && IsChain(words, base, order);
    var p := memory.base;
    count := 0;
    var again := true;
    hide IsChain, Inverse, Follow, Deref, InBuffer;
    WalkOn(words, base, order, places, 0);
    while again
      invariant count <= lines && (count == 0 ==> again)
      invariant p == Follow(words, base, base, count)
      invariant count > 0 ==> (again <==> p != base)
      invariant again ==> count < lines
      decreases lines - count
    {
      WalkOn(words, base, order, places, count);
      p := memory.words[(p - memory.base) / 8];
      count := count + 1;
      again := p != memory.base;
      BackAtTheEnd(words, base, order, places, count);
    }
    BackAtTheEnd(words, base, order, places, count);
  }

  /** For every outcome of rand() and every address, a fresh chain of `size` bytes is counted as size / 64 pointers. */
  method CountFreshChain(size: nat, address: nat, rand: nat -> nat) returns (count: nat)
    requires size >= 64
    ensures count == size / 64
  {
    var memory := CreateRandomChain(size, address, rand);
    count := DebugChain(memory, size / 64);
  }

  /** The same for a chain made elsewhere for the buffer `destination`, once its bytes have been copied there. */
  method CountCopiedChain(size: nat, destination: Buffer, address: nat, rand: nat -> nat) returns (count: nat)
    requires size >= 64 && destination.words.Length == size / 8
    modifies destination.words
    ensures count == size / 64
  {
    hide IsChain, OneCycle;
    var source := CreateRandomChainStartingAt(size, destination.base, address, rand);
    ghost var made := source.words[..];
    for i := 0 to size / 8
      invariant source.words[..] == made
      invariant forall k :: 0 <= k < i ==> destination.words[k] == source.words[k]
    {
      destination.words[i] := source.words[i];
    }
    RelocatedChain(source.words[..], destination.words[..], destination.base, Order(size / 64, rand));
    ChainIsOneCycle(destination.words[..], destination.base, size / 64, rand);
    count := DebugChain(destination, size / 64);
  }
}
