/**
 Consistent hashing of keys to shards: a run reads single bits of an endless bit stream derived from
 the key, dropping one level on each zero gate bit, and retries when the number it draws is too large.
 */
module Furc {
  import opened Words
  import opened Wrappers
  import Murmur

  type Uint32 = x: nat | x < 0x1_0000_0000
  type Key = k: seq<Byte> | |k| < TWO64

  const MAX_TRIES: nat := 32
  const FURC_SHIFT: nat := 23
  const FURC_CACHE_SIZE: nat := 1024

  // ----- the bit stream of a key -----

  type Stream = nat -> bool

  /** Word `n` of the stream: the hash of the key, rehashed `n` times. */
  function Chain(key: Key, n: nat): Word {
    if n == 0 then Murmur.Hash(key, Murmur.SEED) else Murmur.Rehash(Chain(key, n - 1))
  }

  predicate Bit(key: Key, index: nat) {
    Shr(Chain(key, index / 64), index % 64) % 2 == 1
  }

  /** A null key reads as all zeros. */
  function Bits(key: Option<Key>): Stream {
    (index: nat) => key.Some? && Bit(key.value, index)
  }

  /** Keys whose streams start with different words never share a word at the same position. */
  lemma {:induction false} ChainsStayApart(k1: Key, k2: Key, n: nat)
    ensures Chain(k1, n) == Chain(k2, n) <==> Chain(k1, 0) == Chain(k2, 0)
  {
    hide Murmur.Rehash, Murmur.Hash;
    if n == 0 {
    } else {
      ChainsStayApart(k1, k2, n - 1);
      Murmur.RehashInjective(Chain(k1, n - 1), Chain(k2, n - 1));
    }
  }

  // ----- what a run computes, without its cursor -----

  /** The number of levels for `m` shards: the least `d` with `m <= 2^d`. */
  function Levels(m: nat): (d: nat)
    ensures m <= Pow2(d)
    ensures d > 0 ==> Pow2(d - 1) < m
  {
    if m <= 1 then 0 else
      assert (m + 1) / 2 < m;
      Levels((m + 1) / 2) + 1
  }

  /** Attempt `k` at level `d` owns the `d` consecutive stream positions from here on, FURC_SHIFT apart. */
  function Cursor(d: nat, k: nat): nat {
    d + FURC_SHIFT * (d * k)
  }

  function BitValue(b: bool): nat {
    if b then 1 else 0
  }

  /** The number with a leading one and `width` further digits drawn from position `a` on. */
  function Draw(bits: Stream, a: nat, width: nat): nat {
    if width == 0 then 1 else 2 * Draw(bits, a, width - 1) + BitValue(bits(a + FURC_SHIFT * (width - 1)))
  }

  /** Candidate number of attempt `k` at level `d`; its first position is the gate. */
  function Candidate(bits: Stream, d: nat, k: nat): nat
    requires d > 0
  {
    Draw(bits, Cursor(d, k) + FURC_SHIFT, d - 1)
  }

  datatype Outcome = Shard(number: nat) | Bottom | Exhausted {
    /** Both ways of giving up return zero. */
    function Value(): nat {
      if Shard? then number else 0
    }
  }

  function Search(bits: Stream, m: nat, d: nat, k: nat, tries: nat): Outcome
    decreases d, tries
  {
    if d == 0 then Bottom
    else if tries == 0 then Exhausted
    else if !bits(Cursor(d, k)) then Search(bits, m, d - 1, 0, tries)
    else if Candidate(bits, d, k) < m then Shard(Candidate(bits, d, k))
    else Search(bits, m, d, k + 1, tries - 1)
  }

  function Place(bits: Stream, m: nat): Outcome {
    Search(bits, m, Levels(m), 0, MAX_TRIES)
  }

  /** The shard of a key among `m` shards. */
  function ShardOf(key: Option<Key>, m: nat): nat {
    Place(Bits(key), m).Value()
  }

  // ----- range of the result -----

  lemma {:induction false} DrawBounds(bits: Stream, a: nat, width: nat)
    ensures Pow2(width) <= Draw(bits, a, width) < Pow2(width + 1)
  {
    if width == 0 {
    } else {
      DrawBounds(bits, a, width - 1);
    }
  }

  /** A number drawn at level `d` has exactly `d` binary digits. */
  lemma CandidateBounds(bits: Stream, d: nat, k: nat)
    requires d > 0
    ensures Pow2(d - 1) <= Candidate(bits, d, k) < Pow2(d)
  {
    DrawBounds(bits, Cursor(d, k) + FURC_SHIFT, d - 1);
  }

  lemma {:induction false} SearchInRange(bits: Stream, m: nat, d: nat, k: nat, tries: nat)
    ensures var o := Search(bits, m, d, k, tries); o.Shard? ==> 1 <= o.number < m
    decreases d, tries
  {
    if d == 0 || tries == 0 {
    } else {
      CandidateBounds(bits, d, k);
      if !bits(Cursor(d, k)) {
        SearchInRange(bits, m, d - 1, 0, tries);
      } else if Candidate(bits, d, k) >= m {
        SearchInRange(bits, m, d, k + 1, tries - 1);
      }
    }
  }

  /** The result always names a shard of the pool; an empty pool is treated like a pool of one. */
  lemma ShardInRange(key: Option<Key>, m: nat)
    ensures ShardOf(key, m) < if m == 0 then 1 else m
  {
    SearchInRange(Bits(key), m, Levels(m), 0, MAX_TRIES);
  }

  lemma {:induction false} ZerosReachBottom(bits: Stream, m: nat, d: nat, tries: nat)
    requires tries > 0 && forall p: nat :: !bits(p)
    ensures Search(bits, m, d, 0, tries) == Bottom
  {
    if d == 0 {
    } else {
      ZerosReachBottom(bits, m, d - 1, tries);
    }
  }

  /** A null key falls through all levels, to shard 0. */
  lemma NullKey(m: nat)
    ensures ShardOf(None, m) == 0
  {
    ZerosReachBottom(Bits(None), m, Levels(m), MAX_TRIES);
  }

  // ----- minimal movement -----

  /**
   Started at the same place, the larger pool draws a number the smaller one cannot use or both runs
   end alike.
   */
  lemma {:induction false} SameStart(bits: Stream, m: nat, m': nat, d: nat, k: nat, tries: nat)
    requires m <= m'
    ensures var o := Search(bits, m', d, k, tries);
            (o.Shard? && o.number >= m) || Search(bits, m, d, k, tries) == o
    decreases d, tries
  {
    if d == 0 || tries == 0 {
    } else {
      if !bits(Cursor(d, k)) {
        SameStart(bits, m, m', d - 1, 0, tries);
      } else if Candidate(bits, d, k) >= m' {
        SameStart(bits, m, m', d, k + 1, tries - 1);
      }
    }
  }

  /** Below the top level every drawn number fits, so one remaining try is as good as many. */
  lemma {:induction false} OneTryIsEnough(bits: Stream, m: nat, d: nat, tries: nat)
    requires Pow2(d) <= m && tries > 0
    ensures Search(bits, m, d, 0, tries) == Search(bits, m, d, 0, MAX_TRIES)
    ensures !Search(bits, m, d, 0, tries).Exhausted?
    decreases d
  {
    if d == 0 {
    } else {
      CandidateBounds(bits, d, 0);
      if !bits(Cursor(d, 0)) {
        OneTryIsEnough(bits, m, d - 1, tries);
      }
    }
  }

  /** A run from above level `e` stops there with a number of more than `e` digits, gives up, or passes through `e`. */
  lemma {:induction false} PassesThrough(bits: Stream, m: nat, d: nat, k: nat, tries: nat, e: nat)
    requires e < d && Pow2(e) <= m
    ensures var o := Search(bits, m, d, k, tries);
            || o.Exhausted?
            || (o.Shard? && o.number >= Pow2(e))
            || o == Search(bits, m, e, 0, MAX_TRIES)
    decreases d, tries
  {
    if tries == 0 {
    } else {
      CandidateBounds(bits, d, k);
      Pow2Monotone(e, d - 1);
      if !bits(Cursor(d, k)) {
        if d - 1 == e {
          OneTryIsEnough(bits, m, e, tries);
        } else {
          PassesThrough(bits, m, d - 1, 0, tries, e);
        }
      } else if Candidate(bits, d, k) >= m {
        PassesThrough(bits, m, d, k + 1, tries - 1, e);
      }
    }
  }

  lemma {:induction false} LevelsMonotone(m: nat, m': nat)
    requires m <= m'
    ensures Levels(m) <= Levels(m')
  {
    if Levels(m') < Levels(m) {
      Pow2Monotone(Levels(m'), Levels(m) - 1);
      assert false;
    }
  }

  lemma LevelsUnique(m: nat, d: nat)
    requires m <= Pow2(d) && (d > 0 ==> Pow2(d - 1) < m)
    ensures Levels(m) == d
  {
    hide Levels;
    if Levels(m) < d {
      Pow2Monotone(Levels(m), d - 1);
      assert false;
    } else if d < Levels(m) {
      Pow2Monotone(d, Levels(m) - 1);
      assert false;
    }
  }

  /** Growing the pool: a key placed below `m` by the larger pool was there before, or the larger run gave up. */
  lemma GrowthKeepsOutcome(bits: Stream, m: nat, m': nat)
    requires m <= m' && Place(bits, m').Value() < m
    ensures Place(bits, m) == Place(bits, m') || (Place(bits, m').Exhausted? && Levels(m) < Levels(m'))
  {
    var e, d := Levels(m), Levels(m');
    LevelsMonotone(m, m');
    if e == d {
      SameStart(bits, m, m', d, 0, MAX_TRIES);
    } else {
      Pow2Monotone(e, d - 1);
      PassesThrough(bits, m', d, 0, MAX_TRIES, e);
      SameStart(bits, m, m', e, 0, MAX_TRIES);
    }
  }

  /**
   Minimal movement, exactly: when the pool grows from `m` to `m'`, a key that is not sent to one of the new
   shards keeps its shard, unless the larger run used up its tries while the smaller one found a shard.
   */
  lemma MinimalMovement(bits: Stream, m: nat, m': nat)
    requires m <= m' && Place(bits, m').Value() < m
    ensures Place(bits, m).Value() == Place(bits, m').Value()
       <==> !(Place(bits, m').Exhausted? && Place(bits, m).Shard?)
    ensures Levels(m) == Levels(m') ==> Place(bits, m) == Place(bits, m')
  {
    GrowthKeepsOutcome(bits, m, m');
    SearchInRange(bits, m, Levels(m), 0, MAX_TRIES);
  }

  /** Tries only run out at the top level, when each of its attempts passes the gate and draws too large a number. */
  ghost predicate AllTriesTooLarge(bits: Stream, m: nat, d: nat, from: nat) {
    d > 0 && forall k: nat :: from <= k < MAX_TRIES ==> bits(Cursor(d, k)) && Candidate(bits, d, k) >= m
  }

  lemma {:induction false} ExhaustedFrom(bits: Stream, m: nat, d: nat, k: nat)
    requires d > 0 && k <= MAX_TRIES && Pow2(d - 1) <= m
    ensures Search(bits, m, d, k, MAX_TRIES - k).Exhausted? <==> AllTriesTooLarge(bits, m, d, k)
    decreases MAX_TRIES - k
  {
    if k == MAX_TRIES {
    } else {
      ExhaustedFrom(bits, m, d, k + 1);
      if !bits(Cursor(d, k)) {
        OneTryIsEnough(bits, m, d - 1, MAX_TRIES - k);
      }
    }
  }

  /** A run gives up exactly when all 32 attempts at the top level pass their gate and draw too large a number. */
  lemma ExhaustedExactly(bits: Stream, m: nat)
    ensures Place(bits, m).Exhausted? <==>
              var d := Levels(m);
              m >= 2 && forall k: nat :: k < 32 ==> bits(Cursor(d, k)) && Candidate(bits, d, k) >= m
  {
    hide Candidate, Cursor;
    if m >= 2 {
      ExhaustedFrom(bits, m, Levels(m), 0);
      hide Search, Levels;
      assert AllTriesTooLarge(bits, m, Levels(m), 0) <==>
               forall k: nat :: k < 32 ==> bits(Cursor(Levels(m), k)) && Candidate(bits, Levels(m), k) >= m;
    }
  }

  /** A pool whose size is a power of two never gives up, so growing to it never moves a key between old shards. */
  lemma GrowthToPowerOfTwo(key: Option<Key>, m: nat, n: nat)
    requires m <= Pow2(n)
    ensures !Place(Bits(key), Pow2(n)).Exhausted?
    ensures ShardOf(key, Pow2(n)) == ShardOf(key, m) || ShardOf(key, Pow2(n)) >= m
  {
    var m', bits := Pow2(n), Bits(key);
    LevelsUnique(m', n);
    OneTryIsEnough(bits, m', n, MAX_TRIES);
    if ShardOf(key, m') < m {
      MinimalMovement(bits, m, m');
    }
  }

  /** Growing from `m` to `m'` shards moves keys of this stream to new shards only. */
  predicate MovesToNewShardsOnly(bits: Stream, m: nat, m': nat) {
    Place(bits, m').Value() < m ==> Place(bits, m).Value() == Place(bits, m').Value()
  }

  lemma {:induction false} DrawOnes(bits: Stream, a: nat, width: nat)
    requires forall p: nat :: p >= a ==> bits(p)
    ensures Draw(bits, a, width) == Pow2(width + 1) - 1
  {
    if width == 0 {
    } else {
      DrawOnes(bits, a, width - 1);
    }
  }

  /** Ones everywhere but at position `z`. */
  function OnesBut(z: nat): Stream {
    (p: nat) => p != z
  }

  /** Every level above `z` draws ones only. */
  lemma OnesAbove(z: nat, d: nat, k: nat)
    requires z < d
    ensures OnesBut(z)(Cursor(d, k)) && Candidate(OnesBut(z), d, k) == Pow2(d) - 1
  {
    hide Draw;
    DrawOnes(OnesBut(z), Cursor(d, k) + FURC_SHIFT, d - 1);
  }

  /** A stream whose zero is the gate of level `e`, if that is above 1, so that a run over `m` shards drops below it. */
  function Witness(e: nat): Stream {
    OnesBut(if e == 1 then 0 else e)
  }

  /** The smaller pool finds a shard there: at level 1 at once, and otherwise one level down. */
  lemma SmallerPoolFindsAShard(m: nat)
    requires m >= 2
    ensures Place(Witness(Levels(m)), m).Shard?
  {
    var e := Levels(m);
    var bits := Witness(e);
    assert Pow2(0) == 1 && Pow2(1) == 2;
    if e == 1 {
      OnesAbove(0, 1, 0);
      assert Search(bits, m, 1, 0, MAX_TRIES) == Shard(1);
    } else {
      assert !bits(Cursor(e, 0)) && bits(Cursor(e - 1, 0));
      CandidateBounds(bits, e - 1, 0);
      hide Candidate, Levels;
      assert Search(bits, m, e, 0, MAX_TRIES) == Search(bits, m, e - 1, 0, MAX_TRIES);
      assert Search(bits, m, e - 1, 0, MAX_TRIES) == Shard(Candidate(bits, e - 1, 0));
    }
  }

  /** Growth across levels to a size that is no power of two can move a key between old shards. */
  lemma ExhaustionMovesAKey(m: nat, m': nat)
    requires 2 <= m <= m' && Levels(m) < Levels(m') && m' != Pow2(Levels(m'))
    ensures var bits := Witness(Levels(m));
            && Place(bits, m') == Exhausted && Place(bits, m).Shard?
            && !MovesToNewShardsOnly(bits, m, m')
  {
    var e, d := Levels(m), Levels(m');
    var z := if e == 1 then 0 else e;
    SmallerPoolFindsAShard(m);
    SearchInRange(Witness(e), m, e, 0, MAX_TRIES);
    hide Draw, Candidate, Cursor, Levels, Search;
    forall k: nat | k < MAX_TRIES ensures Witness(e)(Cursor(d, k)) && Candidate(Witness(e), d, k) >= m' {
      OnesAbove(z, d, k);
    }
    ExhaustedExactly(Witness(e), m');
  }

  /**
   Minimal movement by pool sizes: growing from `m` to `m'` never moves a key between old shards, whatever its stream,
   exactly if there is at most one old shard, or both pools need the same number of levels, or the larger size is a
   power of two.
   */
  lemma GrowthIsSafeExactly(m: nat, m': nat)
    requires m <= m'
    ensures (forall bits: Stream :: MovesToNewShardsOnly(bits, m, m'))
       <==> m <= 1 || Levels(m) == Levels(m') || m' == Pow2(Levels(m'))
  {
    if m <= 1 || Levels(m) == Levels(m') || m' == Pow2(Levels(m')) {
      forall bits: Stream ensures MovesToNewShardsOnly(bits, m, m') {
        if Place(bits, m').Value() < m {
          MinimalMovement(bits, m, m');
          if m' == Pow2(Levels(m')) {
            OneTryIsEnough(bits, m', Levels(m'), MAX_TRIES);
          }
        }
      }
    } else {
      LevelsMonotone(m, m');
      ExhaustionMovesAKey(m, m');
      assert !MovesToNewShardsOnly(Witness(Levels(m)), m, m');
    }
  }

  // ----- which bits a run reads -----

  function DrawReads(a: nat, width: nat): (r: seq<nat>)
    ensures |r| == width
    ensures forall i :: 0 <= i < width ==> r[i] == a + FURC_SHIFT * i
  {
    seq(width, i requires 0 <= i => a + FURC_SHIFT * i)
  }

  /** The bit positions of a run, in reading order. */
  function Reads(bits: Stream, m: nat, d: nat, k: nat, tries: nat): seq<nat>
    decreases d, tries
  {
    if d == 0 || tries == 0 then []
    else if !bits(Cursor(d, k)) then [Cursor(d, k)] + Reads(bits, m, d - 1, 0, tries)
    else
      DrawReads(Cursor(d, k), d)
      + if Candidate(bits, d, k) < m then [] else Reads(bits, m, d, k + 1, tries - 1)
  }

  lemma ReadsStep(bits: Stream, m: nat, d: nat, k: nat, tries: nat)
    ensures var all, cursor := Reads(bits, m, d, k, tries), Cursor(d, k);
            if d == 0 || tries == 0 then all == []
            else if !bits(cursor) then all == [cursor] + Reads(bits, m, d - 1, 0, tries)
            else if Candidate(bits, d, k) < m then all == DrawReads(cursor, d)
            else all == DrawReads(cursor, d) + Reads(bits, m, d, k + 1, tries - 1)
  {
    hide Candidate, Cursor, DrawReads;
    if d > 0 && tries > 0 && bits(Cursor(d, k)) && Candidate(bits, d, k) < m {
      assert DrawReads(Cursor(d, k), d) + [] == DrawReads(Cursor(d, k), d);
    }
  }

  ghost predicate Distinct(s: seq<nat>) {
    forall i, j :: 0 <= i < j < |s| ==> s[i] != s[j]
  }

  /** The only level of a run over at most 24 levels that can read position `p`. */
  function LevelOf(p: nat): nat {
    if p == 1 then 1
    else if p % FURC_SHIFT <= 1 then p % FURC_SHIFT + FURC_SHIFT
    else p % FURC_SHIFT
  }

  lemma PositionResidue(d: nat, q: nat)
    requires 1 <= d <= FURC_SHIFT + 1 && (d == 1 ==> q == 0)
    ensures LevelOf(d + FURC_SHIFT * q) == d
  {
  }

  lemma DrawStaysOnLevel(d: nat, k: nat)
    requires 1 <= d <= FURC_SHIFT + 1 && (d == 1 ==> k == 0)
    ensures forall p :: p in DrawReads(Cursor(d, k), d) ==>
              LevelOf(p) == d && Cursor(d, k) <= p < Cursor(d, k + 1)
    ensures Distinct(DrawReads(Cursor(d, k), d))
  {
    var r := DrawReads(Cursor(d, k), d);
    assert d * (k + 1) == d * k + d;
    forall i | 0 <= i < d
      ensures LevelOf(r[i]) == d && Cursor(d, k) <= r[i] < Cursor(d, k + 1)
    {
      var q := d * k + i;
      assert r[i] == d + FURC_SHIFT * q;
      PositionResidue(d, q);
    }
  }

  /** What is read from attempt `k` at level `d` on stays on lower levels or moves forward on this one. */
  ghost predicate Ahead(positions: seq<nat>, d: nat, k: nat) {
    forall p :: p in positions ==> LevelOf(p) <= d && (LevelOf(p) == d ==> Cursor(d, k) <= p)
  }

  lemma DistinctAppend(s: seq<nat>, t: seq<nat>)
    requires Distinct(s) && Distinct(t)
    requires forall p :: p in s ==> p !in t
    ensures Distinct(s + t)
  {
    var st := s + t;
    forall i, j | 0 <= i < j < |st| ensures st[i] != st[j] {
      if i < |s| <= j {
        assert st[i] in s && st[j] in t;
      }
    }
  }

  lemma AheadAfterDrop(d: nat, k: nat, rest: seq<nat>)
    requires 1 <= d <= FURC_SHIFT + 1 && (d == 1 ==> k == 0)
    requires Ahead(rest, d - 1, 0) && Distinct(rest)
    ensures Ahead([Cursor(d, k)] + rest, d, k) && Distinct([Cursor(d, k)] + rest)
  {
    PositionResidue(d, d * k);
    DistinctAppend([Cursor(d, k)], rest);
  }

  lemma CursorAdvances(d: nat, k: nat)
    ensures Cursor(d, k) <= Cursor(d, k + 1)
  {
    assert d * (k + 1) == d * k + d;
  }

  lemma AheadAfterRetry(d: nat, k: nat, draw: seq<nat>, rest: seq<nat>)
    requires forall p :: p in draw ==> LevelOf(p) == d && Cursor(d, k) <= p < Cursor(d, k + 1)
    requires Ahead(rest, d, k + 1)
    requires Distinct(draw) && Distinct(rest)
    ensures Ahead(draw + rest, d, k) && Distinct(draw + rest)
  {
    hide LevelOf, Cursor;
    CursorAdvances(d, k);
    DistinctAppend(draw, rest);
  }

  lemma NothingAhead(d: nat, k: nat)
    ensures Ahead([], d, k) && Distinct([])
  {
  }

  lemma {:induction false} ReadsMoveAhead(bits: Stream, m: nat, d: nat, k: nat, tries: nat)
    requires m >= 2 && d <= FURC_SHIFT + 1 && (d == 1 ==> k == 0)
    ensures Ahead(Reads(bits, m, d, k, tries), d, k)
    ensures Distinct(Reads(bits, m, d, k, tries))
    decreases d, tries
  {
    hide LevelOf, Cursor, Candidate, Ahead, Distinct, Reads;
    ReadsStep(bits, m, d, k, tries);
    if d == 0 || tries == 0 {
      NothingAhead(d, k);
    } else if !bits(Cursor(d, k)) {
      ReadsMoveAhead(bits, m, d - 1, 0, tries);
      AheadAfterDrop(d, k, Reads(bits, m, d - 1, 0, tries));
    } else {
      var draw := DrawReads(Cursor(d, k), d);
      DrawStaysOnLevel(d, k);
      CandidateBounds(bits, d, k);
      if Candidate(bits, d, k) < m {
        NothingAhead(d, k + 1);
        AheadAfterRetry(d, k, draw, []);
        assert draw + [] == draw;
      } else {
        assert Pow2(1) == 2;
        ReadsMoveAhead(bits, m, d, k + 1, tries - 1);
        AheadAfterRetry(d, k, draw, Reads(bits, m, d, k + 1, tries - 1));
      }
    }
  }

  lemma NothingIsRead(bits: Stream, m: nat)
    ensures Reads(bits, m, 0, 0, MAX_TRIES) == []
  {
  }

  /** The first word of the stream has a single one, at position 2. */
  ghost predicate LoneBit(bits: Stream) {
    forall i: nat :: i < 64 ==> (bits(i) <==> i == 2)
  }

  /** A run from any level up to 32 drops to level 2 and reads position 25 last; from level 25 on it has been there. */
  lemma {:induction false} LoneBitReads(bits: Stream, m: nat, d: nat, tries: nat)
    requires LoneBit(bits) && m >= 4 && 2 <= d <= 32 && tries > 0
    ensures var r := Reads(bits, m, d, 0, tries);
            |r| >= 2 && r[|r| - 1] == 2 + FURC_SHIFT && (d > 2 ==> r[0] == d)
    ensures var r := Reads(bits, m, d, 0, tries);
            d >= 25 ==> exists i :: 0 <= i < |r| - 1 && r[i] == 25
  {
    if d == 2 {
      CandidateBounds(bits, 2, 0);
      assert bits(Cursor(2, 0));
      assert Pow2(2) == 4;
      assert Reads(bits, m, 2, 0, tries) == DrawReads(2, 2);
    } else {
      var rest := Reads(bits, m, d - 1, 0, tries);
      LoneBitReads(bits, m, d - 1, tries);
      assert !bits(Cursor(d, 0));
      var r := Reads(bits, m, d, 0, tries);
      assert r == [d] + rest;
      if d == 25 {
        assert r[0] == 25;
      } else if d > 25 {
        var i :| 0 <= i < |rest| - 1 && rest[i] == 25;
        assert r[i + 1] == 25;
      }
    }
  }

  /** The eight bytes whose hash is 4, found by running the rehash backwards. */
  function LoneBitKey(): Key {
    Murmur.ToBytes(Murmur.Unrehash(4), 8)
  }

  lemma LoneBitKeyChain()
    ensures Chain(LoneBitKey(), 0) == 4
  {
    hide Murmur.Hash, Murmur.Rehash, Murmur.Unrehash;
    Murmur.RehashIsHashOfBytes(Murmur.Unrehash(4));
    Murmur.RehashInverse(4);
  }

  lemma BitsOfFour(i: nat)
    ensures Shr(4, i) % 2 == 1 <==> i == 2
  {
    assert Shr(4, 1) == 2 && Shr(4, 2) == 1;
    if i >= 3 {
      assert Pow2(3) == 8;
      Pow2Monotone(3, i);
      ShrToZero(4, i);
    }
  }

  lemma LoneBitKeyStream()
    ensures LoneBit(Bits(Some(LoneBitKey())))
  {
    LoneBitKeyChain();
    hide Chain, LoneBitKey, Shr;
    forall i: nat | i < 64 ensures Bits(Some(LoneBitKey()))(i) <==> i == 2 {
      BitsOfFour(i);
    }
  }

  lemma LoneBitRepeats(bits: Stream, m: Uint32)
    requires LoneBit(bits) && m > 0x100_0000
    ensures !Distinct(Reads(bits, m, Levels(m), 0, MAX_TRIES))
  {
    hide Levels, Reads, LoneBit;
    Pow2Values();
    var d := Levels(m);
    LevelsMonotone(m, 0x1_0000_0000);
    LevelsUnique(0x1_0000_0000, 32);
    if d <= 24 {
      Pow2Monotone(d, 24);
      assert false;
    }
    LoneBitReads(bits, m, d, MAX_TRIES);
    var r := Reads(bits, m, d, 0, MAX_TRIES);
    var i :| 0 <= i < |r| - 1 && r[i] == 25;
    assert r[i] == r[|r| - 1];
  }

  /** Up to 2^24 shards no run, on any stream at all, reads a position twice. */
  lemma DistinctUpTo24Levels(bits: Stream, m: nat)
    requires m <= 0x100_0000
    ensures Distinct(Reads(bits, m, Levels(m), 0, MAX_TRIES))
  {
    hide Levels, Reads;
    Pow2Values();
    LevelsMonotone(m, 0x100_0000);
    LevelsUnique(0x100_0000, 24);
    if m >= 2 {
      ReadsMoveAhead(bits, m, Levels(m), 0, MAX_TRIES);
    } else {
      LevelsUnique(m, 0);
      NothingIsRead(bits, m);
    }
  }

  /** No key is read twice at any position up to 2^24 shards, and for every larger pool there is a key that is. */
  lemma NoBitIsReadTwice(m: Uint32)
    ensures (forall key: Key :: Distinct(Reads(Bits(Some(key)), m, Levels(m), 0, MAX_TRIES))) <==> m <= 0x100_0000
  {
    hide Levels, Reads, Bits, Distinct;
    if m <= 0x100_0000 {
      forall key: Key ensures Distinct(Reads(Bits(Some(key)), m, Levels(m), 0, MAX_TRIES)) {
        DistinctUpTo24Levels(Bits(Some(key)), m);
      }
    } else {
      LoneBitKeyStream();
      LoneBitRepeats(Bits(Some(LoneBitKey())), m);
    }
  }

  // ----- where a run's reads lie in the chain -----

  lemma CursorFits(d: nat, k: nat, i: nat)
    requires d <= 32 && k < MAX_TRIES && i <= d
    ensures Cursor(d, k) + FURC_SHIFT * i < 64 * FURC_CACHE_SIZE
  {
    assert d * k <= 32 * k <= 32 * (MAX_TRIES - 1);
  }

  ghost predicate InMemo(positions: seq<nat>) {
    forall p :: p in positions ==> p / 64 < FURC_CACHE_SIZE
  }

  lemma DrawInMemo(d: nat, k: nat)
    requires d <= 32 && k < MAX_TRIES
    ensures InMemo([Cursor(d, k)]) && InMemo(DrawReads(Cursor(d, k), d))
  {
    hide Cursor;
    CursorFits(d, k, 0);
    forall i | 0 <= i < d ensures (Cursor(d, k) + FURC_SHIFT * i) / 64 < FURC_CACHE_SIZE {
      CursorFits(d, k, i);
    }
  }

  lemma {:induction false} ReadsInMemo(bits: Stream, m: nat, d: nat, k: nat, tries: nat)
    requires d <= 32 && k + tries <= MAX_TRIES
    ensures InMemo(Reads(bits, m, d, k, tries))
    decreases d, tries
  {
    hide Cursor, Candidate, DrawReads;
    if d == 0 || tries == 0 {
    } else {
      DrawInMemo(d, k);
      if !bits(Cursor(d, k)) {
        ReadsInMemo(bits, m, d - 1, 0, tries);
      } else if Candidate(bits, d, k) >= m {
        ReadsInMemo(bits, m, d, k + 1, tries - 1);
      }
    }
  }

  /** Over any pool of fewer than 2^32 shards, every position a run reads lies in a word of the memo array. */
  lemma ReadsFitTheMemo(bits: Stream, m: Uint32)
    ensures forall p :: p in Reads(bits, m, Levels(m), 0, MAX_TRIES) ==> p / 64 < FURC_CACHE_SIZE == 1024
  {
    hide Levels, Reads;
    Pow2Values();
    LevelsMonotone(m, 0x1_0000_0000);
    LevelsUnique(0x1_0000_0000, 32);
    ReadsInMemo(bits, m, Levels(m), 0, MAX_TRIES);
  }

  // ----- the program -----

  /** The bit positions asked for, in order, for as long as a run lasts. */
  class Log {
    ghost var positions: seq<nat>

    constructor ()
      ensures positions == []
    {
      positions := [];
    }
  }

  /** The memo array: words 0 to `oldOrd` of the chain are in place. */
  ghost predicate Cached(key: Key, hash: seq<Word>, oldOrd: int) {
    -1 <= oldOrd < |hash| && forall n :: 0 <= n <= oldOrd ==> hash[n] == Chain(key, n)
  }

  lemma ChainStep(key: Key, n: nat)
    ensures Chain(key, n) == if n == 0 then Murmur.Hash(key, Murmur.SEED) else Murmur.Rehash(Chain(key, n - 1))
  {
    hide Murmur.Hash, Murmur.Rehash;
  }

  /** `for (n = *old_ord_p + 1; n <= ord; n++)`: the missing words up to `ord`. */
  method ExtendCache(key: Key, hash: array<Word>, oldOrd: int, ord: nat)
    requires Cached(key, hash[..], oldOrd) && oldOrd < ord < hash.Length
    modifies hash
    ensures Cached(key, hash[..], ord)
  {
    hide Murmur.Hash, Murmur.Rehash, Chain, Shr;
    var n := oldOrd + 1;
    while n <= ord
      invariant oldOrd + 1 <= n <= ord + 1
      invariant forall i :: 0 <= i < n ==> hash[i] == Chain(key, i)
    {
      ChainStep(key, n);
      if n == 0 {
        hash[n] := Murmur.MurmurHash64A(key, Murmur.SEED);
      } else {
        hash[n] := Murmur.MurmurRehash64A(hash[n - 1]);
      }
      n := n + 1;
    }
  }

  lemma CachedBit(key: Key, idx: nat, hash: seq<Word>, ord: int)
    requires Cached(key, hash, ord) && idx / 64 <= ord
    ensures BitValue(Bits(Some(key))(idx)) == Shr(hash[idx / 64], idx % 64) % 2
  {
    hide Chain, Shr;
  }

  /**
   Bit `idx` of the key's stream, extending the memo array as far as needed; a null key resets the
   high-water mark and reads as zero.
   */
  method FurcGetBit(key: Option<Key>, idx: Uint32, hash: array<Word>, oldOrd: int, log: Log)
    returns (bit: Uint32, newOrd: int)
    requires key.Some? ==> Cached(key.value, hash[..], oldOrd) && idx / 64 < hash.Length
    modifies hash, log
    ensures key.None? ==> bit == 0 && newOrd == -1 && hash[..] == old(hash[..])
    ensures key.Some? ==> Cached(key.value, hash[..], newOrd)
    ensures key.Some? ==> newOrd == if oldOrd < idx / 64 then idx / 64 else oldOrd
    ensures bit == BitValue(Bits(key)(idx))
    ensures log.positions == old(log.positions) + [idx]
  {
    log.positions := log.positions + [idx];
    if key.None? {
      bit, newOrd := 0, -1;
      return;
    }
    hide Chain, Shr, Cached, Bits;
    var ord := idx / 64;
    newOrd := oldOrd;
    if oldOrd < ord {
      ExtendCache(key.value, hash, oldOrd, ord);
      newOrd := ord;
    }
    CachedBit(key.value, idx, hash[..], newOrd);
    bit := Shr(hash[ord], idx % 64) % 2;
  }

  lemma NextCursor(d: nat, k: nat)
    ensures Cursor(d, k) + FURC_SHIFT * d == Cursor(d, k + 1)
    ensures Cursor(d, 0) == d
  {
    assert d * (k + 1) == d * k + d;
  }

  /** A run at attempt `k` of level `d` that has read `trace` will end as the whole run does. */
  ghost predicate Underway(bits: Stream, m: nat, d: nat, k: nat, tries: nat, trace: seq<nat>) {
    && Search(bits, m, d, k, tries) == Place(bits, m)
    && trace + Reads(bits, m, d, k, tries) == Reads(bits, m, Levels(m), 0, MAX_TRIES)
  }

  lemma UnderwayDrop(bits: Stream, m: nat, d: nat, k: nat, tries: nat, trace: seq<nat>)
    requires Underway(bits, m, d, k, tries, trace) && d > 0 && tries > 0 && !bits(Cursor(d, k))
    ensures Underway(bits, m, d - 1, 0, tries, trace + [Cursor(d, k)])
  {
    hide Cursor, Candidate;
    var rest := Reads(bits, m, d - 1, 0, tries);
    assert trace + ([Cursor(d, k)] + rest) == (trace + [Cursor(d, k)]) + rest;
  }

  lemma UnderwayRetry(bits: Stream, m: nat, d: nat, k: nat, tries: nat, trace: seq<nat>)
    requires Underway(bits, m, d, k, tries, trace) && d > 0 && tries > 0 && bits(Cursor(d, k))
    requires Candidate(bits, d, k) >= m
    ensures Underway(bits, m, d, k + 1, tries - 1, trace + DrawReads(Cursor(d, k), d))
  {
    hide Cursor, Candidate;
    var draw, rest := DrawReads(Cursor(d, k), d), Reads(bits, m, d, k + 1, tries - 1);
    assert trace + (draw + rest) == (trace + draw) + rest;
  }

  /** Whether a run ends with value `r` having read `trace`. */
  ghost predicate Ends(bits: Stream, m: nat, r: nat, trace: seq<nat>) {
    r == Place(bits, m).Value() && trace == Reads(bits, m, Levels(m), 0, MAX_TRIES)
  }

  lemma UnderwayEnds(bits: Stream, m: nat, d: nat, k: nat, tries: nat, trace: seq<nat>)
    requires Underway(bits, m, d, k, tries, trace)
    ensures d == 0 || tries == 0 ==> Ends(bits, m, 0, trace)
    ensures d > 0 && tries > 0 && bits(Cursor(d, k)) && Candidate(bits, d, k) < m
        ==> Ends(bits, m, Candidate(bits, d, k), trace + DrawReads(Cursor(d, k), d))
  {
    hide Cursor, Candidate;
    if d == 0 || tries == 0 {
      assert trace + [] == trace;
    } else if bits(Cursor(d, k)) && Candidate(bits, d, k) < m {
      assert DrawReads(Cursor(d, k), d) + [] == DrawReads(Cursor(d, k), d);
    }
  }

  lemma UnderwayBegins(bits: Stream, m: nat)
    ensures Underway(bits, m, Levels(m), 0, MAX_TRIES, [])
  {
    assert [] + Reads(bits, m, Levels(m), 0, MAX_TRIES) == Reads(bits, m, Levels(m), 0, MAX_TRIES);
  }

  /** `for (d = 0; m > (1ul << d); d++)`. */
  method CountLevels(m: Uint32) returns (d: Uint32)
    ensures d == Levels(m) <= 32
  {
    Pow2Values();
    d := 0;
    while m > Pow2(d)
      invariant d <= 32 && (d > 0 ==> Pow2(d - 1) < m)
      decreases 32 - d
    {
      d := d + 1;
    }
    LevelsUnique(m, d);
  }

  lemma NumberFits(bits: Stream, a: nat, i: nat)
    requires i + 2 <= 32
    ensures Draw(bits, a, i + 1) < 0x1_0000_0000
  {
    DrawBounds(bits, a, i + 1);
    Pow2Monotone(i + 2, 32);
    Pow2Values();
  }

  lemma OneMoreRead(a: nat, i: nat)
    ensures DrawReads(a, i + 1) == DrawReads(a, i) + [a + FURC_SHIFT * i]
  {
  }

  /** `num = (num << 1) | furc_get_bit(...)`, for digit `i` of attempt `k`. */
  method NextDigit(key: Option<Key>, ghost d: nat, ghost k: nat, ghost i: nat, number: Uint32, a: Uint32,
                   hash: array<Word>, oldOrd: int, log: Log)
    returns (num: Uint32, newOrd: int)
    requires 1 <= d <= 32 && k < MAX_TRIES && i + 1 < d && a == Cursor(d, k) + FURC_SHIFT * (i + 1)
    requires hash.Length == FURC_CACHE_SIZE && (key.Some? ==> Cached(key.value, hash[..], oldOrd))
    requires number == Draw(Bits(key), a - FURC_SHIFT * i, i)
    modifies hash, log
    ensures key.Some? ==> Cached(key.value, hash[..], newOrd)
    ensures num == Draw(Bits(key), a - FURC_SHIFT * i, i + 1)
    ensures log.positions == old(log.positions) + [a]
  {
    hide Cursor, Bits, Cached;
    CursorFits(d, k, i + 1);
    var bit;
    bit, newOrd := FurcGetBit(key, a, hash, oldOrd, log);
    NumberFits(Bits(key), a - FURC_SHIFT * i, i);
    num := 2 * number + bit;
  }

  lemma NothingDrawn(bits: Stream, a: nat)
    ensures Draw(bits, a, 0) == 1 && DrawReads(a, 0) == []
  {
  }

  /** The inner loop of an attempt: the `d - 1` digits after the gate. */
  method DrawNumber(key: Option<Key>, d: Uint32, ghost k: nat, start: Uint32, hash: array<Word>, oldOrd: int, log: Log)
    returns (num: Uint32, a: Uint32, newOrd: int)
    requires 1 <= d <= 32 && k < MAX_TRIES && start == Cursor(d, k) + FURC_SHIFT
    requires hash.Length == FURC_CACHE_SIZE && (key.Some? ==> Cached(key.value, hash[..], oldOrd))
    modifies hash, log
    ensures key.Some? ==> Cached(key.value, hash[..], newOrd)
    ensures num == Candidate(Bits(key), d, k)
    ensures a == Cursor(d, k + 1)
    ensures log.positions == old(log.positions) + DrawReads(start, d - 1)
  {
    hide Cursor, Bits, Cached, Draw, DrawReads, Pow2;
    num, a, newOrd := 1, start, oldOrd;
    ghost var before := log.positions;
    NothingDrawn(Bits(key), start);
    var i := 0;
    while i < d - 1
      invariant i <= d - 1
      invariant a == start + FURC_SHIFT * i
      invariant key.Some? ==> Cached(key.value, hash[..], newOrd)
      invariant num == Draw(Bits(key), start, i)
      invariant log.positions == before + DrawReads(start, i)
    {
      num, newOrd := NextDigit(key, d, k, i, num, a, hash, newOrd, log);
      OneMoreRead(start, i);
      CursorFits(d, k, i + 2);
      a := a + FURC_SHIFT;
      i := i + 1;
    }
    NextCursor(d, k);
  }

  /** Of a run in progress, the log holds what was there before, its trace, and the gate last read if one is open. */
  ghost predicate Logged(positions: seq<nat>, base: seq<nat>, trace: seq<nat>, gate: seq<nat>) {
    positions == base + trace + gate
  }

  lemma LogGate(positions: seq<nat>, base: seq<nat>, trace: seq<nat>, a: nat)
    requires Logged(positions, base, trace, [])
    ensures Logged(positions + [a], base, trace, [a])
  {
  }

  lemma GateDropped(positions: seq<nat>, base: seq<nat>, trace: seq<nat>, a: nat)
    requires Logged(positions, base, trace, [a])
    ensures Logged(positions, base, trace + [a], [])
  {
  }

  lemma DrawLogged(positions: seq<nat>, base: seq<nat>, trace: seq<nat>, a: nat, d: nat)
    requires Logged(positions, base, trace, [a]) && d > 0
    ensures Logged(positions + DrawReads(a + FURC_SHIFT, d - 1), base, trace + DrawReads(a, d), [])
  {
    assert DrawReads(a, d) == [a] + DrawReads(a + FURC_SHIFT, d - 1);
  }

  lemma LogStarts(base: seq<nat>)
    ensures Logged(base, base, [], [])
  {
  }

  /** The gate loop of an attempt: drop a level, and return to its first position, on every zero bit. */
  method FindGate(key: Option<Key>, ghost m: nat, top: Uint32, start: Uint32, hash: array<Word>, oldOrd: int, log: Log,
                  ghost k0: nat, ghost tries: nat, ghost base: seq<nat>, ghost before: seq<nat>)
    returns (d: Uint32, a: Uint32, newOrd: int, ghost k: nat, ghost trace: seq<nat>)
    requires 1 <= top <= 32 && k0 <= MAX_TRIES - tries < MAX_TRIES && start == Cursor(top, k0)
    requires hash.Length == FURC_CACHE_SIZE && (key.Some? ==> Cached(key.value, hash[..], oldOrd))
    requires Underway(Bits(key), m, top, k0, tries, before) && Logged(log.positions, base, before, [])
    modifies hash, log
    ensures key.Some? ==> Cached(key.value, hash[..], newOrd)
    ensures d <= top && k <= k0 && Underway(Bits(key), m, d, k, tries, trace)
    ensures d > 0 ==> a == Cursor(d, k) && Bits(key)(a)
    ensures Logged(log.positions, base, trace, if d > 0 then [a] else [])
  {
    hide Cursor, Bits, Underway, Cached, Logged;
    ghost var bits := Bits(key);
    d, a, k, trace := top, start, k0, before;
    CursorFits(d, k, 0);
    LogGate(log.positions, base, trace, a);
    var bit;
    bit, newOrd := FurcGetBit(key, a, hash, oldOrd, log);
    while bit == 0
      invariant 1 <= d <= top && k <= k0 && a == Cursor(d, k)
      invariant key.Some? ==> Cached(key.value, hash[..], newOrd)
      invariant bit == BitValue(bits(a))
      invariant Underway(bits, m, d, k, tries, trace)
      invariant Logged(log.positions, base, trace, [a])
      decreases d
    {
      UnderwayDrop(bits, m, d, k, tries, trace);
      GateDropped(log.positions, base, trace, a);
      trace := trace + [a];
      d, k := d - 1, 0;
      if d == 0 {
        return;
      }
      a := d;
      NextCursor(d, 0);
      CursorFits(d, 0, 0);
      LogGate(log.positions, base, trace, a);
      bit, newOrd := FurcGetBit(key, a, hash, newOrd, log);
    }
  }

  lemma NothingLogged(bits: Stream, m: nat, before: seq<nat>)
    requires Ends(bits, m, 0, [])
    ensures 0 == Place(bits, m).Value() && Distinct(before[|before|..])
  {
    hide Place, Reads;
  }

  lemma DrawIsPositive(d: nat, k: nat)
    requires d > 0
    ensures Cursor(d, k) > 0 && 0 !in DrawReads(Cursor(d, k), d)
  {
  }

  /** No run asks for position 0 again. */
  lemma {:induction false} ReadsArePositive(bits: Stream, m: nat, d: nat, k: nat, tries: nat)
    ensures 0 !in Reads(bits, m, d, k, tries)
    decreases d, tries
  {
    hide Candidate, Cursor, DrawReads, Reads;
    ReadsStep(bits, m, d, k, tries);
    if d == 0 || tries == 0 {
    } else {
      DrawIsPositive(d, k);
      if !bits(Cursor(d, k)) {
        ReadsArePositive(bits, m, d - 1, 0, tries);
      } else if Candidate(bits, d, k) >= m {
        ReadsArePositive(bits, m, d, k + 1, tries - 1);
      }
    }
  }

  lemma RunLogged(bits: Stream, m: nat, r: nat, before: seq<nat>, positions: seq<nat>, trace: seq<nat>)
    requires Ends(bits, m, r, trace) && Logged(positions, before + [0], trace, [])
    ensures r == Place(bits, m).Value()
    ensures positions == before + [0] + Reads(bits, m, Levels(m), 0, MAX_TRIES)
    ensures m <= 0x100_0000 ==> Distinct(positions[|before|..])
  {
    hide Place, Reads, Levels;
    var all := [0] + Reads(bits, m, Levels(m), 0, MAX_TRIES);
    assert positions == before + all;
    assert positions[|before|..] == all;
    if m <= 0x100_0000 {
      DistinctUpTo24Levels(bits, m);
      ReadsArePositive(bits, m, Levels(m), 0, MAX_TRIES);
      DistinctAppend([0], Reads(bits, m, Levels(m), 0, MAX_TRIES));
    }
  }

  lemma CacheEmpty(key: Option<Key>, hash: seq<Word>)
    ensures key.Some? && |hash| > 0 ==> Cached(key.value, hash, -1)
  {
  }

  /**
   The shard of a key. What is asked for, in order, is bit 0 of the null key, to reset the memo array, and then the
   positions the specification lists.
   */
  method FurcHash(key: Option<Key>, m: Uint32, log: Log) returns (r: Uint32)
    modifies log
    ensures r == ShardOf(key, m) && (key.None? || m <= 1 ==> r == 0)
    ensures m <= 1 ==> log.positions == old(log.positions)
    ensures m > 1 ==> log.positions == old(log.positions) + [0] + Reads(Bits(key), m, Levels(m), 0, MAX_TRIES)
    ensures m <= 0x100_0000 ==> Distinct(log.positions[|old(log.positions)|..])
  {
    hide Cursor, Candidate, Search, Reads, DrawReads, Bits, Levels, Place, Underway, Cached, Logged, Distinct, Ends;
    ghost var bits, before := Bits(key), log.positions;
    if key.None? {
      NullKey(m);
    }
    ShardInRange(key, m);
    UnderwayBegins(bits, m);
    if m <= 1 {
      LevelsUnique(m, 0);
      UnderwayEnds(bits, m, 0, 0, MAX_TRIES, []);
      NothingLogged(bits, m, before);
      return 0;
    }
    var hash := new Word[FURC_CACHE_SIZE];
    var bit, oldOrd := FurcGetBit(None, 0, hash, -1, log);
    CacheEmpty(key, hash[..]);
    ghost var base, trace: seq<nat> := log.positions, [];
    LogStarts(base);
    var d := CountLevels(m);
    var a: Uint32 := d;
    ghost var k: nat := 0;
    NextCursor(d, 0);
    var attempt: nat := 0;
    while attempt < MAX_TRIES
      invariant k <= attempt <= MAX_TRIES
      invariant 1 <= d <= 32 && a == Cursor(d, k)
      invariant key.Some? ==> Cached(key.value, hash[..], oldOrd)
      invariant Underway(bits, m, d, k, MAX_TRIES - attempt, trace)
      invariant Logged(log.positions, base, trace, [])
    {
      d, a, oldOrd, k, trace := FindGate(key, m, d, a, hash, oldOrd, log, k, MAX_TRIES - attempt, base, trace);
      UnderwayEnds(bits, m, d, k, MAX_TRIES - attempt, trace);
      if d == 0 {
        RunLogged(bits, m, 0, before, log.positions, trace);
        return 0;
      }
      CursorFits(d, k, 1);
      DrawLogged(log.positions, base, trace, a, d);
      var num;
      num, a, oldOrd := DrawNumber(key, d, k, a + FURC_SHIFT, hash, oldOrd, log);
      ghost var draw := DrawReads(Cursor(d, k), d);
      if num < m {
        RunLogged(bits, m, num, before, log.positions, trace + draw);
        return num;
      }
      UnderwayRetry(bits, m, d, k, MAX_TRIES - attempt, trace);
      trace := trace + draw;
      k := k + 1;
      attempt := attempt + 1;
    }
    UnderwayEnds(bits, m, d, k, 0, trace);
    RunLogged(bits, m, 0, before, log.positions, trace);
    return 0;
  }
}
