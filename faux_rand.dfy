/** FauxRand (ParamPassTiming.cpp:167-190), the process-wide generator, and
    RandomWork (ParamPassTiming.cpp:194-200), the side work that updates the
    16-slot accumulator gWork. */
module FauxRandom {
  import opened SizeT

  const MULTIPLIER: nat := 214013
  const INCREMENT: nat := 2531011

  /** Number of accumulator slots (kSlots). */
  const SLOTS: nat := 16

  /** One step of the recurrence: next * 214013 + 2531011 on size_t. */
  function Advance(state: u64): u64
  {
    (state * MULTIPLIER + INCREMENT) % TWO_64
  }

  /** The generator state after n draws from `state`; it is also the n-th
      value drawn (n >= 1), since each draw returns the new state. */
  function StateAfter(state: u64, n: nat): u64
  {
    if n == 0 then state else Advance(StateAfter(state, n - 1))
  }

  /** The first n values drawn from a generator holding `state`. */
  function Draws(state: u64, n: nat): (r: seq<u64>)
    ensures |r| == n
    ensures forall i :: 0 <= i < n ==> r[i] == StateAfter(state, i + 1)
  {
    if n == 0 then [] else Draws(state, n - 1) + [StateAfter(state, n)]
  }

  /** Drawing m values and then n more is drawing m + n values. */
  lemma {:induction false} StateAfterAdd(state: u64, m: nat, n: nat)
    ensures StateAfter(StateAfter(state, m), n) == StateAfter(state, m + n)
  {
    if n > 0 { StateAfterAdd(state, m, n - 1); }
  }

  class FauxRand {
    var next: u64

    /** Start the generator at the given seed, 0 when none is given. */
    constructor (seed: u64 := 0)
      ensures next == seed
    {
      next := seed;
    }

    /** Restart the generator at the given seed. */
    method Seed(seed: u64)
      modifies this
      ensures next == seed
    {
      next := seed;
    }

    /** operator(): advance the state and return the new state. */
    method Draw() returns (r: u64)
      modifies this
      ensures next == Advance(old(next)) && r == next
      ensures r == StateAfter(old(next), 1)
    {
      next := Advance(next);
      r := next;
    }
  }

  /** The value RandomWork folds into its slot: random ^ (random << 1). */
  function Scramble(random: u64): u64
  {
    Xor(random, Shl(random, 1))
  }

  /** The slot RandomWork updates when the generator holds `state`. */
  function WorkSlot(state: u64): (slot: nat)
    ensures slot < SLOTS
  {
    StateAfter(state, 1) % SLOTS
  }

  /** gWork after one RandomWork from generator state `state`. */
  function WorkAfter(work: seq<u64>, state: u64): (r: seq<u64>)
    requires |work| == SLOTS
    ensures |r| == SLOTS
    ensures r[WorkSlot(state)] == Add(work[WorkSlot(state)], Scramble(StateAfter(state, 2)))
    ensures forall i :: 0 <= i < SLOTS && i != WorkSlot(state) ==> r[i] == work[i]
  {
    var slot := WorkSlot(state);
    work[slot := Add(work[slot], Scramble(StateAfter(state, 2)))]
  }

  /** RandomWork: draw a slot, draw a value, accumulate the scrambled value
      into that slot; exactly two draws, exactly one slot changes. */
  method RandomWork(rnd: FauxRand, work: array<u64>)
    requires work.Length == SLOTS
    modifies rnd, work
    ensures rnd.next == StateAfter(old(rnd.next), 2)
    ensures work[..] == WorkAfter(old(work[..]), old(rnd.next))
  {
    var first := rnd.Draw();
    var slot := first % SLOTS;
    var random := rnd.Draw();
    work[slot] := Add(work[slot], Scramble(random));
  }
}
