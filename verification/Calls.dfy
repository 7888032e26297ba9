/**
 * The counting allocator's calls, each run to its end with no other thread
 * between, as runs of the machine that interleaves them.
 */
module Calls {
  import opened Bytes
  import opened Counting

  /** How many operations a call has left at most. */
  function Left(doing: Doing): nat {
    match doing
    case Resting => 0
    case Adding(_, _) => 2
    case Subtracting(_, _, _) => 3
    case _ => 1
  }

  /** The call a thread is in, run to its end with no other thread between. */
  function Finish(s: State, t: nat): State
    requires t < |s.threads|
    decreases Left(s.threads[t])
  {
    if s.threads[t].Resting? || !OnHand(s, s.threads[t]) then s else Finish(Do(s, t, Continue), t)
  }

  lemma {:induction false} FinishKeepsLedger(s: State, t: nat)
    requires t < |s.threads| && Ledger(s)
    ensures Ledger(Finish(s, t))
    decreases Left(s.threads[t])
  {
    if s.threads[t].Resting? || !OnHand(s, s.threads[t]) {
    } else {
      StepKeepsLedger(s, t, Continue);
      FinishKeepsLedger(Do(s, t, Continue), t);
    }
  }

  /** What the process holds more, or less, after a call that was granted. */
  function Change(s: State, t: nat, step: Step): int
    requires Enabled(s, t, step)
  {
    match step
    case Allocate(size, granted) => if granted then size else 0
    case Reallocate(b, wanted, granted) => if granted then wanted - s.blocks[b].size else 0
    case Deallocate(b) => 0 - s.blocks[b].size
    case _ => 0
  }

  lemma FinishAdd(s: State, t: nat, b: nat, size: nat)
    requires t < |s.threads| && b < |s.blocks| && s.threads[t] == Adding(b, size)
    ensures var r := Finish(s, t);
            && r.threads == s.threads[t := Resting] && r.live == Plus(s.live, size)
            && r.peak == Max(s.peak, Capped(s.live, size))
            && r.blocks == s.blocks[b := s.blocks[b].(counted := size)]
  {
    var added := Do(s, t, Continue);
    var raised := Do(added, t, Continue);
    assert raised.threads == s.threads[t := Resting];
    assert Finish(raised, t) == raised && Finish(added, t) == raised;
  }

  /** The counter, in words, moves by exactly what the call changes, and the thread is at rest again. */
  ghost predicate Counts(s: State, r: State, change: int) {
    && r.threads == s.threads && Ledger(r)
    && Sum(Counted, r.blocks) == Sum(Counted, s.blocks) + change
    && Sum(Size, r.blocks) == Sum(Size, s.blocks) + change
  }

  lemma AllocateAlone(s: State, t: nat, size: nat)
    requires Ledger(s) && Enabled(s, t, Allocate(size, true))
    ensures var r := Finish(Do(s, t, Allocate(size, true)), t);
            Counts(s, r, size) && r.peak == Max(s.peak, Capped(s.live, size))
  {
    var q := Do(s, t, Allocate(size, true));
    var b := |s.blocks|;
    StepKeepsLedger(s, t, Allocate(size, true));
    FinishAdd(q, t, b, size);
    FinishKeepsLedger(q, t);
    assert q.threads[t := Resting] == s.threads;
    assert q.blocks[b := q.blocks[b].(counted := size)] == s.blocks + [Block(true, size, size)];
    SumGrows(Counted, s.blocks, Block(true, size, size));
    SumGrows(Size, s.blocks, Block(true, size, size));
  }

  /** The watermark covers what was handed out, and past the largest word it stands at it: it never wraps. */
  lemma WatermarkSaturates(s: State, t: nat, size: nat)
    requires Ledger(s) && Enabled(s, t, Allocate(size, true))
    ensures var r := Finish(Do(s, t, Allocate(size, true)), t);
            && r.peak >= s.peak && r.peak >= (if s.live + size < 0x1_0000_0000_0000_0000 then s.live + size else 0xffff_ffff_ffff_ffff)
            && (r.peak > s.peak ==> r.peak <= s.live + size && r.peak <= 0xffff_ffff_ffff_ffff)
  {
    AllocateAlone(s, t, size);
  }

  lemma DeallocateAlone(s: State, t: nat, b: nat)
    requires Ledger(s) && Enabled(s, t, Deallocate(b))
    ensures var r := Finish(Do(s, t, Deallocate(b)), t);
            Counts(s, r, 0 - s.blocks[b].size) && r.peak == s.peak
  {
    var q := Do(s, t, Deallocate(b));
    var r := Do(q, t, Continue);
    StepKeepsLedger(s, t, Deallocate(b));
    StepKeepsLedger(q, t, Continue);
    assert r.threads == s.threads && Finish(r, t) == r && Finish(q, t) == r;
    assert r.blocks == s.blocks[b := Block(false, 0, 0)];
    SumUpdates(Counted, s.blocks, b, Block(false, 0, 0));
    SumUpdates(Size, s.blocks, b, Block(false, 0, 0));
  }

  lemma ReallocateAlone(s: State, t: nat, b: nat, wanted: nat)
    requires Ledger(s) && Enabled(s, t, Reallocate(b, wanted, true))
    ensures var r := Finish(Do(s, t, Reallocate(b, wanted, true)), t);
            && Counts(s, r, wanted - s.blocks[b].size)
            && r.peak == Max(s.peak, Capped(Minus(s.live, s.blocks[b].size), wanted))
  {
    var was := s.blocks[b].size;
    var q := Do(s, t, Reallocate(b, wanted, true));
    var u := Do(q, t, Continue);
    StepKeepsLedger(s, t, Reallocate(b, wanted, true));
    StepKeepsLedger(q, t, Continue);
    assert u.threads[t] == Adding(b, wanted) && Finish(q, t) == Finish(u, t);
    FinishAdd(u, t, b, wanted);
    FinishKeepsLedger(u, t);
    assert u.threads[t := Resting] == s.threads;
    var block := s.blocks[b].(size := wanted, counted := wanted);
    assert Finish(u, t).blocks == s.blocks[b := block];
    SumUpdates(Counted, s.blocks, b, block);
    SumUpdates(Size, s.blocks, b, block);
  }

  lemma ResetAlone(s: State, t: nat)
    requires Ledger(s) && Enabled(s, t, Reset)
    ensures var r := Finish(Do(s, t, Reset), t);
            Counts(s, r, 0) && r.live == s.live && r.peak == r.live
  {
    var q := Do(s, t, Reset);
    var r := Do(q, t, Continue);
    StepKeepsLedger(s, t, Reset);
    StepKeepsLedger(q, t, Continue);
    assert r.threads == s.threads && Finish(r, t) == r && Finish(q, t) == r;
  }

  /**
   * Any call a thread makes undisturbed moves LIVE, in words, by exactly what it
   * leaves the process holding more or less, and a reset leaves PEAK at LIVE.
   */
  lemma CallAlone(s: State, t: nat, step: Step)
    requires Ledger(s) && Enabled(s, t, step) && !step.Continue?
    ensures Counts(s, Finish(Do(s, t, step), t), Change(s, t, step))
    ensures step.Reset? ==> Finish(Do(s, t, step), t).peak == s.live
  {
    match step
    case Allocate(size, granted) =>
      if granted {
        AllocateAlone(s, t, size);
      }
    case Reallocate(b, wanted, granted) =>
      if granted {
        ReallocateAlone(s, t, b, wanted);
      }
    case Deallocate(b) => DeallocateAlone(s, t, b);
    case Reset => ResetAlone(s, t);
  }

  /**
   * The two counters as the code moves them, and the machine they stand for:
   * every call below is a run of that machine's own steps.
   */
  class Counters {
    var live: nat
    var peak: nat
    ghost var machine: State

    ghost predicate Valid()
      reads this
    {
      live == machine.live && peak == machine.peak && Ledger(machine)
    }

    constructor (ghost threads: nat)
      ensures Valid() && Starts(machine) && |machine.threads| == threads
    {
      live, peak := 0, 0;
      machine := State(0, 0, [], seq(threads, _ => Resting), 0, 0, 0, 0);
      new;
      SumOfZeros(Owed, machine.threads);
    }

    method Took(size: nat, ghost t: nat)
      requires Valid() && t < |machine.threads| && machine.threads[t].Adding? && machine.threads[t].size == size
      modifies this
      ensures Valid() && machine == Finish(old(machine), t)
    {
      assert Agrees(machine.blocks, machine.threads[t]);
      FinishAdd(machine, t, machine.threads[t].block, size);
      FinishKeepsLedger(machine, t);
      var now := Capped(live, size);
      live := Plus(live, size);
      peak := Max(peak, now);
      machine := Finish(machine, t);
    }

    /** A refused allocation counts nothing. */
    method Alloc(size: nat, granted: bool, ghost t: nat)
      requires Valid() && Enabled(machine, t, Allocate(size, granted))
      modifies this
      ensures Valid() && machine == Finish(Do(old(machine), t, Allocate(size, granted)), t)
      ensures Counts(old(machine), machine, if granted then size else 0)
      ensures granted && Fits(machine) ==> live <= peak
    {
      ghost var before := machine;
      StepKeepsLedger(machine, t, Allocate(size, granted));
      CallAlone(machine, t, Allocate(size, granted));
      machine := Do(machine, t, Allocate(size, granted));
      if granted {
        Took(size, t);
        AllocateAlone(before, t, size);
        if Fits(machine) {
          RaisedCovers(before, size);
        }
      }
    }

    method Dealloc(size: nat, ghost b: nat, ghost t: nat)
      requires Valid() && Enabled(machine, t, Deallocate(b)) && size == machine.blocks[b].size
      modifies this
      ensures Valid() && machine == Finish(Do(old(machine), t, Deallocate(b)), t)
      ensures Counts(old(machine), machine, 0 - size) && peak == old(peak)
    {
      DeallocateAlone(machine, t, b);
      DeallocateMoves(machine, t, b);
      live := Minus(live, size);
      machine := Finish(Do(machine, t, Deallocate(b)), t);
    }

    /** A refused reallocation leaves the block, and its count, as they were. */
    method Realloc(size: nat, wanted: nat, granted: bool, ghost b: nat, ghost t: nat)
      requires Valid() && Enabled(machine, t, Reallocate(b, wanted, granted)) && size == machine.blocks[b].size
      modifies this
      ensures Valid() && machine == Finish(Do(old(machine), t, Reallocate(b, wanted, granted)), t)
      ensures Counts(old(machine), machine, if granted then wanted - size else 0)
    {
      CallAlone(machine, t, Reallocate(b, wanted, granted));
      StepKeepsLedger(machine, t, Reallocate(b, wanted, granted));
      machine := Do(machine, t, Reallocate(b, wanted, granted));
      if granted {
        StepKeepsLedger(machine, t, Continue);
        live := Minus(live, size);
        machine := Do(machine, t, Continue);
        Took(wanted, t);
      }
    }

    /** With no call between its two halves, a reset leaves a watermark to be trusted. */
    method ResetPeak(ghost t: nat)
      requires Valid() && Enabled(machine, t, Reset)
      modifies this
      ensures Valid() && machine == Finish(Do(old(machine), t, Reset), t)
      ensures Counts(old(machine), machine, 0) && WillCover(machine, live)
    {
      ResetAlone(machine, t);
      peak := live;
      machine := Finish(Do(machine, t, Reset), t);
    }
  }

  lemma DeallocateMoves(s: State, t: nat, b: nat)
    requires Ledger(s) && Enabled(s, t, Deallocate(b))
    ensures Finish(Do(s, t, Deallocate(b)), t).live == Minus(s.live, s.blocks[b].size)
  {
    var q := Do(s, t, Deallocate(b));
    var r := Do(q, t, Continue);
    assert r.threads[t].Resting? && Finish(r, t) == r && Finish(q, t) == r;
  }

  /** With no wrap, what a granted allocation raises the watermark to is the counter it left. */
  lemma RaisedCovers(s: State, size: nat)
    requires Ledger(s) && Sum(Counted, s.blocks) + size < WORD
    ensures Plus(s.live, size) == Capped(s.live, size) == (Sum(Counted, s.blocks) + size) % WORD
  {
    CountedIsNatural(s);
  }
}
