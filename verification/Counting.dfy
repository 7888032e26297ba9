/**
 * The counting allocator: two process-wide counters, and any number of threads
 * whose calls interleave between their atomic operations.
 */
module Counting {

  import opened Bytes

  /** A counter holds a machine word. */
  const WORD: nat := U64_SPAN

  /** `fetch_add` leaves this behind. */
  function Plus(live: nat, size: nat): nat {
    (live + size) % WORD
  }

  /** `fetch_sub` leaves this behind; it wraps when the counter holds too little. */
  function Minus(live: nat, size: nat): nat {
    (live - size) % WORD
  }

  /** The saturating sum the watermark is raised to. */
  function Capped(live: nat, size: nat): nat {
    if live + size < WORD then live + size else WORD - 1
  }

  // ---------------------------------------------------------- threads in between

  /** What a thread has left to do in the call it is in. */
  datatype Doing =
    | Resting
    | Adding(block: nat, size: nat)
    | Raising(now: nat)
    | Subtracting(block: nat, was: nat, size: nat)
    | Freeing(block: nat, size: nat)
    | Storing(read: nat)

  /** A block the allocator handed out; `counted` is what the counter includes of it, which no step reads. */
  datatype Block = Block(held: bool, size: nat, counted: nat)

  /**
   * The counters, the blocks and the threads. The rest is history that no step
   * reads: the value the last reset stored and what LIVE then was, the highest
   * the watermark was raised to since, and the highest LIVE has been since.
   */
  datatype State = State(live: nat, peak: nat, blocks: seq<Block>, threads: seq<Doing>,
                         stored: nat, settled: nat, raised: nat, highest: nat)

  datatype Step =
    | Allocate(size: nat, granted: bool)
    | Reallocate(held: nat, wanted: nat, granted: bool)
    | Deallocate(given: nat)
    | Reset
    | Continue

  /** No call under way is about this block. */
  predicate Unused(threads: seq<Doing>, b: nat) {
    forall t :: 0 <= t < |threads| ==> !On(threads[t], b)
  }

  predicate On(doing: Doing, b: nat) {
    match doing
    case Adding(block, _) => block == b
    case Subtracting(block, _, _) => block == b
    case Freeing(block, _) => block == b
    case _ => false
  }

  predicate Callable(s: State, b: nat) {
    b < |s.blocks| && s.blocks[b].held && Unused(s.threads, b)
  }

  /** A thread makes one call at a time, and hands in only a block that is its own. */
  predicate Enabled(s: State, t: nat, step: Step) {
    && t < |s.threads|
    && match step
       case Allocate(_, _) => s.threads[t].Resting?
       case Reallocate(held, _, _) => s.threads[t].Resting? && Callable(s, held)
       case Deallocate(given) => s.threads[t].Resting? && Callable(s, given)
       case Reset => s.threads[t].Resting?
       case Continue => !s.threads[t].Resting? && OnHand(s, s.threads[t])
  }

  predicate OnHand(s: State, doing: Doing) {
    match doing
    case Adding(b, _) => b < |s.blocks|
    case Subtracting(b, _, _) => b < |s.blocks|
    case Freeing(b, _) => b < |s.blocks|
    case _ => true
  }

  function With(s: State, t: nat, doing: Doing): State
    requires t < |s.threads|
  {
    s.(threads := s.threads[t := doing])
  }

  /** LIVE moves, and with it what of one block is counted. */
  function Moved(s: State, live: nat, b: nat, counted: nat): State
    requires b < |s.blocks|
  {
    s.(live := live, highest := Max(s.highest, live), blocks := s.blocks[b := s.blocks[b].(counted := counted)])
  }

  /** One atomic operation of one thread. */
  function Do(s: State, t: nat, step: Step): State
    requires Enabled(s, t, step)
  {
    match step
    case Allocate(size, granted) =>
      if granted then With(s.(blocks := s.blocks + [Block(true, size, 0)]), t, Adding(|s.blocks|, size)) else s
    case Reallocate(b, wanted, granted) =>
      if granted
      then With(s.(blocks := s.blocks[b := s.blocks[b].(size := wanted)]), t, Subtracting(b, s.blocks[b].size, wanted))
      else s
    case Deallocate(b) => With(Moved(s, Minus(s.live, s.blocks[b].size), b, 0), t, Freeing(b, s.blocks[b].size))
    case Reset => With(s, t, Storing(s.live))
    case Continue =>
      (match s.threads[t]
       case Resting => s
       case Adding(b, size) =>
         With(Moved(s, Plus(s.live, size), b, size), t, Raising(Capped(s.live, size)))
       case Raising(now) =>
         With(s.(peak := Max(s.peak, now), raised := Max(s.raised, now)), t, Resting)
       case Subtracting(b, was, size) => With(Moved(s, Minus(s.live, was), b, 0), t, Adding(b, size))
       case Freeing(b, _) => With(s.(blocks := s.blocks[b := Block(false, 0, 0)]), t, Resting)
       case Storing(read) =>
         With(s.(peak := read, stored := read, settled := s.live, raised := 0, highest := s.live), t, Resting))
  }

  // ------------------------------------------------------------------------ sums

  function Sum<T>(of: T -> int, s: seq<T>): int {
    if s == [] then 0 else Sum(of, s[..|s| - 1]) + of(s[|s| - 1])
  }

  lemma {:induction false} SumUpdates<T>(of: T -> int, s: seq<T>, i: nat, x: T)
    requires i < |s|
    ensures Sum(of, s[i := x]) == Sum(of, s) - of(s[i]) + of(x)
  {
    var last := |s| - 1;
    var next := s[i := x];
    if i == last {
      assert next[..last] == s[..last];
    } else {
      assert next[..last] == s[..last][i := x];
      SumUpdates(of, s[..last], i, x);
    }
  }

  lemma SumGrows<T>(of: T -> int, s: seq<T>, x: T)
    ensures Sum(of, s + [x]) == Sum(of, s) + of(x)
  {
    assert (s + [x])[..|s|] == s;
  }

  lemma {:induction false} SumCovers<T>(of: T -> int, s: seq<T>, i: nat)
    requires i < |s| && forall k :: 0 <= k < |s| ==> of(s[k]) >= 0
    ensures Sum(of, s) >= of(s[i])
  {
    var last := |s| - 1;
    if i < last {
      SumCovers(of, s[..last], i);
    } else if last > 0 {
      SumCovers(of, s[..last], 0);
    }
  }

  lemma {:induction false} SumOfZeros<T>(of: T -> int, s: seq<T>)
    requires forall k :: 0 <= k < |s| ==> of(s[k]) == 0
    ensures Sum(of, s) == 0
  {
    if s == [] {
    } else {
      SumOfZeros(of, s[..|s| - 1]);
    }
  }

  // ------------------------------------------------------------- what always holds

  function Counted(b: Block): int {
    b.counted
  }

  function Size(b: Block): int {
    b.size
  }

  /** What a call under way has yet to bring into the count. */
  function Owed(doing: Doing): int {
    match doing
    case Adding(_, size) => size
    case Freeing(_, size) => size
    case Subtracting(_, was, size) => size - was
    case _ => 0
  }

  /** What the counter includes of a block whose call is at this point. */
  predicate Agrees(blocks: seq<Block>, doing: Doing) {
    match doing
    case Adding(b, size) => b < |blocks| && blocks[b] == Block(true, size, 0)
    case Subtracting(b, was, size) => b < |blocks| && blocks[b] == Block(true, size, was)
    case Freeing(b, size) => b < |blocks| && blocks[b] == Block(true, size, 0)
    case _ => true
  }

  /** Every call is about a block of its own, and a block no call is about is counted at its size. */
  ghost predicate Orderly(blocks: seq<Block>, threads: seq<Doing>) {
    && (forall t :: 0 <= t < |threads| ==> Agrees(blocks, threads[t]))
    && (forall t, u, b: nat :: 0 <= t < |threads| && 0 <= u < |threads| && t != u && On(threads[t], b) ==> !On(threads[u], b))
    && (forall b: nat :: b < |blocks| && Unused(threads, b) ==> blocks[b].counted == blocks[b].size)
  }

  ghost predicate Ledger(s: State) {
    && Orderly(s.blocks, s.threads)
    && s.live == Sum(Counted, s.blocks) % WORD
    && Sum(Size, s.blocks) == Sum(Counted, s.blocks) + Sum(Owed, s.threads)
  }

  // -------------------------------------------------------------------- each step

  /** A thread that only it and its block change leaves the rest in order. */
  lemma OneBlockChanges(blocks: seq<Block>, threads: seq<Doing>, t: nat, b: nat, block: Block, doing: Doing)
    requires Orderly(blocks, threads) && t < |threads| && b < |blocks|
    requires On(threads[t], b) || (threads[t].Resting? && Unused(threads, b))
    requires Agrees(blocks[b := block], doing)
    requires On(doing, b) || (block.counted == block.size && forall c: nat :: !On(doing, c))
    ensures Orderly(blocks[b := block], threads[t := doing])
  {
    var now, next := blocks[b := block], threads[t := doing];
    forall u | 0 <= u < |next| && u != t ensures !On(next[u], b) && Agrees(now, next[u]) {
      assert next[u] == threads[u] && Agrees(blocks, threads[u]);
    }
    forall c: nat | c < |now| && c != b && Unused(next, c) ensures now[c].counted == now[c].size {
      forall u | 0 <= u < |threads| ensures !On(threads[u], c) {
        assert u != t ==> next[u] == threads[u];
      }
      assert Unused(threads, c);
    }
    assert On(doing, b) ==> !Unused(next, b) by {
      assert next[t] == doing;
    }
  }

  lemma NoBlockChanges(blocks: seq<Block>, threads: seq<Doing>, t: nat, doing: Doing)
    requires Orderly(blocks, threads) && t < |threads| && Agrees(blocks, doing)
    requires forall c: nat :: !On(threads[t], c) && !On(doing, c)
    ensures Orderly(blocks, threads[t := doing])
  {
    var next := threads[t := doing];
    forall c: nat | c < |blocks| && Unused(next, c) ensures Unused(threads, c) {
      forall u | 0 <= u < |threads| ensures !On(threads[u], c) {
        assert u != t ==> next[u] == threads[u];
      }
    }
  }

  lemma NewBlockIsUnused(blocks: seq<Block>, threads: seq<Doing>)
    requires Orderly(blocks, threads)
    ensures Orderly(blocks + [Block(false, 0, 0)], threads) && Unused(threads, |blocks|)
  {
    var more := blocks + [Block(false, 0, 0)];
    forall t | 0 <= t < |threads| ensures Agrees(more, threads[t]) && !On(threads[t], |blocks|) {
      assert Agrees(blocks, threads[t]);
    }
  }

  /** What changes when one block and one thread do. */
  lemma SumsMove(blocks: seq<Block>, threads: seq<Doing>, t: nat, b: nat, block: Block, doing: Doing)
    requires t < |threads| && b < |blocks|
    ensures Sum(Counted, blocks[b := block]) == Sum(Counted, blocks) - blocks[b].counted + block.counted
    ensures Sum(Size, blocks[b := block]) == Sum(Size, blocks) - blocks[b].size + block.size
    ensures Sum(Owed, threads[t := doing]) == Sum(Owed, threads) - Owed(threads[t]) + Owed(doing)
  {
    SumUpdates(Counted, blocks, b, block);
    SumUpdates(Size, blocks, b, block);
    SumUpdates(Owed, threads, t, doing);
  }

  lemma WrapMoves(sum: int, live: nat, size: nat)
    requires live == sum % WORD
    ensures Plus(live, size) == (sum + size) % WORD
    ensures Minus(live, size) == (sum - size) % WORD
  {
    var k := sum / WORD;
    assert sum == k * WORD + live;
    Shifted(live + size, k);
    Shifted(live - size, k);
  }

  lemma Shifted(n: int, k: int)
    ensures (k * WORD + n) % WORD == n % WORD
  {
    var q := n / WORD;
    assert k * WORD + n == (k + q) * WORD + n % WORD;
  }

  lemma AllocateKeeps(s: State, t: nat, size: nat)
    requires Ledger(s) && Enabled(s, t, Allocate(size, true))
    ensures Ledger(Do(s, t, Allocate(size, true)))
  {
    var n, empty, block, doing := |s.blocks|, Block(false, 0, 0), Block(true, size, 0), Adding(|s.blocks|, size);
    var more := s.blocks + [empty];
    NewBlockIsUnused(s.blocks, s.threads);
    OneBlockChanges(more, s.threads, t, n, block, doing);
    assert more[n := block] == s.blocks + [block];
    SumGrows(Counted, s.blocks, empty);
    SumGrows(Size, s.blocks, empty);
    SumsMove(more, s.threads, t, n, block, doing);
  }

  /** The counter once a block counted at `was` is counted at `counted`. */
  function Recounted(live: nat, was: nat, counted: nat): nat {
    if counted >= was then Plus(live, counted - was) else Minus(live, was - counted)
  }

  /** A step that changes one block, its thread and the counter together. */
  lemma BlockStepKeeps(s: State, r: State, t: nat, b: nat, block: Block, doing: Doing)
    requires Ledger(s) && t < |s.threads| && b < |s.blocks|
    requires On(s.threads[t], b) || (s.threads[t].Resting? && Unused(s.threads, b))
    requires r.blocks == s.blocks[b := block] && r.threads == s.threads[t := doing]
    requires Agrees(s.blocks[b := block], doing)
    requires On(doing, b) || (block.counted == block.size && forall c: nat :: !On(doing, c))
    requires block.size - s.blocks[b].size == block.counted - s.blocks[b].counted + Owed(doing) - Owed(s.threads[t])
    requires r.live == Recounted(s.live, s.blocks[b].counted, block.counted)
    ensures Ledger(r)
  {
    OneBlockChanges(s.blocks, s.threads, t, b, block, doing);
    BlockSums(s.blocks, s.threads, t, b, block, doing);
    CounterMoves(Sum(Counted, s.blocks), Sum(Counted, r.blocks), s.live, r.live, s.blocks[b].counted, block.counted);
  }

  lemma BlockSums(blocks: seq<Block>, threads: seq<Doing>, t: nat, b: nat, block: Block, doing: Doing)
    requires t < |threads| && b < |blocks|
    requires Sum(Size, blocks) == Sum(Counted, blocks) + Sum(Owed, threads)
    requires block.size - blocks[b].size == block.counted - blocks[b].counted + Owed(doing) - Owed(threads[t])
    ensures Sum(Counted, blocks[b := block]) == Sum(Counted, blocks) - blocks[b].counted + block.counted
    ensures Sum(Size, blocks[b := block]) == Sum(Counted, blocks[b := block]) + Sum(Owed, threads[t := doing])
  {
    SumsMove(blocks, threads, t, b, block, doing);
  }

  lemma CounterMoves(sum: int, next: int, live: nat, now: nat, was: nat, counted: nat)
    requires live == sum % WORD && next == sum - was + counted
    requires now == Recounted(live, was, counted)
    ensures now == next % WORD
  {
    WrapMoves(sum, live, if counted >= was then counted - was else was - counted);
  }

  lemma ThreadStepKeeps(s: State, t: nat, step: Step, doing: Doing)
    requires Ledger(s) && Enabled(s, t, step)
    requires forall c: nat :: !On(s.threads[t], c) && !On(doing, c)
    requires Agrees(s.blocks, doing) && Owed(doing) == Owed(s.threads[t]) == 0
    requires Do(s, t, step).blocks == s.blocks && Do(s, t, step).threads == s.threads[t := doing]
    requires Do(s, t, step).live == s.live
    ensures Ledger(Do(s, t, step))
  {
    NoBlockChanges(s.blocks, s.threads, t, doing);
    SumUpdates(Owed, s.threads, t, doing);
  }

  lemma ContinueKeeps(s: State, t: nat)
    requires Ledger(s) && Enabled(s, t, Continue)
    ensures Ledger(Do(s, t, Continue))
  {
    assert Agrees(s.blocks, s.threads[t]);
    match s.threads[t]
    case Adding(b, size) =>
      BlockStepKeeps(s, Do(s, t, Continue), t, b, Block(true, size, size), Raising(Capped(s.live, size)));
    case Raising(now) => ThreadStepKeeps(s, t, Continue, Resting);
    case Subtracting(b, was, size) =>
      WrapMoves(Sum(Counted, s.blocks), s.live, 0);
      BlockStepKeeps(s, Do(s, t, Continue), t, b, Block(true, size, 0), Adding(b, size));
    case Freeing(b, _) =>
      WrapMoves(Sum(Counted, s.blocks), s.live, 0);
      BlockStepKeeps(s, Do(s, t, Continue), t, b, Block(false, 0, 0), Resting);
    case Storing(_) => ThreadStepKeeps(s, t, Continue, Resting);
  }

  /** Every step of every thread keeps the ledger. */
  lemma StepKeepsLedger(s: State, t: nat, step: Step)
    requires Ledger(s) && Enabled(s, t, step)
    ensures Ledger(Do(s, t, step))
  {
    match step
    case Allocate(size, granted) =>
      if granted {
        AllocateKeeps(s, t, size);
      }
    case Reallocate(b, wanted, granted) =>
      if granted {
        WrapMoves(Sum(Counted, s.blocks), s.live, 0);
        BlockStepKeeps(s, Do(s, t, step), t, b, s.blocks[b].(size := wanted), Subtracting(b, s.blocks[b].size, wanted));
      }
    case Deallocate(b) =>
      WrapMoves(Sum(Counted, s.blocks), s.live, 0);
      BlockStepKeeps(s, Do(s, t, step), t, b, s.blocks[b].(counted := 0), Freeing(b, s.blocks[b].size));
    case Reset => ThreadStepKeeps(s, t, step, Storing(s.live));
    case Continue => ContinueKeeps(s, t);
  }

  // -------------------------------------------------------------------- the peak

  /** Nothing a thread has still to raise the watermark to, or has raised it to, is below a LIVE reached since the last reset. */
  ghost predicate Watched(s: State) {
    && s.peak == Max(s.stored, s.raised)
    && s.settled <= s.highest && s.live <= s.highest
    && (s.highest <= Max(s.settled, s.raised) || exists t :: 0 <= t < |s.threads| && WillRaise(s.threads[t], s.highest))
  }

  predicate WillRaise(doing: Doing, to: nat) {
    doing.Raising? && to <= doing.now
  }

  /** What the process holds fits a word, so the counter never wraps. */
  ghost predicate Fits(s: State) {
    Sum(Counted, s.blocks) < WORD
  }

  /** A thread that is not between the add and the max has nothing left to raise. */
  predicate NoneRaising(s: State) {
    forall t :: 0 <= t < |s.threads| ==> !s.threads[t].Raising?
  }

  lemma CountedIsNatural(s: State)
    ensures Sum(Counted, s.blocks) >= 0
  {
    if s.blocks != [] {
      SumCovers(Counted, s.blocks, 0);
    }
  }

  /** With no wrap, what is subtracted was there: the counter never underflows. */
  lemma SubtractsWhatIsThere(s: State, b: nat)
    requires Ledger(s) && Fits(s) && b < |s.blocks|
    ensures s.live == Sum(Counted, s.blocks) && s.blocks[b].counted <= s.live
    ensures Minus(s.live, s.blocks[b].counted) == s.live - s.blocks[b].counted
  {
    CountedIsNatural(s);
    SumCovers(Counted, s.blocks, b);
  }

  /** Threads that still have to raise keep having to, unless they are the one that moves. */
  lemma StillRaising(s: State, r: State, t: nat)
    requires Watched(s) && t < |s.threads| && !s.threads[t].Raising?
    requires |r.threads| == |s.threads| && forall u :: 0 <= u < |s.threads| && u != t ==> r.threads[u] == s.threads[u]
    requires r.peak == s.peak && r.stored == s.stored && r.settled == s.settled && r.raised == s.raised
    requires r.highest == s.highest && r.live <= r.highest
    ensures Watched(r)
  {
    if s.highest > Max(s.settled, s.raised) {
      var u :| 0 <= u < |s.threads| && WillRaise(s.threads[u], s.highest);
      assert WillRaise(r.threads[u], r.highest);
    }
  }

  lemma RaiseKeepsWatch(s: State, t: nat)
    requires Watched(s) && Enabled(s, t, Continue) && s.threads[t].Raising?
    ensures Watched(Do(s, t, Continue))
  {
    var r := Do(s, t, Continue);
    if r.highest > Max(r.settled, r.raised) {
      var u :| 0 <= u < |s.threads| && WillRaise(s.threads[u], s.highest);
      assert WillRaise(r.threads[u], r.highest);
    }
  }

  lemma AddKeepsWatch(s: State, t: nat)
    requires Ledger(s) && Watched(s) && Enabled(s, t, Continue) && s.threads[t].Adding?
    requires Fits(Do(s, t, Continue))
    ensures Watched(Do(s, t, Continue))
  {
    var r := Do(s, t, Continue);
    var b, size := s.threads[t].block, s.threads[t].size;
    assert Agrees(s.blocks, s.threads[t]);
    SumUpdates(Counted, s.blocks, b, s.blocks[b].(counted := size));
    CountedIsNatural(s);
    assert r.live == s.live + size;
    if s.live + size > s.highest {
      assert WillRaise(r.threads[t], r.highest);
    } else if s.highest > Max(s.settled, s.raised) {
      var u :| 0 <= u < |s.threads| && WillRaise(s.threads[u], s.highest);
      assert WillRaise(r.threads[u], r.highest);
    }
  }

  /** Every step of every thread keeps the watch. */
  lemma StepKeepsWatch(s: State, t: nat, step: Step)
    requires Ledger(s) && Watched(s) && Enabled(s, t, step)
    requires Fits(s) && Fits(Do(s, t, step))
    ensures Watched(Do(s, t, step))
  {
    var r := Do(s, t, step);
    match step
    case Deallocate(b) =>
      SubtractsWhatIsThere(s, b);
      StillRaising(s, r, t);
    case Continue =>
      assert Agrees(s.blocks, s.threads[t]);
      if s.threads[t].Raising? {
        RaiseKeepsWatch(s, t);
      } else if s.threads[t].Adding? {
        AddKeepsWatch(s, t);
      } else if s.threads[t].Subtracting? {
        SubtractsWhatIsThere(s, s.threads[t].block);
        StillRaising(s, r, t);
      } else if s.threads[t].Freeing? {
        StillRaising(s, r, t);
      }
    case _ => StillRaising(s, r, t);
  }

  // -------------------------------------------------------------------- every run

  datatype Move = Move(thread: nat, step: Step)

  /** The process starts with nothing counted and no call under way. */
  predicate Starts(s: State) {
    s == State(0, 0, [], s.threads, 0, 0, 0, 0) && forall t :: 0 <= t < |s.threads| ==> s.threads[t].Resting?
  }

  ghost predicate IsRun(states: seq<State>, moves: seq<Move>) {
    && |states| == |moves| + 1 && Starts(states[0])
    && forall i :: 0 <= i < |moves| ==>
         Enabled(states[i], moves[i].thread, moves[i].step) && states[i + 1] == Do(states[i], moves[i].thread, moves[i].step)
  }

  /**
   * Under every interleaving, whatever the counter's width: LIVE is the sum of
   * what is counted, in machine words, and what the allocator holds is that sum
   * plus what the calls under way have still to bring in.
   */
  lemma {:induction false} LiveIsWhatIsCounted(states: seq<State>, moves: seq<Move>, n: nat)
    requires IsRun(states, moves) && n < |states|
    ensures Ledger(states[n])
  {
    if n == 0 {
      SumOfZeros(Owed, states[0].threads);
    } else {
      LiveIsWhatIsCounted(states, moves, n - 1);
      StepKeepsLedger(states[n - 1], moves[n - 1].thread, moves[n - 1].step);
    }
  }

  /** The counter is the sum itself exactly when the sum fits a word. */
  lemma LiveIsExactIffItFits(states: seq<State>, moves: seq<Move>, n: nat)
    requires IsRun(states, moves) && n < |states|
    ensures states[n].live == Sum(Counted, states[n].blocks) <==> Fits(states[n])
  {
    LiveIsWhatIsCounted(states, moves, n);
    CountedIsNatural(states[n]);
  }

  /** Between calls, LIVE is, in machine words, the bytes handed out and not given back. */
  lemma QuietLiveIsWhatIsHeld(states: seq<State>, moves: seq<Move>, n: nat)
    requires IsRun(states, moves) && n < |states|
    requires forall t :: 0 <= t < |states[n].threads| ==> states[n].threads[t].Resting?
    ensures states[n].live == Sum(Size, states[n].blocks) % WORD
    ensures states[n].live == Sum(Size, states[n].blocks) <==> Fits(states[n])
  {
    LiveIsExactIffItFits(states, moves, n);
    LiveIsWhatIsCounted(states, moves, n);
    SumOfZeros(Owed, states[n].threads);
  }

  /** What the next operation takes off the counter. */
  function Takes(s: State, m: Move): nat
    requires Enabled(s, m.thread, m.step)
  {
    match m.step
    case Deallocate(b) => s.blocks[b].size
    case Continue => if s.threads[m.thread].Subtracting? then s.threads[m.thread].was else 0
    case _ => 0
  }

  /** No subtraction ever takes off more than is counted, nor more than LIVE holds while that fits a word. */
  lemma NeverUnderflows(states: seq<State>, moves: seq<Move>, n: nat)
    requires IsRun(states, moves) && n < |moves|
    ensures Takes(states[n], moves[n]) <= Sum(Counted, states[n].blocks)
    ensures Fits(states[n]) ==> Takes(states[n], moves[n]) <= states[n].live
  {
    var s, t := states[n], moves[n].thread;
    LiveIsExactIffItFits(states, moves, n);
    LiveIsWhatIsCounted(states, moves, n);
    CountedIsNatural(s);
    match moves[n].step
    case Deallocate(b) => SumCovers(Counted, s.blocks, b);
    case Continue =>
      assert Agrees(s.blocks, s.threads[t]);
      if s.threads[t].Subtracting? {
        SumCovers(Counted, s.blocks, s.threads[t].block);
      }
    case _ =>
  }

  lemma {:induction false} EveryRunIsWatched(states: seq<State>, moves: seq<Move>, n: nat)
    requires IsRun(states, moves) && n < |states|
    requires forall i :: 0 <= i <= n ==> Fits(states[i])
    ensures Watched(states[n])
  {
    if n == 0 {
    } else {
      EveryRunIsWatched(states, moves, n - 1);
      LiveIsWhatIsCounted(states, moves, n - 1);
      assert Fits(states[n - 1]) && Fits(states[n]);
      StepKeepsWatch(states[n - 1], moves[n - 1].thread, moves[n - 1].step);
    }
  }

  /** The last step of a reset. */
  predicate Stores(s: State, m: Move) {
    m.step.Continue? && m.thread < |s.threads| && s.threads[m.thread].Storing?
  }

  /** Some reset ended just before `from`, or the process began there, and none has ended since. */
  predicate SinceReset(states: seq<State>, moves: seq<Move>, from: nat, n: nat) {
    && from <= n < |states| == |moves| + 1
    && (from > 0 ==> Stores(states[from - 1], moves[from - 1]))
    && forall i :: from <= i < n ==> !Stores(states[i], moves[i])
  }

  /** What the history keeps is what the run did. */
  lemma {:induction false} HistoryIsTrue(states: seq<State>, moves: seq<Move>, from: nat, n: nat)
    requires IsRun(states, moves) && SinceReset(states, moves, from, n)
    ensures states[n].settled == states[from].live
    ensures forall i :: from <= i <= n ==> states[i].live <= states[n].highest
    ensures exists i :: from <= i <= n && states[i].live == states[n].highest
  {
    if from < n {
      HistoryIsTrue(states, moves, from, n - 1);
      var k :| from <= k <= n - 1 && states[k].live == states[n - 1].highest;
      HighestMoves(states[n - 1], moves[n - 1]);
      if states[n].highest == states[n - 1].highest {
        assert states[k].live == states[n].highest;
      } else {
        assert states[n].live == states[n].highest;
      }
    } else {
      assert states[n].live == states[n].highest;
    }
  }

  lemma HighestMoves(s: State, m: Move)
    requires Enabled(s, m.thread, m.step) && !Stores(s, m)
    ensures var r := Do(s, m.thread, m.step);
            && r.settled == s.settled
            && ((r.highest == s.highest && r.live == s.live) || r.highest == Max(s.highest, r.live))
  {
  }

  ghost predicate AllFit(states: seq<State>, n: nat)
    requires n < |states|
  {
    forall i :: 0 <= i <= n ==> Fits(states[i])
  }

  /** The watermark at `n` is at least every value LIVE has had from `from` on. */
  predicate CoversSince(states: seq<State>, from: nat, n: nat)
    requires from <= n < |states|
  {
    forall i :: from <= i <= n ==> states[i].live <= states[n].peak
  }

  /** With no thread between its add and its max, what LIVE was as the reset ended decides. */
  lemma CoveringTheResetCovers(states: seq<State>, moves: seq<Move>, from: nat, n: nat)
    requires IsRun(states, moves) && SinceReset(states, moves, from, n) && NoneRaising(states[n]) && AllFit(states, n)
    requires states[from].live <= states[n].peak
    ensures CoversSince(states, from, n)
  {
    EveryRunIsWatched(states, moves, n);
    HistoryIsTrue(states, moves, from, n);
  }

  /** The watermark stands at `level`, or some thread is about to raise it there. */
  ghost predicate WillCover(s: State, level: nat) {
    level <= s.peak || exists t :: 0 <= t < |s.threads| && WillRaise(s.threads[t], level)
  }

  lemma WillCoverStays(s: State, m: Move, level: nat)
    requires Enabled(s, m.thread, m.step) && !Stores(s, m) && WillCover(s, level)
    ensures WillCover(Do(s, m.thread, m.step), level)
  {
    var r := Do(s, m.thread, m.step);
    if level > s.peak {
      var t :| 0 <= t < |s.threads| && WillRaise(s.threads[t], level);
      if t != m.thread || !m.step.Continue? {
        assert r.threads[t] == s.threads[t];
      }
    }
  }

  lemma {:induction false} WillCoverLasts(states: seq<State>, moves: seq<Move>, from: nat, n: nat, level: nat)
    requires IsRun(states, moves) && SinceReset(states, moves, from, n) && WillCover(states[from], level)
    ensures WillCover(states[n], level)
  {
    if from == n {
    } else {
      WillCoverLasts(states, moves, from, n - 1, level);
      WillCoverStays(states[n - 1], moves[n - 1], level);
    }
  }

  // -------------------------------------------------- what a reset leaves uncovered

  lemma RunGrows(states: seq<State>, moves: seq<Move>, m: Move)
    requires IsRun(states, moves) && Enabled(states[|moves|], m.thread, m.step)
    ensures IsRun(states + [Do(states[|moves|], m.thread, m.step)], moves + [m])
  {
    var longer, steps := states + [Do(states[|moves|], m.thread, m.step)], moves + [m];
    forall i | 0 <= i < |steps|
      ensures Enabled(longer[i], steps[i].thread, steps[i].step)
      ensures longer[i + 1] == Do(longer[i], steps[i].thread, steps[i].step)
    {
      assert longer[i] == states[i];
    }
  }

  /** LIVE stands above the watermark and above all it is about to be raised to. */
  predicate Lags(s: State, level: nat) {
    && s.live == level && s.peak < level
    && forall t :: 0 <= t < |s.threads| && s.threads[t].Raising? ==> s.threads[t].now < level
  }

  predicate NoneRaisingBelow(s: State, k: nat) {
    forall t :: 0 <= t < k && t < |s.threads| ==> !s.threads[t].Raising?
  }

  /** A run since the last reset that ends lagging. */
  ghost predicate LagsSince(states: seq<State>, moves: seq<Move>, from: nat, level: nat) {
    && IsRun(states, moves) && SinceReset(states, moves, from, |moves|)
    && AllFit(states, |moves|) && Lags(states[|moves|], level)
  }

  /** One thread past its max. */
  lemma DrainOne(states: seq<State>, moves: seq<Move>, from: nat, level: nat, k: nat)
    returns (longer: seq<State>, steps: seq<Move>)
    requires LagsSince(states, moves, from, level) && k < |states[|moves|].threads| && NoneRaisingBelow(states[|moves|], k)
    ensures LagsSince(longer, steps, from, level) && states <= longer && moves <= steps
    ensures |longer[|steps|].threads| == |states[|moves|].threads| && NoneRaisingBelow(longer[|steps|], k + 1)
  {
    var s := states[|moves|];
    longer, steps := states, moves;
    if s.threads[k].Raising? {
      var m := Move(k, Continue);
      var r := Do(s, k, Continue);
      RunGrows(states, moves, m);
      longer, steps := states + [r], moves + [m];
      assert forall i :: 0 <= i < |states| ==> longer[i] == states[i];
      assert forall i :: 0 <= i < |moves| ==> steps[i] == moves[i];
      assert r.blocks == s.blocks;
      assert Fits(s);
    }
  }

  lemma {:induction false} Drain(states: seq<State>, moves: seq<Move>, from: nat, level: nat, k: nat)
    returns (longer: seq<State>, steps: seq<Move>)
    requires LagsSince(states, moves, from, level) && k <= |states[|moves|].threads| && NoneRaisingBelow(states[|moves|], k)
    ensures LagsSince(longer, steps, from, level) && states <= longer && moves <= steps
    ensures NoneRaising(longer[|steps|])
    decreases |states[|moves|].threads| - k
  {
    if k == |states[|moves|].threads| {
      longer, steps := states, moves;
    } else {
      longer, steps := DrainOne(states, moves, from, level, k);
      longer, steps := Drain(longer, steps, from, level, k + 1);
    }
  }

  /** Whatever happens after this reset, with no thread between its add and its max the watermark covers it. */
  ghost predicate AlwaysCovers(states: seq<State>, moves: seq<Move>) {
    forall longer: seq<State>, steps: seq<Move>, n: nat ::
      && SinceReset(longer, steps, |moves|, n) && IsRun(longer, steps)
      && states <= longer && moves <= steps && AllFit(longer, n) && NoneRaising(longer[n])
      ==> CoversSince(longer, |moves|, n)
  }

  /**
   * A reset leaves a watermark that can be trusted in every run from there on
   * exactly when, as it ends, the watermark is at least LIVE or some thread is
   * about to raise it to that: something that can be seen at that moment.
   */
  lemma ResetIsTrustedIffLiveIsCovered(states: seq<State>, moves: seq<Move>)
    requires IsRun(states, moves) && SinceReset(states, moves, |moves|, |moves|) && AllFit(states, |moves|)
    ensures AlwaysCovers(states, moves) <==> WillCover(states[|moves|], states[|moves|].live)
  {
    var from := |moves|;
    if WillCover(states[from], states[from].live) {
      forall longer: seq<State>, steps: seq<Move>, n: nat
        | && SinceReset(longer, steps, from, n) && IsRun(longer, steps)
          && states <= longer && moves <= steps && AllFit(longer, n) && NoneRaising(longer[n])
        ensures CoversSince(longer, from, n)
      {
        WillCoverLasts(longer, steps, from, n, longer[from].live);
        CoveringTheResetCovers(longer, steps, from, n);
      }
    } else {
      UncoveredIsMissed(states, moves);
    }
  }

  lemma UncoveredIsMissed(states: seq<State>, moves: seq<Move>)
    requires IsRun(states, moves) && SinceReset(states, moves, |moves|, |moves|) && AllFit(states, |moves|)
    requires !WillCover(states[|moves|], states[|moves|].live)
    ensures !AlwaysCovers(states, moves)
  {
    var from := |moves|;
    var s := states[from];
    forall t | 0 <= t < |s.threads| && s.threads[t].Raising?
      ensures s.threads[t].now < s.live
    {
      assert !WillRaise(s.threads[t], s.live);
    }
    var longer, steps := Drain(states, moves, from, s.live, 0);
    assert SinceReset(longer, steps, from, |steps|);
    assert !(longer[|steps|].live <= longer[|steps|].peak);
  }

  /** One thread resets while another allocates, from start to end, between its load and its store. */
  function Race(size: nat, k: nat): State {
    var held := [Block(true, size, size)];
    match k
    case 0 => State(0, 0, [], [Resting, Resting], 0, 0, 0, 0)
    case 1 => State(0, 0, [], [Storing(0), Resting], 0, 0, 0, 0)
    case 2 => State(0, 0, [Block(true, size, 0)], [Storing(0), Adding(0, size)], 0, 0, 0, 0)
    case 3 => State(size, 0, held, [Storing(0), Raising(size)], 0, 0, 0, size)
    case 4 => State(size, size, held, [Storing(0), Resting], 0, 0, size, size)
    case _ => State(size, 0, held, [Resting, Resting], 0, size, 0, size)
  }

  function RaceMove(size: nat, k: nat): Move {
    match k
    case 0 => Move(0, Reset)
    case 1 => Move(1, Allocate(size, true))
    case 2 => Move(1, Continue)
    case 3 => Move(1, Continue)
    case _ => Move(0, Continue)
  }

  lemma RaceRuns(size: nat, k: nat)
    requires 0 < size < WORD && k < 5
    ensures var s, m := Race(size, k), RaceMove(size, k);
            Enabled(s, m.thread, m.step) && Do(s, m.thread, m.step) == Race(size, k + 1)
  {
  }

  lemma RaceFits(size: nat, k: nat)
    requires 0 < size < WORD && k <= 5
    ensures Fits(Race(size, k))
  {
    OneBlockSums(true, size, 0);
    OneBlockSums(true, size, size);
  }

  /** That allocation is lost to the watermark: with every call over, it stands below LIVE. */
  lemma ResetCanMissARise(size: nat) returns (states: seq<State>, moves: seq<Move>)
    requires 0 < size < WORD
    ensures IsRun(states, moves) && |states| == 6 && SinceReset(states, moves, 5, 5)
    ensures forall i :: 0 <= i <= 5 ==> Fits(states[i])
    ensures forall t :: 0 <= t < |states[5].threads| ==> states[5].threads[t].Resting?
    ensures states[5].peak < states[5].live
  {
    states := seq(6, k requires 0 <= k < 6 => Race(size, k));
    moves := seq(5, k requires 0 <= k < 5 => RaceMove(size, k));
    forall i | 0 <= i < 5
      ensures Enabled(states[i], moves[i].thread, moves[i].step)
      ensures states[i + 1] == Do(states[i], moves[i].thread, moves[i].step)
    {
      RaceRuns(size, i);
    }
    forall i | 0 <= i <= 5 ensures Fits(states[i]) {
      RaceFits(size, i);
    }
  }

  lemma OneBlockSums(held: bool, size: nat, counted: nat)
    ensures Sum(Counted, [Block(held, size, counted)]) == counted
  {
    var one := [Block(held, size, counted)];
    assert one[..0] == [];
  }

  // ------------------------------------------------- the watermark never overstates

  ghost predicate Was(states: seq<State>, n: nat, value: nat) {
    exists i: nat :: i <= n && i < |states| && states[i].live == value
  }

  /** Everything the watermark is, or is about to be made, LIVE has been. */
  ghost predicate Honest(states: seq<State>, n: nat) {
    && n < |states| && Was(states, n, states[n].peak)
    && forall t :: 0 <= t < |states[n].threads| ==> HonestThread(states, n, states[n].threads[t])
  }

  ghost predicate HonestThread(states: seq<State>, n: nat, doing: Doing) {
    && (doing.Raising? ==> Was(states, n, doing.now))
    && (doing.Storing? ==> Was(states, n, doing.read))
  }

  lemma WasStays(states: seq<State>, n: nat, value: nat)
    requires n + 1 < |states| && Was(states, n, value)
    ensures Was(states, n + 1, value)
  {
    var i: nat :| i <= n && i < |states| && states[i].live == value;
    assert states[i].live == value;
  }

  lemma HonestStays(states: seq<State>, n: nat, doing: Doing)
    requires n + 1 < |states| && HonestThread(states, n, doing)
    ensures HonestThread(states, n + 1, doing)
  {
    if doing.Raising? {
      WasStays(states, n, doing.now);
    }
    if doing.Storing? {
      WasStays(states, n, doing.read);
    }
  }

  /** What the moving thread is left to do is honest. */
  lemma MoverIsHonest(states: seq<State>, moves: seq<Move>, n: nat)
    requires IsRun(states, moves) && n < |moves| && Honest(states, n) && Fits(states[n]) && Fits(states[n + 1])
    ensures HonestThread(states, n + 1, states[n + 1].threads[moves[n].thread])
    ensures Was(states, n + 1, states[n + 1].peak)
  {
    var s, t := states[n], moves[n].thread;
    var doing, now := s.threads[t], states[n + 1].threads[t];
    assert HonestThread(states, n, doing);
    HonestStays(states, n, doing);
    WasStays(states, n, s.peak);
    assert states[n].live == s.live && states[n + 1].live == states[n + 1].live;
    if doing.Adding? && moves[n].step.Continue? {
      LiveIsWhatIsCounted(states, moves, n);
      AddIsExact(s, t);
    }
    assert Was(states, n + 1, s.live) && Was(states, n + 1, states[n + 1].live);
  }

  lemma AddIsExact(s: State, t: nat)
    requires Ledger(s) && Enabled(s, t, Continue) && s.threads[t].Adding?
    requires Fits(s) && Fits(Do(s, t, Continue))
    ensures Do(s, t, Continue).live == s.live + s.threads[t].size == Capped(s.live, s.threads[t].size)
  {
    assert Agrees(s.blocks, s.threads[t]);
    var b := s.threads[t].block;
    SumUpdates(Counted, s.blocks, b, s.blocks[b].(counted := s.threads[t].size));
    CountedIsNatural(s);
  }

  lemma StartIsHonest(states: seq<State>)
    requires states != [] && Starts(states[0])
    ensures Honest(states, 0)
  {
    assert states[0].live == 0;
  }

  lemma {:induction false} EveryRunIsHonest(states: seq<State>, moves: seq<Move>, n: nat)
    requires IsRun(states, moves) && n < |states|
    requires forall i :: 0 <= i <= n ==> Fits(states[i])
    ensures Honest(states, n)
  {
    if n == 0 {
      StartIsHonest(states);
    } else {
      EveryRunIsHonest(states, moves, n - 1);
      StepIsHonest(states, moves, n);
    }
  }

  lemma StepIsHonest(states: seq<State>, moves: seq<Move>, n: nat)
    requires IsRun(states, moves) && 0 < n < |states| && Honest(states, n - 1)
    requires forall i :: 0 <= i <= n ==> Fits(states[i])
    ensures Honest(states, n)
  {
    assert Fits(states[n - 1]) && Fits(states[n]);
    MoverIsHonest(states, moves, n - 1);
    forall t | 0 <= t < |states[n].threads|
      ensures HonestThread(states, n, states[n].threads[t])
    {
      if t != moves[n - 1].thread {
        OtherStaysHonest(states, n - 1, moves[n - 1].thread, moves[n - 1].step, t);
      }
    }
  }

  lemma OtherStaysHonest(states: seq<State>, n: nat, mover: nat, step: Step, t: nat)
    requires n + 1 < |states| && Honest(states, n)
    requires Enabled(states[n], mover, step) && states[n + 1] == Do(states[n], mover, step)
    requires t < |states[n + 1].threads| && t != mover
    ensures HonestThread(states, n + 1, states[n + 1].threads[t])
  {
    assert states[n + 1].threads[t] == states[n].threads[t];
    HonestStays(states, n, states[n].threads[t]);
  }

  /** The watermark is always a value LIVE really had. */
  lemma PeakWasReached(states: seq<State>, moves: seq<Move>, n: nat) returns (i: nat)
    requires IsRun(states, moves) && n < |states|
    requires forall i :: 0 <= i <= n ==> Fits(states[i])
    ensures i <= n && states[i].live == states[n].peak
  {
    EveryRunIsHonest(states, moves, n);
    i :| i <= n && i < |states| && states[i].live == states[n].peak;
  }
}
