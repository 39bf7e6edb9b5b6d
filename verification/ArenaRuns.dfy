/** Runs of page allocations and frees: conservation, the exact limit of the slot table. */
module ArenaRuns {
  import opened HoleList
  import opened Memory
  import opened Arena
  import SlotTable

  /** Blocks are named by the number of the allocation that made them. */
  datatype Op = Alloc(size: nat) | Dealloc(k: nat)

  datatype State = State(holes: seq<Hole>, live: map<nat, Block>, next: nat)

  /** Stuck is the abort of a free that finds the slot table full. */
  datatype Outcome = Running(st: State) | Stuck

  /** allocate_pages, and free of a block's whole range; freeing a dead block is no step. */
  function Step(s: State, op: Op): Outcome {
    match op
    case Alloc(size) =>
      var i := FitIndex(s.holes, PageUp(size), PAGE);
      if i < |s.holes| then
        Running(State(Carve(s.holes, i, PageUp(size), PAGE),
                      s.live[s.next := Block(AllocAddr(s.holes[i], PAGE), PageUp(size))], s.next + 1))
      else Running(s.(next := s.next + 1))
    case Dealloc(k) =>
      if k !in s.live then Running(s)
      else if |s.holes| >= SlotTable.NR_HOLES then Stuck
      else Running(State(Release(s.holes, s.live[k].addr, s.live[k].len), s.live - {k}, s.next))
  }

  function Run(s: State, ops: seq<Op>): Outcome
    decreases |ops|
  {
    if ops == [] then Running(s)
    else match Step(s, ops[0])
      case Running(s') => Run(s', ops[1..])
      case Stuck => Stuck
  }

  ghost predicate Sound(lo: nat, hi: nat, s: State) {
    Partition(lo, hi, s.holes, s.live) && forall k :: k in s.live ==> k < s.next
  }

  ghost predicate Positive(ops: seq<Op>) {
    forall i :: 0 <= i < |ops| && ops[i].Alloc? ==> 0 < ops[i].size
  }

  /** At most 510 blocks are live at each free of the run. */
  ghost predicate Modest(s: State, ops: seq<Op>)
    decreases |ops|
  {
    ops == [] || (
      && (ops[0].Dealloc? ==> |s.live| <= 510)
      && (Step(s, ops[0]).Running? ==> Modest(Step(s, ops[0]).st, ops[1..])))
  }

  lemma {:induction false} StepSound(lo: nat, hi: nat, s: State, op: Op)
    requires Sound(lo, hi, s) && (op.Alloc? ==> 0 < op.size)
    ensures Step(s, op).Running? ==> Sound(lo, hi, Step(s, op).st)
    ensures Step(s, op).Stuck? ==> op.Dealloc? && 511 <= |s.live|
  {
    match op
    case Alloc(size) =>
      if FitIndex(s.holes, PageUp(size), PAGE) < |s.holes| {
        AllocateKeeps(lo, hi, s.holes, s.live, PageUp(size), s.next);
      }
    case Dealloc(k) =>
      HolesBounded(lo, hi, s.holes, s.live);
      if k in s.live { FreeKeeps(lo, hi, s.holes, s.live, k); }
  }

  ghost predicate FreePages(hs: seq<Hole>, a: nat, size: nat) {
    a % PAGE == 0 && RangeFree(hs, a, PageUp(size))
  }

  /** An allocation adds one block of the rounded-up size at the least page address free for
      it, and fails exactly when there is none, changing nothing; a free ends that block only. */
  lemma {:induction false} StepExact(lo: nat, hi: nat, s: State, op: Op)
    requires Sound(lo, hi, s) && (op.Alloc? ==> 0 < op.size)
    ensures op.Alloc? ==> Step(s, op).Running? && var s' := Step(s, op).st;
      && s'.next == s.next + 1
      && (if s.next in s'.live then
            var b := s'.live[s.next];
            && s'.live == s.live[s.next := b] && b.len == PageUp(op.size) && FreePages(s.holes, b.addr, op.size)
            && forall a: nat :: FreePages(s.holes, a, op.size) ==> b.addr <= a
          else
            s'.live == s.live && s'.holes == s.holes && forall a: nat :: !FreePages(s.holes, a, op.size))
    ensures op.Dealloc? ==>
      && (Step(s, op).Stuck? <==> op.k in s.live && 512 <= |s.holes|)
      && (Step(s, op).Running? ==> Step(s, op).st.live == s.live - {op.k} && Step(s, op).st.next == s.next)
  {
    if op.Alloc? {
      AllocateIsLeastFit(s.holes, PageUp(op.size), PAGE);
    }
  }

  /** Every run keeps the partition, a modest one never aborts, and a run that ends with
      the blocks it began with ends with the holes it began with. */
  lemma {:induction false} RunConserves(lo: nat, hi: nat, s: State, ops: seq<Op>)
    requires Sound(lo, hi, s) && Positive(ops)
    ensures Modest(s, ops) ==> Run(s, ops).Running?
    ensures Run(s, ops).Running? ==>
      var s' := Run(s, ops).st;
      Sound(lo, hi, s') && (s'.live == s.live ==> s'.holes == s.holes)
  {
    RunSound(lo, hi, s, ops);
    if Run(s, ops).Running? && Run(s, ops).st.live == s.live {
      SameBlocksSameHoles(lo, hi, s.holes, Run(s, ops).st.holes, s.live);
    }
  }

  lemma {:induction false} RunSound(lo: nat, hi: nat, s: State, ops: seq<Op>)
    requires Sound(lo, hi, s) && Positive(ops)
    ensures Modest(s, ops) ==> Run(s, ops).Running?
    ensures Run(s, ops).Running? ==> Sound(lo, hi, Run(s, ops).st)
    decreases |ops|
  {
    if ops != [] {
      StepSound(lo, hi, s, ops[0]);
      if Step(s, ops[0]).Running? {
        RunSound(lo, hi, Step(s, ops[0]).st, ops[1..]);
      }
    }
  }

  // ---- the bound of 510 is the best possible ----

  const WIDE: nat := 1023

  function Seed(lo: nat): State {
    State([Hole(lo, WIDE * PAGE)], map[], 0)
  }

  function Pages(n: nat): seq<Op> {
    seq(n, i => Alloc(PAGE))
  }

  function EvenFrees(n: nat): seq<Op> {
    seq(n, i requires 0 <= i < n => Dealloc(2 * i))
  }

  function PageBlocks(lo: nat, n: nat): map<nat, Block> {
    map i: nat | 0 <= i < n :: Block(lo + i * PAGE, PAGE)
  }

  lemma {:induction false} RunSplit(s: State, a: seq<Op>, b: seq<Op>)
    requires Run(s, a).Running?
    ensures Run(s, a + b) == Run(Run(s, a).st, b)
    decreases |a|
  {
    if a == [] {
      assert a + b == b;
    } else {
      assert (a + b)[1..] == a[1..] + b;
      RunSplit(Step(s, a[0]).st, a[1..], b);
    }
  }

  lemma RunSnoc(s: State, a: seq<Op>, op: Op)
    requires Run(s, a).Running?
    ensures Run(s, a + [op]) == Step(Run(s, a).st, op)
  {
    RunSplit(s, a, [op]);
    var s' := Run(s, a).st;
    assert [op][1..] == [];
    assert Run(s', [op]) == Step(s', op);
  }

  /** n single pages taken from the region, front to back. */
  lemma {:induction false} TakePages(lo: nat, n: nat)
    requires lo % PAGE == 0 && n <= WIDE
    ensures Run(Seed(lo), Pages(n)) == Running(Front(lo, n))
  {
    if n == 0 {
      assert Pages(0) == [];
      assert PageBlocks(lo, 0) == map[];
    } else {
      TakePages(lo, n - 1);
      assert Pages(n) == Pages(n - 1) + [Alloc(PAGE)];
      RunSnoc(Seed(lo), Pages(n - 1), Alloc(PAGE));
      TakePage(lo, n - 1);
    }
  }

  function Front(lo: nat, n: nat): State {
    State(if n < WIDE then [Hole(lo + n * PAGE, (WIDE - n) * PAGE)] else [], PageBlocks(lo, n), n)
  }

  lemma TakePage(lo: nat, n: nat)
    requires lo % PAGE == 0 && n < WIDE
    ensures Step(Front(lo, n), Alloc(PAGE)) == Running(Front(lo, n + 1))
  {
    var hs := [Hole(lo + n * PAGE, (WIDE - n) * PAGE)];
    PagePad(hs[0].base);
    assert FitIndex(hs, PAGE, PAGE) == 0;
    assert PageBlocks(lo, n)[n := Block(lo + n * PAGE, PAGE)] == PageBlocks(lo, n + 1);
    CarveSingle(hs[0]);
  }

  lemma CarveSingle(h: Hole)
    requires h.base % PAGE == 0 && PAGE <= h.len
    ensures Carve([h], 0, PAGE, PAGE) == if h.len == PAGE then [] else [Hole(h.base + PAGE, h.len - PAGE)]
  {
    PagePad(h.base);
  }

  function EvenHoles(lo: nat, n: nat): seq<Hole> {
    seq(n, i requires 0 <= i < n => Hole(lo + 2 * i * PAGE, PAGE))
  }

  function WithoutEvens(lo: nat, n: nat): map<nat, Block> {
    map i: nat | 0 <= i < WIDE && (i % 2 == 1 || 2 * n <= i) :: Block(lo + i * PAGE, PAGE)
  }

  /** Freeing every other page leaves a hole of its own for each. */
  lemma {:induction false} FreeEvens(lo: nat, n: nat)
    requires lo % PAGE == 0 && n <= SlotTable.NR_HOLES
    ensures Run(State([], PageBlocks(lo, WIDE), WIDE), EvenFrees(n))
            == Running(State(EvenHoles(lo, n), WithoutEvens(lo, n), WIDE))
  {
    var s0 := State([], PageBlocks(lo, WIDE), WIDE);
    if n == 0 {
      assert EvenFrees(0) == [] && EvenHoles(lo, 0) == [];
      assert PageBlocks(lo, WIDE) == WithoutEvens(lo, 0);
    } else {
      FreeEvens(lo, n - 1);
      assert EvenFrees(n) == EvenFrees(n - 1) + [Dealloc(2 * (n - 1))];
      RunSnoc(s0, EvenFrees(n - 1), Dealloc(2 * (n - 1)));
      FreeEven(lo, n - 1);
    }
  }

  lemma FreeEven(lo: nat, n: nat)
    requires n < SlotTable.NR_HOLES
    ensures Step(State(EvenHoles(lo, n), WithoutEvens(lo, n), WIDE), Dealloc(2 * n))
            == Running(State(EvenHoles(lo, n + 1), WithoutEvens(lo, n + 1), WIDE))
  {
    AppendHole(lo, n);
    EvenGone(lo, n);
  }

  lemma EvenGone(lo: nat, n: nat)
    requires n < SlotTable.NR_HOLES
    ensures 2 * n in WithoutEvens(lo, n) && WithoutEvens(lo, n)[2 * n] == Block(lo + 2 * n * PAGE, PAGE)
    ensures WithoutEvens(lo, n) - {2 * n} == WithoutEvens(lo, n + 1)
  {
  }

  lemma AppendHole(lo: nat, n: nat)
    ensures Release(EvenHoles(lo, n), lo + 2 * n * PAGE, PAGE) == EvenHoles(lo, n + 1)
  {
    var hs, h := EvenHoles(lo, n), Hole(lo + 2 * n * PAGE, PAGE);
    InsertPosUnique(hs, h.base, n);
    assert Insert(hs, n, h) == EvenHoles(lo, n + 1);
  }

  /** 511 live blocks are one too many: taking 1023 pages and freeing every other one
      fills the table with 512 holes, and the next free aborts. */
  lemma {:induction false} TableCanFill(lo: nat)
    requires lo % PAGE == 0
    ensures var ops := Pages(WIDE) + EvenFrees(512);
      && Run(Seed(lo), ops).Running?
      && |Run(Seed(lo), ops).st.holes| == 512 && |Run(Seed(lo), ops).st.live| == 511
      && Run(Seed(lo), ops + [Dealloc(1)]) == Stuck
  {
    TakePages(lo, WIDE);
    FreeEvens(lo, 512);
    var ops := Pages(WIDE) + EvenFrees(512);
    RunSplit(Seed(lo), Pages(WIDE), EvenFrees(512));
    RunSnoc(Seed(lo), ops, Dealloc(1));
    OddsLeft(lo);
  }

  lemma OddsLeft(lo: nat)
    ensures |WithoutEvens(lo, 512)| == 511 && 1 in WithoutEvens(lo, 512)
  {
    OddCount(lo, 511);
    assert WithoutEvens(lo, 512) == OddBlocks(lo, 511);
  }

  function OddBlocks(lo: nat, n: nat): map<nat, Block> {
    map i: nat | 0 <= i < 2 * n && i % 2 == 1 :: Block(lo + i * PAGE, PAGE)
  }

  lemma {:induction false} OddCount(lo: nat, n: nat)
    ensures |OddBlocks(lo, n)| == n
  {
    if n == 0 {
      assert OddBlocks(lo, 0) == map[];
    } else {
      OddCount(lo, n - 1);
      var m := OddBlocks(lo, n - 1);
      assert OddBlocks(lo, n) == m[2 * n - 1 := Block(lo + (2 * n - 1) * PAGE, PAGE)];
    }
  }
}
