/** One submission and completion queue pair as host and device share it: two rings in
    memory, the doorbells, and each side's own indices (NVM Express Base Specification 1.4,
    sections 4.1 and 4.6).  A history beside the concrete state says which entries are
    really in flight; every step keeps the two related, over any number of laps. */
module QueuePair {
  import opened Arith

  /** A submission entry: command id and data pointer.  `tag` numbers the submissions; it is
      a history variable that neither side reads. */
  datatype Sqe = Sqe(cid: nat, prp1: nat, prp2: nat, tag: nat)

  /** A completion entry: the command it completes and the phase bit. */
  datatype Cqe = Cqe(cmd: Sqe, phase: nat)

  const NO_CMD := Sqe(0, 0, 0, 0)

  datatype Queue = Queue(
    depth: nat,
    // shared memory
    sq: seq<Sqe>, cq: seq<Cqe>,
    // host: NVMeQueue
    sqTail: nat, lastSqTail: nat, cqHead: nat, cqPhase: nat,
    // doorbell registers
    sqDb: nat, cqDb: nat,
    // device
    devSqHead: nat, devCqTail: nat, devPhase: nat)

  ghost predicate WellFormed(q: Queue) {
    && 2 <= q.depth && |q.sq| == |q.cq| == q.depth
    && q.sqTail < q.depth && q.cqHead < q.depth && q.devSqHead < q.depth && q.devCqTail < q.depth
  }

  // ---- the host's operations ----

  function Bump(i: nat, depth: nat): nat {
    if i + 1 == depth then 0 else i + 1
  }

  /** init_queue: indices at zero, expected phase 1, completion memory cleared. */
  function InitQueue(depth: nat): Queue {
    Queue(depth, seq(depth, _ => NO_CMD), seq(depth, _ => Cqe(NO_CMD, 0)), 0, 0, 0, 1, 0, 0, 0, 0, 1)
  }

  /** submit_sq_command up to the doorbell: write the entry, advance the tail. */
  function WriteSqe(q: Queue, c: Sqe): Queue
    requires q.sqTail < |q.sq|
  {
    q.(sq := q.sq[q.sqTail := c], sqTail := Bump(q.sqTail, q.depth))
  }

  /** write_sq_doorbell: without `writeSq` the register is written only when one more
      submission would make the tail meet the last tail written. */
  function WriteSqDoorbell(q: Queue, writeSq: bool): Queue {
    if !writeSq && Bump(q.sqTail, q.depth) != q.lastSqTail then q
    else q.(sqDb := q.sqTail, lastSqTail := q.sqTail)
  }

  predicate CqePending(q: Queue)
    requires q.cqHead < |q.cq|
  {
    q.cq[q.cqHead].phase == q.cqPhase
  }

  /** update_cq_head, whose temporary is 16 bits wide. */
  function UpdateCqHead(q: Queue): Queue {
    var tmp := (q.cqHead + 1) % 0x1_0000;
    if tmp == q.depth then q.(cqHead := 0, cqPhase := 1 - q.cqPhase % 2)
    else q.(cqHead := tmp)
  }

  function RingCqDoorbell(q: Queue): Queue {
    q.(cqDb := q.cqHead)
  }

  // ---- the device's operations ----

  predicate CanFetch(q: Queue) { q.devSqHead != q.sqDb }

  function Fetch(q: Queue): (Sqe, Queue)
    requires q.devSqHead < |q.sq|
  {
    (q.sq[q.devSqHead], q.(devSqHead := Bump(q.devSqHead, q.depth)))
  }

  /** The completion queue is full when its tail is one behind the host's doorbell. */
  predicate CanPost(q: Queue) { Bump(q.devCqTail, q.depth) != q.cqDb }

  function Post(q: Queue, c: Sqe): Queue
    requires q.devCqTail < |q.cq|
  {
    var q' := q.(cq := q.cq[q.devCqTail := Cqe(c, q.devPhase)], devCqTail := Bump(q.devCqTail, q.depth));
    if q'.devCqTail == 0 then q'.(devPhase := 1 - q.devPhase % 2) else q'
  }

  // ---- histories ----

  /** All submissions and completions so far, and how far each of them has got. */
  datatype History = History(
    submitted: seq<Sqe>, published: nat, fetched: nat,
    posted: seq<Sqe>, consumed: nat, rung: nat)

  const EMPTY_HISTORY := History([], 0, 0, [], 0, 0)

  function Unfetched(h: History): int { |h.submitted| - h.fetched }

  function Unrung(h: History): int { |h.posted| - h.rung }

  /** The phase bit used on the lap that entry n falls into. */
  function Phase(n: nat, depth: nat): (p: nat)
    requires 0 < depth
    ensures p <= 1
  {
    if n < depth then 1 else 1 - Phase(n - depth, depth)
  }

  ghost predicate SqRelated(q: Queue, h: History)
    requires WellFormed(q)
  {
    && h.fetched <= h.published <= |h.submitted| && Unfetched(h) <= q.depth - 1
    && q.sqTail == Index(|h.submitted|, q.depth)
    && q.lastSqTail == q.sqDb == Index(h.published, q.depth)
    && q.devSqHead == Index(h.fetched, q.depth)
    && (forall i :: h.fetched <= i < |h.submitted| ==> SqSlot(q, h, i))
  }

  ghost predicate SqSlot(q: Queue, h: History, i: nat)
    requires 0 < q.depth == |q.sq|
  {
    i < |h.submitted| && q.sq[Index(i, q.depth)] == h.submitted[i]
  }

  ghost predicate CqRelated(q: Queue, h: History)
    requires WellFormed(q)
  {
    && h.rung <= h.consumed <= |h.posted| && Unrung(h) <= q.depth - 1
    && q.cqHead == Index(h.consumed, q.depth) && q.cqPhase == Phase(h.consumed, q.depth)
    && q.devCqTail == Index(|h.posted|, q.depth) && q.devPhase == Phase(|h.posted|, q.depth)
    && q.cqDb == Index(h.rung, q.depth)
    && (forall i :: 0 <= i < |h.posted| && |h.posted| <= i + q.depth ==> CqSlot(q, h, i))
    && (forall s :: |h.posted| <= s < q.depth ==> CqBlank(q, s))
  }

  ghost predicate CqSlot(q: Queue, h: History, i: nat)
    requires 0 < q.depth == |q.cq|
  {
    i < |h.posted| && q.cq[Index(i, q.depth)] == Cqe(h.posted[i], Phase(i, q.depth))
  }

  ghost predicate CqBlank(q: Queue, s: nat)
    requires |q.cq| == q.depth
  {
    s < q.depth && q.cq[s].phase == 0
  }

  ghost predicate Related(q: Queue, h: History) {
    WellFormed(q) && SqRelated(q, h) && CqRelated(q, h)
  }

  lemma ConsumedWithin(q: Queue, h: History)
    requires Related(q, h)
    ensures h.rung <= h.consumed <= |h.posted|
  {
  }

  lemma InitRelated(depth: nat)
    requires 2 <= depth
    ensures Related(InitQueue(depth), EMPTY_HISTORY)
  {
  }

  lemma {:induction false} BumpIndex(n: nat, depth: nat)
    requires 0 < depth
    ensures Bump(Index(n, depth), depth) == Index(n + 1, depth)
    ensures Phase(n + 1, depth) == if Index(n + 1, depth) == 0 then 1 - Phase(n, depth) else Phase(n, depth)
    decreases n
  {
    IndexSucc(n, depth);
    if n >= depth { BumpIndex(n - depth, depth); }
  }

  // ---- submission side ----

  /** A submission is safe while at most depth - 2 commands are unfetched before it. */
  lemma {:induction false} SubmitKeeps(q: Queue, h: History, c: Sqe)
    requires Related(q, h) && Unfetched(h) <= q.depth - 2
    ensures Related(WriteSqe(q, c), h.(submitted := h.submitted + [c]))
  {
    hide Index;
    var q', h' := WriteSqe(q, c), h.(submitted := h.submitted + [c]);
    var n := |h.submitted|;
    BumpIndex(n, q.depth);
    forall i | h'.fetched <= i < |h'.submitted| ensures SqSlot(q', h', i) {
      if i < n {
        assert SqSlot(q, h, i);
        IndexDistinct(i, n, q.depth);
      }
    }
    CqUnchanged(q, h, q', h');
  }

  lemma CqUnchanged(q: Queue, h: History, q': Queue, h': History)
    requires Related(q, h) && WellFormed(q')
    requires q'.depth == q.depth && q'.cq == q.cq && q'.cqHead == q.cqHead && q'.cqPhase == q.cqPhase
    requires q'.cqDb == q.cqDb && q'.devCqTail == q.devCqTail && q'.devPhase == q.devPhase
    requires h'.posted == h.posted && h'.consumed == h.consumed && h'.rung == h.rung
    ensures CqRelated(q', h')
  {
    hide Index;
    forall i | 0 <= i < |h'.posted| && |h'.posted| <= i + q'.depth ensures CqSlot(q', h', i) {
      assert CqSlot(q, h, i);
    }
    forall s | |h'.posted| <= s < q'.depth ensures CqBlank(q', s) { assert CqBlank(q, s); }
  }

  lemma SqUnchanged(q: Queue, h: History, q': Queue, h': History)
    requires Related(q, h) && WellFormed(q')
    requires q'.depth == q.depth && q'.sq == q.sq && q'.sqTail == q.sqTail && q'.lastSqTail == q.lastSqTail
    requires q'.sqDb == q.sqDb && q'.devSqHead == q.devSqHead
    requires h'.submitted == h.submitted && h'.published == h.published && h'.fetched == h.fetched
    ensures SqRelated(q', h')
  {
    hide Index;
    forall i | h'.fetched <= i < |h'.submitted| ensures SqSlot(q', h', i) { assert SqSlot(q, h, i); }
  }

  /** The history's account of a doorbell call. */
  function Publish(q: Queue, h: History, writeSq: bool): History {
    if !writeSq && |h.submitted| - h.published != q.depth - 1 then h
    else h.(published := |h.submitted|)
  }

  /** A lazy doorbell is rung exactly when depth - 1 submissions are unpublished, so at most
      depth - 2 are left unpublished by any call, and their number is the tail distance. */
  lemma {:induction false} DoorbellKeeps(q: Queue, h: History, writeSq: bool)
    requires Related(q, h)
    ensures var q', h' := WriteSqDoorbell(q, writeSq), Publish(q, h, writeSq);
      && Related(q', h')
      && |h'.submitted| - h'.published <= q.depth - 2
      && Sub(q'.sqTail, q'.lastSqTail, q.depth) == |h'.submitted| - h'.published
      && (writeSq ==> h'.published == |h'.submitted|)
  {
    var n, d := |h.submitted|, q.depth;
    var u := n - h.published;
    BumpIndex(n, d);
    if u == d - 1 {
      assert n + 1 == h.published + d;
    } else {
      IndexDistinct(h.published, n + 1, d);
    }
    var q', h' := WriteSqDoorbell(q, writeSq), Publish(q, h, writeSq);
    SqSlotsSame(q, h, q', h');
    CqUnchanged(q, h, q', h');
    SubExact(|h'.submitted|, h'.published, d);
  }

  lemma SqSlotsSame(q: Queue, h: History, q': Queue, h': History)
    requires Related(q, h) && q'.depth == q.depth && q'.sq == q.sq && h'.submitted == h.submitted && h.fetched <= h'.fetched
    ensures forall i :: h'.fetched <= i < |h'.submitted| ==> SqSlot(q', h', i)
  {
    hide Index;
    forall i | h'.fetched <= i < |h'.submitted| ensures SqSlot(q', h', i) { assert SqSlot(q, h, i); }
  }

  /** The device sees a command waiting exactly when one is published and unfetched, and
      what it fetches is the oldest such command, as the host submitted it. */
  lemma {:induction false} FetchKeeps(q: Queue, h: History)
    requires Related(q, h)
    ensures CanFetch(q) <==> h.fetched < h.published
    ensures CanFetch(q) ==>
      var (c, q') := Fetch(q);
      c == h.submitted[h.fetched] && Related(q', h.(fetched := h.fetched + 1))
  {
    hide Index;
    if h.fetched < h.published {
      IndexDistinct(h.fetched, h.published, q.depth);
      assert SqSlot(q, h, h.fetched);
      BumpIndex(h.fetched, q.depth);
      var q', h' := Fetch(q).1, h.(fetched := h.fetched + 1);
      SqSlotsSame(q, h, q', h');
      CqUnchanged(q, h, q', h');
    }
  }

  // ---- completion side ----

  /** The device may post exactly when fewer than depth - 1 entries are beyond the doorbell. */
  lemma {:induction false} PostKeeps(q: Queue, h: History, c: Sqe)
    requires Related(q, h)
    ensures CanPost(q) <==> Unrung(h) <= q.depth - 2
    ensures CanPost(q) ==> Related(Post(q, c), h.(posted := h.posted + [c]))
  {
    var n, d := |h.posted|, q.depth;
    BumpIndex(n, d);
    if Unrung(h) <= d - 2 {
      IndexDistinct(h.rung, n + 1, d);
      PostSlots(q, h, c);
      SqUnchanged(q, h, Post(q, c), h.(posted := h.posted + [c]));
    } else {
      assert n + 1 == h.rung + d;
    }
  }

  lemma PostSlots(q: Queue, h: History, c: Sqe)
    requires Related(q, h)
    ensures var q', h' := Post(q, c), h.(posted := h.posted + [c]);
      && |q'.cq| == q'.depth == q.depth
      && (forall i :: 0 <= i < |h'.posted| && |h'.posted| <= i + q'.depth ==> CqSlot(q', h', i))
      && (forall s :: |h'.posted| <= s < q'.depth ==> CqBlank(q', s))
  {
    hide Index;
    var q', h' := Post(q, c), h.(posted := h.posted + [c]);
    var n, d := |h.posted|, q.depth;
    forall i | 0 <= i < |h'.posted| && |h'.posted| <= i + d ensures CqSlot(q', h', i) {
      if i < n {
        assert CqSlot(q, h, i);
        IndexDistinct(i, n, d);
      }
    }
    forall s | |h'.posted| <= s < d ensures CqBlank(q', s) {
      assert CqBlank(q, s);
      PhaseBefore(n, d);
    }
  }

  /** The phase bit tells new from old over any number of laps: an entry is pending exactly
      when one is posted and unconsumed, and it is the oldest such entry. */
  lemma {:induction false} PendingExactly(q: Queue, h: History)
    requires Related(q, h)
    ensures CqePending(q) <==> h.consumed < |h.posted|
    ensures CqePending(q) ==> q.cq[q.cqHead].cmd == h.posted[h.consumed]
  {
    hide SqRelated, SqSlot, Phase, Index;
    var n, d := h.consumed, q.depth;
    PhaseBefore(n, d);
    if n < |h.posted| {
      assert CqSlot(q, h, n);
    } else if d <= n {
      assert CqSlot(q, h, n - d);
    } else {
      assert CqBlank(q, n);
    }
  }

  /** A lap earlier the slot was the same and the phase the other one; on the first lap the
      phase is not that of cleared memory. */
  lemma PhaseBefore(n: nat, d: nat)
    requires 0 < d
    ensures d <= n ==> Index(n - d, d) == Index(n, d) && Phase(n - d, d) != Phase(n, d)
    ensures n < d ==> Index(n, d) == n && Phase(n, d) == 1
  {
  }

  lemma {:induction false} ConsumeKeeps(q: Queue, h: History)
    requires Related(q, h) && q.depth <= 65535 && h.consumed < |h.posted|
    ensures Related(UpdateCqHead(q), h.(consumed := h.consumed + 1))
  {
    hide CqSlot, CqBlank, SqSlot, SqRelated, Phase, Index;
    BumpIndex(h.consumed, q.depth);
    var q', h' := UpdateCqHead(q), h.(consumed := h.consumed + 1);
    assert (q.cqHead + 1) % 0x1_0000 == q.cqHead + 1;
    SqUnchanged(q, h, q', h');
    CqSlotsSame(q, h, q', h');
  }

  lemma CqSlotsSame(q: Queue, h: History, q': Queue, h': History)
    requires Related(q, h) && q'.depth == q.depth && q'.cq == q.cq && h'.posted == h.posted
    ensures forall i :: 0 <= i < |h'.posted| && |h'.posted| <= i + q'.depth ==> CqSlot(q', h', i)
    ensures forall s :: |h'.posted| <= s < q'.depth ==> CqBlank(q', s)
  {
    hide Index;
    forall i | 0 <= i < |h'.posted| && |h'.posted| <= i + q'.depth ensures CqSlot(q', h', i) {
      assert CqSlot(q, h, i);
    }
    forall s | |h'.posted| <= s < q'.depth ensures CqBlank(q', s) { assert CqBlank(q, s); }
  }

  lemma {:induction false} RingKeeps(q: Queue, h: History)
    requires Related(q, h)
    ensures Related(RingCqDoorbell(q), h.(rung := h.consumed))
  {
    hide Index;
    var q', h' := RingCqDoorbell(q), h.(rung := h.consumed);
    SqUnchanged(q, h, q', h');
    CqSlotsSame(q, h, q', h');
  }

  /** The last slot of a lap: stepping the head flips the expected phase exactly when the
      queue is shallower than the 16-bit temporary can count. */
  lemma {:induction false} WrapFlipsPhase(q: Queue)
    requires 2 <= q.depth <= 65536 && q.cqHead == q.depth - 1 && q.cqPhase <= 1
    ensures UpdateCqHead(q).cqHead == 0
    ensures UpdateCqHead(q).cqPhase == 1 - q.cqPhase <==> q.depth <= 65535
  {
  }

  /** Submitting into a queue that already holds depth - 1 unfetched commands makes tail and
      head meet: the device then sees an empty queue. */
  lemma {:induction false} OverfullLooksEmpty(q: Queue, h: History, c: Sqe)
    requires Related(q, h) && Unfetched(h) == q.depth - 1
    ensures !CanFetch(WriteSqDoorbell(WriteSqe(q, c), true))
  {
    BumpIndex(|h.submitted|, q.depth);
    assert |h.submitted| + 1 == h.fetched + q.depth;
  }
}
