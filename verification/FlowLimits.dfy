/** How far a flow's hypotheses can be pushed: the submission queue overflows in some run
    exactly when more commands can be in flight than it holds, and memory is given back in
    every run exactly when no more requests are started than completions are waited for. */
module FlowLimits {
  import opened Wrappers
  import opened Arena
  import opened Commands
  import opened QueuePair
  import opened FlowModel
  import opened FlowInvariant
  import opened FlowKeeps
  import opened FlowTheorems
  import opened FlowRoom

  // ---- runs put together ----

  lemma {:induction false} ExecAppend(c: Config, s: State, a: seq<Action>, b: seq<Action>)
    requires Exec(c, s, a).Some?
    ensures Exec(c, s, a + b) == Exec(c, Exec(c, s, a).value, b)
    ensures FreshRun(c, s, a) && FreshRun(c, Exec(c, s, a).value, b) ==> FreshRun(c, s, a + b)
    decreases |a|
  {
    hide Apply, FreshId;
    if a == [] {
      assert a + b == b;
    } else {
      assert (a + b)[0] == a[0] && (a + b)[1..] == a[1..] + b;
      ExecAppend(c, Apply(c, s, a[0]).value, a[1..], b);
    }
  }

  lemma ExecOne(c: Config, s: State, a: Action)
    requires Apply(c, s, a).Some?
    ensures Exec(c, s, [a]) == Apply(c, s, a) && ((a == SetupCmd ==> FreshId(s)) ==> FreshRun(c, s, [a]))
  {
    hide Apply, FreshId;
    assert [a][1..] == [];
    assert Exec(c, Apply(c, s, a).value, []) == Some(Apply(c, s, a).value);
  }

  // ---- filling the submission queue ----

  /** While the flow is primed, nothing is completed, and the device has fetched no more than
      it must for the rest to fill the queue. */
  ghost predicate Filling(c: Config, s: State) {
    && Groups(c, s) && s.status == Running && !s.eng.running
    && s.h.posted == [] && s.irq == Idle && !s.dev.owed && s.dev.irqs == 0
    && s.h.fetched + c.depth <= Min(c.cap, c.avg)
  }

  /** The queue holds depth - 1 commands and one more is about to be written. */
  ghost predicate Brim(c: Config, s: State) {
    s.sub.Enqueue? && Unfetched(s.h) == c.depth - 1 && s.h.fetched + c.depth == Min(c.cap, c.avg)
  }

  /** The next step of the run that fills the queue. */
  function NextFill(c: Config, s: State): Action {
    match s.sub
    case NoSub => Fill
    case Setup(_) => SetupCmd
    case Build(_, _) => BuildPrp
    case Enqueue(_, _, _, _) => if Unfetched(s.h) <= c.depth - 2 then EnqueueCmd else DevFetch
    case RingSq => RingSqDb
  }

  /** Not all requests that fit are out yet, so the priming loop goes on. */
  lemma FillGoesOn(c: Config, s: State)
    requires Filling(c, s) && s.sub == NoSub
    ensures s.eng.fill < c.avg
  {
    hide Holding, Table, Describing, Serving, Interrupting, CqRelated, Partition;
    QueueHolds(c, s);
  }

  lemma QueueHolds(c: Config, s: State)
    requires Groups(c, s)
    ensures Unfetched(s.h) <= c.depth - 1 && s.q.depth == c.depth && Related(s.q, s.h)
  {
    hide Holding, Table, Describing, Serving, Interrupting, CqRelated, Pacing, Delivery;
  }

  lemma {:induction false} FillEnabled(c: Config, most: nat, s: State)
    requires GoodConfig(c) && Roomy(c, most) && Filling(c, s) && !Brim(c, s)
    ensures Apply(c, s, NextFill(c, s)).Some? && FreshId(s)
  {
    hide Groups, GoodConfig, Roomy, BuildList, TakeBuffer;
    QueueHolds(c, s);
    PrimingFresh(c, s);
    match s.sub
    case NoSub => FillGoesOn(c, s);
    case Setup(_) =>
    case Build(_, _) => BuildEnabled(c, s);
    case Enqueue(_, _, _, _) => EntryWaits(c, s); CanFetchMeans(s.q, s.h);
    case RingSq =>
  }

  lemma EntryWaits(c: Config, s: State)
    requires Groups(c, s) && s.sub.Enqueue?
    ensures s.h.published == |s.h.submitted| && s.q.sqTail < |s.q.sq| && s.q.devSqHead < |s.q.sq|
  {
    hide Holding, Table, Describing, Serving, Interrupting, CqRelated, Pacing, Delivery;
  }

  lemma PrimingFresh(c: Config, s: State)
    requires GoodConfig(c) && Filling(c, s)
    ensures FreshId(s)
  {
    hide Groups, FreshId, Alive;
    PrimingIssued(c, s);
    if s.sub.Setup? {
      forall n: nat | Alive(Issued(s.h, s.sub), s.h.posted, ReleasedN(s.h, s.irq), n) ensures Issued(s.h, s.sub) - n < IDS { }
      FreshInWindow(c, s);
    } else {
      NothingToRegister(s);
    }
  }

  lemma PrimingIssued(c: Config, s: State)
    requires GoodConfig(c) && Filling(c, s)
    ensures Issued(s.h, s.sub) < IDS
  {
    hide Holding, Describing, Related, Delivery, Serving, Interrupting, Table, Partition;
    StagesOrdered(c, s);
  }

  /** It touches nothing but the submission side. */
  lemma FillTouches(c: Config, s: State)
    requires Filling(c, s) && !Brim(c, s) && Apply(c, s, NextFill(c, s)).Some? && Unfetched(s.h) <= c.depth - 1
    ensures var s' := Apply(c, s, NextFill(c, s)).value;
      && s'.eng.running == s.eng.running && s'.h.posted == s.h.posted && s'.irq == s.irq
      && s'.dev.owed == s.dev.owed && s'.dev.irqs == s.dev.irqs && s'.h.fetched + c.depth <= Min(c.cap, c.avg)
  {
    hide Groups, TakeBuffer, BuildList, WriteSqe, Fetch;
  }

  lemma {:induction false} FillStep(c: Config, most: nat, s: State)
    requires GoodConfig(c) && Roomy(c, most) && Filling(c, s) && !Brim(c, s)
    ensures Apply(c, s, NextFill(c, s)).Some? && FreshId(s) && Filling(c, Apply(c, s, NextFill(c, s)).value)
  {
    hide Groups, GoodConfig, Roomy, Apply, FreshId;
    FillEnabled(c, most, s);
    QueueHolds(c, s);
    FillTouches(c, s);
    var a := NextFill(c, s);
    StepKeepsBut(c, s, a);
    StepStaysRunning(c, most, s, a);
    InvRunning(c, Apply(c, s, a).value);
  }

  /** From a state that fills the queue, a run to its brim. */
  lemma {:induction false} FillToBrim(c: Config, most: nat, s: State) returns (acts: seq<Action>)
    requires GoodConfig(c) && Roomy(c, most) && Filling(c, s)
    ensures FreshRun(c, s, acts) && Exec(c, s, acts).Some?
    ensures Filling(c, Exec(c, s, acts).value) && Brim(c, Exec(c, s, acts).value)
    decreases c.avg + 18 * Largest(c) + 3 - Progress(s)
  {
    hide Groups, GoodConfig, Roomy, Apply, FreshId, Progress, Brim;
    acts := [];
    if !Brim(c, s) {
      var a := NextFill(c, s);
      FillStep(c, most, s);
      var s' := Apply(c, s, a).value;
      StepAdvances(c, s, a);
      ProgressBounded(c, s');
      var rest := FillToBrim(c, most, s');
      acts := [a] + rest;
      assert acts[1..] == rest;
    }
  }

  lemma InitFilling(c: Config)
    requires GoodConfig(c) && !QueueRoom(c)
    ensures Filling(c, Init(c))
  {
    hide GoodConfig, Groups;
    InitInv(c);
    InvRunning(c, Init(c));
  }

  /** The queue holds depth commands the device has not fetched, and looks empty to it. */
  ghost predicate Overfull(c: Config, s: State) {
    Unfetched(s.h) == c.depth && s.h.published == |s.h.submitted| && !CanFetch(s.q)
  }

  /** One more command. */
  lemma {:induction false} BrimOverflows(c: Config, s: State)
    requires Filling(c, s) && Brim(c, s)
    ensures FreshRun(c, s, [EnqueueCmd, RingSqDb]) && Exec(c, s, [EnqueueCmd, RingSqDb]).Some?
    ensures var s' := Exec(c, s, [EnqueueCmd, RingSqDb]).value;
      && Overfull(c, s') && s'.sub == NoSub
      && s' == s.(q := s'.q, h := s.h.(submitted := s'.h.submitted, published := |s'.h.submitted|), sub := NoSub)
  {
    hide Groups, SqRelated, CqRelated;
    QueueHolds(c, s);
    EntryWaits(c, s);
    var sqe := Sqe(s.sub.id, s.sub.prp1, s.sub.prp2, s.sub.r);
    OverfullLooksEmpty(s.q, s.h, sqe);
    var s1 := Apply(c, s, EnqueueCmd).value;
    assert Exec(c, s1, [RingSqDb]) == Apply(c, s1, RingSqDb) by { ExecOne(c, s1, RingSqDb); }
    ExecOne(c, s1, RingSqDb);
    assert [EnqueueCmd, RingSqDb][1..] == [RingSqDb];
  }

  /** When more commands can be in flight than the queue holds, a run overfills it. */
  lemma {:induction false} QueueOverflows(c: Config, most: nat) returns (acts: seq<Action>)
    requires GoodConfig(c) && Roomy(c, most) && !QueueRoom(c)
    ensures FreshRun(c, Init(c), acts) && Exec(c, Init(c), acts).Some? && Overfull(c, Exec(c, Init(c), acts).value)
  {
    hide GoodConfig, Roomy, Groups, Apply, FreshId, Init, Overfull, FreshRun, Exec;
    InitFilling(c);
    var fill := FillToBrim(c, most, Init(c));
    var s := Exec(c, Init(c), fill).value;
    BrimOverflows(c, s);
    ExecAppend(c, Init(c), fill, [EnqueueCmd, RingSqDb]);
    acts := fill + [EnqueueCmd, RingSqDb];
  }

  /** No run of the flow ever has more commands unfetched than the queue may hold. */
  ghost predicate NeverOverfull(c: Config) {
    forall acts :: FreshRun(c, Init(c), acts) ==> Within(c, Exec(c, Init(c), acts))
  }

  ghost predicate Within(c: Config, r: Option<State>) {
    r.Some? && Unfetched(r.value.h) <= c.depth - 1
  }

  /** That is so exactly when queue_depth or average_enqueued_requests is below the depth. */
  lemma {:induction false} QueueRoomExactly(c: Config, most: nat)
    requires GoodConfig(c) && Roomy(c, most)
    ensures NeverOverfull(c) <==> QueueRoom(c)
  {
    hide GoodConfig, Roomy, Groups, Exec, Init, FreshRun;
    if QueueRoom(c) {
      forall acts | FreshRun(c, Init(c), acts) ensures Within(c, Exec(c, Init(c), acts)) {
        InitInv(c);
        InitRunning(c);
        RunKeeps(c, Init(c), acts);
        RunStaysRunning(c, most, Init(c), acts);
        InvRunning(c, Exec(c, Init(c), acts).value);
        QueueHolds(c, Exec(c, Init(c), acts).value);
      }
    } else {
      var acts := QueueOverflows(c, most);
      assert !Within(c, Exec(c, Init(c), acts));
    }
  }

  /** The rest of the priming loop, with the queue overfull and the device silent: no more
      requests are sent, only generated. */
  ghost predicate Silent(c: Config, most: nat, s: State) {
    && s.status == Running && s.sub == NoSub && !s.eng.running && s.eng.completed == 0
    && s.eng.batch == [] && !s.eng.post && s.done == [] && s.irq == Idle && !s.dev.owed && s.dev.irqs == 0
    && s.dev.held == {} && !CanFetch(s.q)
    && s.eng.submitted == s.eng.fill <= c.avg && (s.eng.inflight >= c.cap || s.eng.fill == c.avg)
    && Spare(c, most, s.mem, s.eng.fill)
  }

  /** Memory leaves room for the buffers still to be taken. */
  ghost predicate Spare(c: Config, most: nat, m: Mem, fill: nat) {
    && fill <= c.avg && Partition(c.lo, c.hi, m.holes, m.live) && |m.live| + (c.avg - fill) <= MostLive(c)
    && (forall o :: o in m.live ==> m.live[o].len <= most) && (forall r: nat :: fill <= r ==> Data(r) !in m.live)
  }

  lemma {:induction false} SpareFill(c: Config, most: nat, m: Mem, fill: nat)
    requires GoodConfig(c) && Roomy(c, most) && Spare(c, most, m, fill) && fill < c.avg
    ensures var t := TakeBuffer(m, fill, c.size(fill)); t.Some? && Spare(c, most, t.value, fill + 1)
  {
    hide GoodConfig, Roomy, Partition, MostLive;
    SizeWithin(c, most, fill);
    RoomForOne(c, most, m, c.size(fill));
    AllocateKeeps(c.lo, c.hi, m.holes, m.live, c.size(fill), Data(fill));
  }

  lemma {:induction false} SilentStep(c: Config, most: nat, s: State)
    requires GoodConfig(c) && Roomy(c, most) && Silent(c, most, s) && s.eng.fill < c.avg
    ensures Apply(c, s, Fill).Some?
    ensures var s' := Apply(c, s, Fill).value;
      Silent(c, most, s') && s'.h == s.h && s'.eng.fill == s.eng.fill + 1
  {
    hide GoodConfig, Roomy, Spare, TakeBuffer;
    SpareFill(c, most, s.mem, s.eng.fill);
  }

  lemma {:induction false} SilentEnd(c: Config, most: nat, s: State) returns (acts: seq<Action>)
    requires GoodConfig(c) && Roomy(c, most) && Silent(c, most, s)
    ensures FreshRun(c, s, acts) && Exec(c, s, acts).Some?
    ensures var e := Exec(c, s, acts).value;
      e.status == Running && Stuck(c, e) && e.h == s.h && e.eng.completed == 0 && e.eng.submitted == c.avg
    decreases c.avg - s.eng.fill
  {
    hide GoodConfig, Roomy, Spare, Apply, Stuck;
    if s.eng.fill == c.avg {
      LastFill(c, s);
      ExecOne(c, s, FillDone);
      acts := [FillDone];
    } else {
      SilentStep(c, most, s);
      var rest := SilentEnd(c, most, Apply(c, s, Fill).value);
      acts := [Fill] + rest;
      assert acts[1..] == rest;
    }
  }

  /** A flow that can have exactly depth commands in flight can lose all of them: it ends with
      depth commands submitted, nothing able to move, and no request completed. */
  lemma {:induction false} FullQueueLosesAll(c: Config, most: nat) returns (acts: seq<Action>)
    requires GoodConfig(c) && Roomy(c, most) && Min(c.cap, c.avg) == c.depth
    ensures FreshRun(c, Init(c), acts) && Exec(c, Init(c), acts).Some?
    ensures var s := Exec(c, Init(c), acts).value;
      && s.status == Running && Stuck(c, s) && s.eng.submitted == c.avg && s.eng.completed == 0
      && |s.h.submitted| == s.h.published == c.depth && s.h.fetched == 0
  {
    hide GoodConfig, Roomy, Groups, Apply, FreshId, Init, FreshRun, Exec, Stuck, Silent;
    InitFilling(c);
    var fill := FillToBrim(c, most, Init(c));
    var s := Exec(c, Init(c), fill).value;
    BrimOverflows(c, s);
    ExecAppend(c, Init(c), fill, [EnqueueCmd, RingSqDb]);
    var s1 := Exec(c, s, [EnqueueCmd, RingSqDb]).value;
    BrimSilent(c, most, s, s1);
    var rest := SilentEnd(c, most, s1);
    ExecAppend(c, Init(c), fill + [EnqueueCmd, RingSqDb], rest);
    acts := fill + [EnqueueCmd, RingSqDb] + rest;
  }

  /** At the brim as many requests have been generated as go out. */
  lemma BrimCounts(c: Config, s: State)
    requires Filling(c, s) && Brim(c, s) && Min(c.cap, c.avg) == c.depth
    ensures s.eng.submitted == s.eng.fill <= c.avg && (s.eng.inflight >= c.cap || s.eng.fill == c.avg)
    ensures s.eng.completed == 0 && s.eng.batch == [] && !s.eng.post && s.done == []
    ensures s.h.fetched == 0 && s.dev.held == {}
  {
    hide Holding, Table, Describing, Related, Interrupting, Partition;
    StagesOrdered(c, s);
  }

  lemma BrimSilent(c: Config, most: nat, s: State, s1: State)
    requires GoodConfig(c) && Roomy(c, most) && Filling(c, s) && Brim(c, s) && Min(c.cap, c.avg) == c.depth
    requires s1 == s.(q := s1.q, h := s1.h, sub := NoSub) && !CanFetch(s1.q)
    ensures Silent(c, most, s1)
  {
    hide GoodConfig, Roomy, Groups, Partition;
    BrimCounts(c, s);
    LiveBounded(c, s);
    LiveSizes(c, most, s);
    PartitionOf(c, s);
    NoneBeyond(c, s);
  }

  lemma NoneBeyond(c: Config, s: State)
    requires Groups(c, s)
    ensures forall r: nat :: s.eng.submitted <= r ==> Data(r) !in s.mem.live
  {
    hide Pacing, Queueing, Serving, Interrupting, Delivery, Table, Describing, Partition, Buffered;
  }

  lemma LastFill(c: Config, s: State)
    requires s.status == Running && s.sub == NoSub && !s.eng.running && s.eng.fill == c.avg
    requires s.eng.batch == [] && !s.eng.post && s.done == [] && s.irq == Idle && !s.dev.owed && s.dev.irqs == 0
    requires s.dev.held == {} && !CanFetch(s.q)
    ensures FreshId(s) && Apply(c, s, FillDone) == Some(s.(eng := s.eng.(running := true)))
    ensures Stuck(c, Apply(c, s, FillDone).value)
  {
  }

  // ---- what an ended flow leaves behind ----

  ghost predicate Leaves(c: Config, s: State, o: Owner) {
    o in c.fixed || (o.Data? && (o.r in s.done || o.r in s.eng.waiting))
  }

  /** Where nothing can move, the blocks in use are those made before the flow and the buffers
      of requests completed and never collected, or never sent to the device. */
  lemma {:induction false} StuckLeaves(c: Config, s: State)
    requires GoodConfig(c) && Groups(c, s) && s.status == Running && Stuck(c, s)
    ensures forall o :: o in s.mem.live <==> Leaves(c, s, o)
    ensures s.mem.holes == c.holes <==> s.done == [] && s.eng.waiting == []
  {
    hide GoodConfig, Groups, Stuck, Partition;
    StuckPlaces(c, s);
    forall o ensures o in s.mem.live <==> Leaves(c, s, o) { StuckOwner(c, s, o); }
    PartitionOf(c, s);
    FixedPartition(c);
    FixedKept(c, s);
    if s.done == [] && s.eng.waiting == [] {
      assert s.mem.live == c.fixed;
      SameBlocksSameHoles(c.lo, c.hi, s.mem.holes, c.holes, c.fixed);
    }
    if s.mem.holes == c.holes {
      SameHolesSameBlocks(c.lo, c.hi, c.holes, s.mem.live, c.fixed);
      OnlyFixedLeft(c, s);
    }
  }

  lemma FixedKept(c: Config, s: State)
    requires GoodConfig(c) && Groups(c, s)
    ensures forall o :: o in c.fixed ==> o.Fixed? && o in s.mem.live && s.mem.live[o] == c.fixed[o]
  {
    hide Pacing, Queueing, Serving, Interrupting, Delivery, Table, Describing, Partition, Buffered;
    forall o | o in c.fixed ensures o.Fixed? && o in s.mem.live && s.mem.live[o] == c.fixed[o] {
      assert o == Fixed(o.i);
    }
  }

  lemma OnlyFixedLeft(c: Config, s: State)
    requires (forall o :: o in s.mem.live <==> Leaves(c, s, o)) && s.mem.live == c.fixed
    requires forall o :: o in c.fixed ==> o.Fixed?
    ensures s.done == [] && s.eng.waiting == []
  {
    if s.done != [] { assert Leaves(c, s, Data(s.done[0])); }
    if s.eng.waiting != [] { assert Leaves(c, s, Data(s.eng.waiting[0])); }
  }

  /** All that was sent to the device was called back; the rest waits. */
  ghost predicate AtRest(s: State) {
    && s.sub == NoSub && s.irq == Idle && s.eng.batch == []
    && |s.log| == |s.h.posted| == |s.h.submitted| == s.h.consumed && s.eng.completed <= |s.log|
    && (forall r: nat :: r in s.log <==> r < |s.log|)
    && (forall i, j :: 0 <= i < j < |s.log| ==> s.log[i] != s.log[j])
    && s.done == s.log[s.eng.completed..]
    && Consecutive(s.eng.waiting, |s.log|, s.eng.submitted)
  }

  lemma {:induction false} StuckPlaces(c: Config, s: State)
    requires Groups(c, s) && s.status == Running && Stuck(c, s)
    ensures AtRest(s)
  {
    hide Describing, Table, Holding, Related, Serving, Interrupting;
    StuckSubmit(c, s);
    StuckIrq(c, s);
    StuckDevice(c, s);
    StuckThread(c, s);
    LogDistinct(c, s);
    Pigeonhole(|s.log|, s.log);
  }

  lemma StuckOwner(c: Config, s: State, o: Owner)
    requires GoodConfig(c) && Groups(c, s) && AtRest(s)
    ensures o in s.mem.live <==> Leaves(c, s, o)
  {
    hide GoodConfig, Groups, AtRest, Partition;
    FixedKept(c, s);
    match o
    case Fixed(i) => FixedOwner(c, s, i);
    case Data(r) => DataOwner(c, s, r);
    case ListOf(n) => ListOwner(c, s, n);
  }

  lemma FixedOwner(c: Config, s: State, i: nat)
    requires Groups(c, s)
    ensures Fixed(i) in s.mem.live <==> Fixed(i) in c.fixed
  {
    hide Pacing, Queueing, Serving, Interrupting, Delivery, Table, Describing, Partition, Buffered;
  }

  lemma DataOwner(c: Config, s: State, r: nat)
    requires Groups(c, s) && AtRest(s)
    ensures Data(r) in s.mem.live <==> r in s.done || r in s.eng.waiting
  {
    hide Pacing, Queueing, Serving, Interrupting, Delivery, Table, Describing, Partition;
    var k, n := s.eng.completed, |s.log|;
    NotProcessed(s.log, k, r);
    assert r < s.eng.submitted && !Processed(s.log, k, r) ==> Buffered(c, s.mem, r);
    assert s.log[..k] + s.done == s.log;
    assert r in s.log <==> r in s.log[..k] || r in s.done;
    if r in s.done { NotTwice(s.log, k, r); }
    if n <= r < s.eng.submitted { assert s.eng.waiting[r - n] == r; }
  }

  lemma NotTwice(log: seq<nat>, k: nat, r: nat)
    requires k <= |log| && r in log[k..] && forall i, j :: 0 <= i < j < |log| ==> log[i] != log[j]
    ensures r !in log[..k]
  {
    var j :| 0 <= j < |log| - k && log[k..][j] == r;
    forall i | 0 <= i < k ensures log[..k][i] != r { assert log[i] != log[k + j]; }
  }

  lemma ListOwner(c: Config, s: State, n: nat)
    requires Groups(c, s) && AtRest(s)
    ensures ListOf(n) !in s.mem.live
  {
    hide Pacing, Queueing, Serving, Interrupting, Holding, Describing, Listed;
    if n < |s.log| {
      assert n in s.log;
      var j :| 0 <= j < |s.log| && s.log[j] == n;
      assert s.h.posted[j].tag == n;
      assert Gone(s.h.posted, |s.log|, n);
    }
  }

  // ---- leaving buffers behind ----

  /** The configurations that give all memory back, however completions arrive. */
  predicate GivesBack(c: Config) {
    c.avg == 0 || (c.avg <= c.count && 1 <= c.cap)
  }

  /** At most one completion is with the thread at a time, and it waits for all of them. */
  ghost predicate Thin(c: Config, s: State) {
    && Groups(c, s) && s.status == Running && ThinCounts(c, s)
  }

  predicate ThinCounts(c: Config, s: State) {
    |s.eng.batch| + |s.done| <= 1 && s.eng.completed + |s.eng.batch| + |s.done| <= c.count
  }

  /** The last completion the thread waits for is accounted for; it collects no more. */
  predicate Through(c: Config, s: State) {
    s.eng.completed == c.count && s.eng.batch == []
  }

  /** The thread's own next step. */
  function NextOwn(c: Config, s: State): Action {
    match s.sub
    case Setup(_) => SetupCmd
    case Build(_, _) => BuildPrp
    case Enqueue(_, _, _, _) => EnqueueCmd
    case RingSq => RingSqDb
    case NoSub =>
      if !s.eng.running then (if s.eng.fill < c.avg then Fill else FillDone)
      else if s.eng.post then (if DrainGuard(s.eng, c.cap) then Drain else OnCompleted)
      else if s.eng.batch != [] then Process
      else Collect
  }

  /** Inside an operation, or with something to do, the thread can move. */
  lemma {:induction false} OwnEnabled(c: Config, s: State)
    requires Groups(c, s) && s.status == Running
    requires s.sub != NoSub || !s.eng.running || s.eng.post || s.eng.batch != [] || (s.done != [] && s.eng.completed < c.count)
    ensures Apply(c, s, NextOwn(c, s)).Some? && !Outside(NextOwn(c, s))
  {
    hide BuildList, TakeBuffer, GiveBuffer, Groups;
    match s.sub
    case Build(_, _) => BuildEnabled(c, s);
    case Enqueue(_, _, _, _) => EntryWaits(c, s);
    case NoSub => FillFirst(c, s);
    case _ =>
  }

  lemma FillFirst(c: Config, s: State)
    requires Groups(c, s)
    ensures s.eng.fill <= c.avg && (!s.eng.running ==> !s.eng.post && s.eng.batch == [])
  {
    hide Holding, Table, Describing, Serving, Interrupting, Related, Delivery;
  }

  lemma ThinKeeps(c: Config, s: State, a: Action)
    requires ThinCounts(c, s) && Apply(c, s, a).Some?
    requires a == IrqHandle ==> s.done == [] && s.eng.batch == [] && s.eng.completed < c.count
    ensures ThinCounts(c, Apply(c, s, a).value)
  {
    hide BuildList, TakeBuffer, GiveBuffer, GivePages, WriteSqe, Fetch, Post;
  }

  /** The next step of a run that lets completions through one at a time. */
  lemma {:induction false} ThinStep(c: Config, s: State) returns (a: Action)
    requires 1 <= c.avg && 1 <= c.cap && Thin(c, s) && !Through(c, s)
    ensures Apply(c, s, a).Some? && ThinCounts(c, Apply(c, s, a).value)
  {
    hide Groups, Apply, Stuck;
    if s.eng.batch != [] || s.done != [] {
      a := NextOwn(c, s);
      OwnEnabled(c, s);
    } else {
      if Stuck(c, s) { StuckIsFinished(c, s); }
      a := SomeAction(c, s);
    }
    ThinKeeps(c, s, a);
  }

  lemma {:induction false} ThinRun(c: Config, most: nat, s: State) returns (acts: seq<Action>)
    requires GoodConfig(c) && QueueRoom(c) && Roomy(c, most) && c.avg <= IDS && c.count <= IDS && 1 <= c.avg && 1 <= c.cap && Thin(c, s)
    ensures FreshRun(c, s, acts) && Exec(c, s, acts).Some?
    ensures var s' := Exec(c, s, acts).value; Groups(c, s') && s'.status == Running && Through(c, s')
    decreases c.avg + 18 * Largest(c) + 3 - Progress(s)
  {
    hide Groups, GoodConfig, QueueRoom, Roomy, Apply, FreshId, Progress, ThinCounts, Through;
    acts := [];
    if !Through(c, s) {
      var a := ThinStep(c, s);
      var s' := Apply(c, s, a).value;
      SmallFresh(c, s);
      StepKeeps(c, s, a);
      StepStaysRunning(c, most, s, a);
      InvRunning(c, s');
      StepAdvances(c, s, a);
      ProgressBounded(c, s');
      var rest := ThinRun(c, most, s');
      acts := [a] + rest;
      assert acts[1..] == rest;
    }
  }

  lemma {:induction false} ThroughForGood(c: Config, s: State, acts: seq<Action>)
    requires Through(c, s) && Exec(c, s, acts).Some?
    ensures Through(c, Exec(c, s, acts).value)
    decreases |acts|
  {
    hide Apply, Through;
    if acts != [] {
      StaysThrough(c, s, acts[0]);
      ThroughForGood(c, Apply(c, s, acts[0]).value, acts[1..]);
    }
  }

  lemma StaysThrough(c: Config, s: State, a: Action)
    requires Through(c, s) && Apply(c, s, a).Some?
    ensures Through(c, Apply(c, s, a).value)
  {
    hide BuildList, TakeBuffer, GiveBuffer, GivePages, WriteSqe, Fetch, Post;
  }

  /** With more requests started than completions waited for, a run ends with buffers in use. */
  lemma {:induction false} BuffersLeft(c: Config, most: nat) returns (acts: seq<Action>)
    requires GoodConfig(c) && QueueRoom(c) && Roomy(c, most) && c.count < c.avg && 1 <= c.cap
    ensures FreshRun(c, Init(c), acts) && Exec(c, Init(c), acts).Some?
    ensures var s := Exec(c, Init(c), acts).value;
      Stuck(c, s) && |s.done| + |s.eng.waiting| == c.avg - c.count && s.mem.holes != c.holes
  {
    hide Groups, GoodConfig, QueueRoom, Roomy, Apply, FreshId, Stuck, Init, Exec, FreshRun, Through;
    InitInv(c);
    InitThin(c);
    FewRequests(c);
    var first := ThinRun(c, most, Init(c));
    var s := Exec(c, Init(c), first).value;
    var rest := EndReachable(c, most, s);
    ThroughForGood(c, s, rest);
    ExecAppend(c, Init(c), first, rest);
    acts := first + rest;
    RunKeeps(c, Init(c), acts);
    var e := Exec(c, Init(c), acts).value;
    InvRunning(c, e);
    StuckLeaves(c, e);
    LeftCount(c, e);
  }

  lemma InitThin(c: Config)
    requires Inv(c, Init(c))
    ensures Thin(c, Init(c))
  {
    hide Groups;
  }

  lemma FewRequests(c: Config)
    requires GoodConfig(c)
    ensures c.avg <= IDS
  {
    hide Partition;
  }

  lemma LeftCount(c: Config, s: State)
    requires Groups(c, s) && s.status == Running && Stuck(c, s) && Through(c, s) && c.count < c.avg && 1 <= c.cap
    ensures |s.done| + |s.eng.waiting| == c.avg - c.count
  {
    hide Describing, Table, Holding, Related, Serving, Interrupting;
    StuckPlaces(c, s);
    StuckThread(c, s);
  }

  /** With a queue depth of 0 nothing is ever sent. */
  lemma {:induction false} NothingSent(c: Config, s: State)
    requires Groups(c, s) && s.status == Running && Stuck(c, s) && 1 <= c.avg && c.cap == 0
    ensures s.eng.waiting != []
  {
    hide Describing, Table, Holding, Queueing, Serving, Interrupting, Delivery, Stuck;
    StuckThread(c, s);
  }

  /** Every run that can go no further has given all memory back. */
  ghost predicate AlwaysBack(c: Config) {
    forall acts :: FreshRun(c, Init(c), acts) ==> BackAtEnd(c, Exec(c, Init(c), acts))
  }

  ghost predicate BackAtEnd(c: Config, r: Option<State>) {
    r.Some? && (Stuck(c, r.value) ==> r.value.mem.holes == c.holes)
  }

  lemma {:induction false} EndsBack(c: Config, s: State)
    requires GoodConfig(c) && Groups(c, s) && s.status == Running && Stuck(c, s) && GivesBack(c)
    ensures s.done == [] && s.eng.waiting == []
  {
    hide GoodConfig, Groups, Stuck;
    if 1 <= c.avg {
      EndFinished(c, s);
    } else {
      NothingStarted(c, s);
    }
  }

  lemma NothingStarted(c: Config, s: State)
    requires Groups(c, s) && s.status == Running && Stuck(c, s) && c.avg == 0
    ensures s.done == [] && s.eng.waiting == []
  {
    hide Describing, Table, Holding, Queueing, Serving, Interrupting, Delivery, Stuck;
    StuckThread(c, s);
    StagesOrdered(c, s);
  }

  /** Memory comes back in every run exactly for those configurations. */
  lemma {:induction false} MemoryReturnsExactly(c: Config, most: nat)
    requires GoodConfig(c) && QueueRoom(c) && Roomy(c, most)
    ensures AlwaysBack(c) <==> GivesBack(c)
  {
    hide GoodConfig, QueueRoom, Roomy, Groups, Exec, Init, FreshRun, Stuck;
    InitInv(c);
    InitRunning(c);
    if GivesBack(c) {
      forall acts | FreshRun(c, Init(c), acts) ensures BackAtEnd(c, Exec(c, Init(c), acts)) {
        RunKeeps(c, Init(c), acts);
        RunStaysRunning(c, most, Init(c), acts);
        var s := Exec(c, Init(c), acts).value;
        InvRunning(c, s);
        if Stuck(c, s) {
          EndsBack(c, s);
          StuckLeaves(c, s);
        }
      }
    } else {
      var acts: seq<Action>;
      if c.cap == 0 {
        acts := EndReachable(c, most, Init(c));
        RunKeeps(c, Init(c), acts);
        var s := Exec(c, Init(c), acts).value;
        InvRunning(c, s);
        NothingSent(c, s);
        StuckLeaves(c, s);
      } else {
        acts := BuffersLeft(c, most);
      }
      assert !BackAtEnd(c, Exec(c, Init(c), acts));
    }
  }
}
